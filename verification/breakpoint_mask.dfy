/** The breakpoint event mask of types.h.

    A mask is an unsigned int whose three low bits name the build-graph events a
    breakpoint stops at and whose fourth bit marks a temporary (one-shot)
    breakpoint. Masks are combined with bitwise or; the functions `Events` and
    `IsTemp` read a mask as a set of events plus a temporary flag, and the
    lemmas below show that or on masks is union on that reading. */
module BreakpointMask {
  import opened Bits

  /** brkpt_mask_t */
  type Mask = Word

  const BrkNone: Mask := 0x00
  const BrkBeforePrereq: Mask := 0x01
  const BrkAfterPrereq: Mask := 0x02
  const BrkAfterCmd: Mask := 0x04
  const BrkAll: Mask := BrkBeforePrereq | BrkAfterPrereq | BrkAfterCmd
  const BrkTemp: Mask := 0x08

  /** The build-graph events a breakpoint can stop at. */
  datatype Event = BeforePrereq | AfterPrereq | AfterCmd

  const AllEvents: set<Event> := {BeforePrereq, AfterPrereq, AfterCmd}

  /** The bit that stands for an event. */
  function EventBit(e: Event): (b: Mask)
    ensures IsSingleBit(b)
    ensures b & BrkAll == b
    ensures b & BrkTemp == 0
  {
    match e
    case BeforePrereq => BrkBeforePrereq
    case AfterPrereq => BrkAfterPrereq
    case AfterCmd => BrkAfterCmd
  }

  /** The events a mask stops at. */
  function Events(m: Mask): (s: set<Event>)
    ensures forall e :: e in s <==> m & EventBit(e) != 0
  {
    (if m & BrkBeforePrereq != 0 then {BeforePrereq} else {})
    + (if m & BrkAfterPrereq != 0 then {AfterPrereq} else {})
    + (if m & BrkAfterCmd != 0 then {AfterCmd} else {})
  }

  /** The mask marks a temporary breakpoint. */
  predicate IsTemp(m: Mask) {
    m & BrkTemp != 0
  }

  /** The mask built from a set of events and a temporary flag; the inverse of
      reading a mask through `Events` and `IsTemp`. */
  function FromEvents(s: set<Event>, temp: bool): (m: Mask)
    ensures Events(m) == s
    ensures IsTemp(m) == temp
    ensures m & !0x0f == 0
  {
    var m :=
      (if BeforePrereq in s then BrkBeforePrereq else BrkNone)
      | (if AfterPrereq in s then BrkAfterPrereq else BrkNone)
      | (if AfterCmd in s then BrkAfterCmd else BrkNone)
      | (if temp then BrkTemp else BrkNone);
    EventsFromBits(m, s);
    m
  }

  /** A mask whose event bits are set exactly for the members of `s` stops at `s`. */
  lemma EventsFromBits(m: Mask, s: set<Event>)
    requires forall e :: m & EventBit(e) != 0 <==> e in s
    ensures Events(m) == s
  {
  }

  /** Combining two masks, as `|=` does. */
  function Union(a: Mask, b: Mask): (r: Mask)
    ensures Events(r) == Events(a) + Events(b)
    ensures IsTemp(r) <==> IsTemp(a) || IsTemp(b)
  {
    UnionEvents(a, b);
    a | b
  }

  lemma UnionEvents(a: Mask, b: Mask)
    ensures Events(a | b) == Events(a) + Events(b)
  {
    assert (a | b) & BrkBeforePrereq == (a & BrkBeforePrereq) | (b & BrkBeforePrereq);
    assert (a | b) & BrkAfterPrereq == (a & BrkAfterPrereq) | (b & BrkAfterPrereq);
    assert (a | b) & BrkAfterCmd == (a & BrkAfterCmd) | (b & BrkAfterCmd);
  }

  /** Reading a mask and building it again keeps exactly its four defined bits. */
  lemma FromEventsOfMask(m: Mask)
    ensures FromEvents(Events(m), IsTemp(m)) == m & 0x0f
  {
  }

  /** BRK_NONE is zero and stops nowhere. */
  lemma NoneIsEmpty()
    ensures BrkNone == 0
    ensures Events(BrkNone) == {} && !IsTemp(BrkNone)
  {
  }

  /** The three event bits are distinct single bits. */
  lemma EventBitsDistinct(e1: Event, e2: Event)
    ensures e1 != e2 <==> EventBit(e1) & EventBit(e2) == 0
  {
  }

  /** BRK_ALL is 0x07, the union of the three event bits, and stops at every event. */
  lemma AllIsEveryEvent()
    ensures BrkAll == 0x07
    ensures Events(BrkAll) == AllEvents
    ensures !IsTemp(BrkAll)
  {
  }

  /** BRK_TEMP is disjoint from BRK_ALL: or-ing it in never changes the events. */
  lemma TempKeepsEvents(m: Mask)
    ensures BrkTemp & BrkAll == 0
    ensures Events(Union(m, BrkTemp)) == Events(m)
    ensures IsTemp(Union(m, BrkTemp))
  {
  }

  /** Union is commutative, associative and idempotent, with BRK_NONE as unit. */
  lemma UnionIsSetUnion(a: Mask, b: Mask, c: Mask)
    ensures Union(a, b) == Union(b, a)
    ensures Union(Union(a, b), c) == Union(a, Union(b, c))
    ensures Union(a, a) == a
    ensures Union(a, BrkNone) == a
  {
  }
}
