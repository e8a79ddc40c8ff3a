/** The debugger session state declared in debug.h: the conditions on which
    the debugger is entered, the `in_debugger` flag with its quit value, and
    the `i_debugger_stepping` / `i_debugger_nexting` counters. */
module DebugSession {
  import opened Bits
  import opened Wrappers

  /** debug_enter_debugger_t */
  const DebuggerOnError: Word := 0x1
  const DebuggerOnFatal: Word := 0x2
  const DebuggerOnSig: Word := 0x4

  /** The conditions on which the debugger can be entered. */
  datatype EnterCondition = OnError | OnFatal | OnSig

  /** The bit of an entry condition. */
  function EnterBit(c: EnterCondition): (b: Word)
    ensures IsSingleBit(b)
  {
    match c
    case OnError => DebuggerOnError
    case OnFatal => DebuggerOnFatal
    case OnSig => DebuggerOnSig
  }

  /** Distinct entry conditions have disjoint bits. */
  lemma EnterBitsDistinct(c1: EnterCondition, c2: EnterCondition)
    ensures c1 != c2 <==> EnterBit(c1) & EnterBit(c2) == 0
  {
  }

  /** DEBUGGER_QUIT_RC: the value `in_debugger` takes once "quit" was issued. */
  const DebuggerQuitRc: int := 77

  /** The three values `in_debugger` takes. */
  datatype InDebugger = NotInReadLoop | InReadLoop | QuitRequested

  /** The int stored in `in_debugger`. */
  function InDebuggerCode(d: InDebugger): (code: int)
    ensures code == 0 <==> d == NotInReadLoop
    ensures code == 1 <==> d == InReadLoop
    ensures code == DebuggerQuitRc <==> d == QuitRequested
  {
    match d
    case NotInReadLoop => 0
    case InReadLoop => 1
    case QuitRequested => DebuggerQuitRc
  }

  /** Reading `in_debugger` back; any other int is not a value it takes. */
  function InDebuggerOf(code: int): (d: Option<InDebugger>)
    ensures d.Some? <==> code in {0, 1, DebuggerQuitRc}
  {
    if code == 0 then Some(NotInReadLoop)
    else if code == 1 then Some(InReadLoop)
    else if code == DebuggerQuitRc then Some(QuitRequested)
    else None
  }

  /** `in_debugger` round-trips through its int encoding, and the quit value
      is neither "out of the read loop" nor "in the read loop". */
  lemma InDebuggerRoundTrip(d: InDebugger, code: int)
    ensures InDebuggerOf(InDebuggerCode(d)) == Some(d)
    ensures InDebuggerOf(code) == Some(d) ==> InDebuggerCode(d) == code
    ensures DebuggerQuitRc != 0 && DebuggerQuitRc != 1
  {
  }

  /** What one event point does with a step or next counter. */
  datatype Tick =
    | Off                     // the counter is 0: not stepping
    | EnterReadLoop           // the counter is 1: run the debugger read loop
    | Countdown(left: nat)    // the counter was above 1 and is decremented

  /** The counter rule for `i_debugger_stepping` and `i_debugger_nexting`. */
  function CounterTick(counter: nat): (t: Tick)
    ensures t.Off? <==> counter == 0
    ensures t.EnterReadLoop? <==> counter == 1
    ensures t.Countdown? ==> 1 <= t.left && t.left == counter - 1
  {
    if counter == 0 then Off
    else if counter == 1 then EnterReadLoop
    else Countdown(counter - 1)
  }

  /** The 1-based tick at which `ticks` consecutive event points starting from
      `counter` enter the read loop, or None when none of them does. */
  function TicksUntilReadLoop(counter: nat, ticks: nat): Option<nat>
    decreases ticks
  {
    if ticks == 0 then None
    else
      match CounterTick(counter)
      case Off => None
      case EnterReadLoop => Some(1)
      case Countdown(left) =>
        match TicksUntilReadLoop(left, ticks - 1)
        case Some(n) => Some(n + 1)
        case None => None
  }

  /** From a counter of N >= 1 the read loop is entered on exactly the N-th
      event point; from 0 it is never entered. */
  lemma {:induction false} ReadLoopOnNthTick(counter: nat, ticks: nat)
    ensures TicksUntilReadLoop(counter, ticks)
         == if 1 <= counter <= ticks then Some(counter) else None
    decreases ticks
  {
    if ticks > 0 && counter > 1 {
      ReadLoopOnNthTick(counter - 1, ticks - 1);
    }
  }
}
