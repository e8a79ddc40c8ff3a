/** The debugger's `continue [TARGET [all|run|prereq|end]*]` command
    (dbg_cmd_continue in debugger/command/continue.h) as a transition of the
    debugger session.

    The build engine's routines the command calls are not part of this model;
    they are passed in as the fields of an `Engine`: target lookup
    (`lookup_file`), variable expansion in the current target's variable set
    (`variable_expand_set`), the parsing of one breakpoint option word
    (`get_brkpt_option`) and the breakpoint registry's answer to an insertion
    (`add_breakpoint`, which the model lets append the breakpoint when it
    succeeds). The argument string is the list of words `get_word` yields. */
module ContinueCommand {
  import opened Wrappers
  import opened BreakpointMask
  import opened DebugLevel
  import opened DebugSession

  /** A target (a `file_t`), known by its identity. */
  type TargetId = nat

  /** The variable set of a target. */
  type VarSet = nat

  datatype Breakpoint = Breakpoint(target: TargetId, mask: Mask)

  /** The part of the debugger's global state the command reads or writes. */
  datatype Session = Session(
    dbLevel: Level,                 // db_level
    stepping: nat,                  // i_debugger_stepping
    nexting: nat,                   // i_debugger_nexting
    breakpoints: seq<Breakpoint>,   // the breakpoint registry, in insertion order
    makeflagsCleared: bool)         // MAKEFLAGS defined empty with origin o_debugger

  /** The build engine as the command sees it. */
  datatype Engine = Engine(
    stackVars: Option<VarSet>,                 // variables of p_stack->p_target, if both exist
    lookupFile: string -> Option<TargetId>,    // lookup_file
    expand: (string, VarSet) -> string,        // variable_expand_set
    brkptOption: string -> Mask,               // get_brkpt_option
    addBreakpoint: (TargetId, Mask) -> bool)   // add_breakpoint succeeds

  /** The debug_return_t values the command returns. */
  datatype DebugReturn = ContinueExecution | DebugCmdError

  datatype Reply = Reply(status: DebugReturn, session: Session)

  /** `get_word`: the next word and the words after it; the empty word once
      the argument string is used up. */
  function NextWord(words: seq<string>): (r: (string, seq<string>))
    ensures words == [] ==> r == ("", [])
    ensures words != [] ==> [r.0] + r.1 == words
  {
    if words == [] then ("", []) else (words[0], words[1..])
  }

  /** The argument pointer is non-null and the string non-empty. A NULL
      argument is None; an empty string is Some([]); a non-empty string is a
      non-empty word list (a blank one is [""], the empty word `get_word`
      returns for it). With arguments there is a first word to take. */
  function HasArgs(args: Option<seq<string>>): (present: bool)
    ensures present <==> args.Some? && args.value != []
    ensures args.None? ==> !present
    ensures args == Some([]) ==> !present
    ensures present ==> [NextWord(args.value).0] + NextWord(args.value).1 == args.value
  {
    args.Some? && args.value != []
  }

  /** The target a word names, as `dbg_cmd_continue` resolves it. Inside a target's evaluation the
      word is first expanded in that target's variables, and an empty
      expansion names no target; otherwise the raw word is looked up. */
  function ResolveTarget(eng: Engine, word: string): (t: Option<TargetId>)
    ensures eng.stackVars.None? ==> t == eng.lookupFile(word)
    ensures eng.stackVars.Some? && eng.expand(word, eng.stackVars.value) == "" ==> t.None?
    ensures eng.stackVars.Some? && eng.expand(word, eng.stackVars.value) != "" ==>
              t == eng.lookupFile(eng.expand(word, eng.stackVars.value))
  {
    match eng.stackVars
    case None => eng.lookupFile(word)
    case Some(vars) =>
      var expanded := eng.expand(word, vars);
      if expanded != "" then eng.lookupFile(expanded) else None
  }

  /** The option words the breakpoint-type loop of `dbg_cmd_continue` reads: every word up to the
      first empty one. */
  function OptionPrefix(words: seq<string>): (p: seq<string>)
    ensures p <= words
    ensures forall i :: 0 <= i < |p| ==> p[i] != ""
    ensures |p| < |words| ==> words[|p|] == ""
  {
    if words == [] || words[0] == "" then [] else [words[0]] + OptionPrefix(words[1..])
  }

  /** The events a list of option words names, each word read by `opt`. */
  function EventsNamed(words: seq<string>, opt: string -> Mask): set<Event> {
    set w, e | w in words && e in Events(opt(w)) :: e
  }

  /** Some option word yields a mask with the temporary bit. */
  predicate AnyTemp(words: seq<string>, opt: string -> Mask) {
    exists w :: w in words && IsTemp(opt(w))
  }

  /** The breakpoint-type loop: or into `acc` the mask of each word until the
      first empty one. */
  function AccumulateMask(acc: Mask, words: seq<string>, opt: string -> Mask): (m: Mask)
    ensures Events(m) == Events(acc) + EventsNamed(OptionPrefix(words), opt)
    ensures IsTemp(m) <==> IsTemp(acc) || AnyTemp(OptionPrefix(words), opt)
    decreases |words|
  {
    if words == [] || words[0] == "" then
      NoOptions(words, opt);
      acc
    else
      var acc' := Union(acc, opt(words[0]));
      var m := AccumulateMask(acc', words[1..], opt);
      OptionsCons(words, opt);
      assert Events(m) == Events(acc') + EventsNamed(OptionPrefix(words[1..]), opt);
      assert Events(acc') == Events(acc) + Events(opt(words[0]));
      m
  }

  /** A word list that is empty or starts with the empty word has no option words. */
  lemma NoOptions(words: seq<string>, opt: string -> Mask)
    requires words == [] || words[0] == ""
    ensures OptionPrefix(words) == []
    ensures EventsNamed([], opt) == {}
    ensures !AnyTemp([], opt)
  {
  }

  /** Reading one more option word adds its events and its temporary bit. */
  lemma OptionsCons(words: seq<string>, opt: string -> Mask)
    requires words != [] && words[0] != ""
    ensures OptionPrefix(words) == [words[0]] + OptionPrefix(words[1..])
    ensures EventsNamed(OptionPrefix(words), opt)
         == Events(opt(words[0])) + EventsNamed(OptionPrefix(words[1..]), opt)
    ensures AnyTemp(OptionPrefix(words), opt)
         <==> IsTemp(opt(words[0])) || AnyTemp(OptionPrefix(words[1..]), opt)
  {
  }

  /** The breakpoint mask `dbg_cmd_continue` builds from the words after the
      target, with every option word read: no option
      word stops at every event, otherwise the events are the union of those
      the option words name. */
  function BreakMask(rest: seq<string>, opt: string -> Mask): (m: Mask)
    ensures OptionPrefix(rest) == [] ==> m == BrkAll
    ensures OptionPrefix(rest) != [] ==> Events(m) == EventsNamed(OptionPrefix(rest), opt)
    ensures OptionPrefix(rest) != [] ==> (IsTemp(m) <==> AnyTemp(OptionPrefix(rest), opt))
  {
    var (first, more) := NextWord(rest);
    if first == "" then BrkAll
    else
      OptionsCons(rest, opt);
      AccumulateMask(opt(first), more, opt)
  }

  /** The breakpoint mask as `dbg_cmd_continue` builds it. After taking the
      first option word it stores the word `get_word` returned back into the
      argument cursor; `get_word` has ended that word with a
      NUL in place, so the loop re-reads the first option word and then
      meets the end of the string. */
  function BreakMaskAsWritten(rest: seq<string>, opt: string -> Mask): (m: Mask)
    ensures OptionPrefix(rest) == [] ==> m == BrkAll
    ensures OptionPrefix(rest) != [] ==> Events(m) == Events(opt(rest[0]))
    ensures OptionPrefix(rest) != [] ==> (IsTemp(m) <==> IsTemp(opt(rest[0])))
  {
    var (first, _) := NextWord(rest);
    if first == "" then BrkAll
    else
      OptionsCons([first], opt);
      assert [first][1..] == [];
      AccumulateMask(opt(first), [first], opt)
  }

  /** As written, only the first option word counts. */
  lemma AsWrittenReadsFirstOptionOnly(rest: seq<string>, opt: string -> Mask)
    ensures OptionPrefix(rest) == [] ==> BreakMaskAsWritten(rest, opt) == BrkAll
    ensures OptionPrefix(rest) != [] ==> BreakMaskAsWritten(rest, opt) == opt(rest[0])
  {
    if OptionPrefix(rest) != [] {
      var m := opt(rest[0]);
      assert [rest[0]][1..] == [];
      assert AccumulateMask(Union(m, m), [], opt) == Union(m, m);
      assert AccumulateMask(m, [rest[0]], opt) == Union(m, m);
      UnionIsSetUnion(m, m, BrkNone);
    }
  }

  /** `continue foo run prereq`, with "run" meaning after-command and
      "prereq" after-prerequisites: as written the breakpoint stops only after
      the commands, where the usage promises both events. */
  lemma AsWrittenDropsSecondOption()
    ensures
      var opt := (w: string) =>
        if w == "run" then BrkAfterCmd else if w == "prereq" then BrkAfterPrereq else BrkNone;
      && Events(BreakMaskAsWritten(["run", "prereq"], opt)) == {AfterCmd}
      && Events(BreakMask(["run", "prereq"], opt)) == {AfterCmd, AfterPrereq}
  {
    var opt := (w: string) =>
      if w == "run" then BrkAfterCmd else if w == "prereq" then BrkAfterPrereq else BrkNone;
    AsWrittenReadsFirstOptionOnly(["run", "prereq"], opt);
    assert OptionPrefix(["run", "prereq"]) == ["run", "prereq"] by {
      assert ["run", "prereq"][1..] == ["prereq"];
      assert ["prereq"][1..] == [];
    }
    var named := EventsNamed(["run", "prereq"], opt);
    assert AfterCmd in Events(opt("run"));
    assert AfterPrereq in Events(opt("prereq"));
    assert named == {AfterCmd, AfterPrereq};
  }

  /** The common tail of `dbg_cmd_continue`: leave stepping and nexting and
      define MAKEFLAGS empty; neither counter then stops at the next event
      point, and the trace level and breakpoints are kept. */
  function Resumed(s: Session): (s': Session)
    ensures CounterTick(s'.stepping) == Off && CounterTick(s'.nexting) == Off
    ensures s'.makeflagsCleared
    ensures s'.dbLevel == s.dbLevel && s'.breakpoints == s.breakpoints
  {
    s.(stepping := 0, nexting := 0, makeflagsCleared := true)
  }

  /** `s'` is `s` with one more breakpoint at the end. */
  predicate AppendedOne(s: Session, s': Session) {
    |s'.breakpoints| == |s.breakpoints| + 1 && s'.breakpoints[..|s.breakpoints|] == s.breakpoints
  }

  /** The last breakpoint of a non-empty registry. */
  function Newest(s: Session): Breakpoint
    requires s.breakpoints != []
  {
    s.breakpoints[|s.breakpoints| - 1]
  }

  /** dbg_cmd_continue. */
  function Continue(s: Session, eng: Engine, args: Option<seq<string>>): (r: Reply)
    // no argument: tracing off, nothing installed, resume
    ensures !HasArgs(args) ==>
              && r.status == ContinueExecution
              && r.session.dbLevel == DbNone
              && r.session.breakpoints == s.breakpoints
    // an unresolved target is an error
    ensures HasArgs(args) && ResolveTarget(eng, args.value[0]).None? ==> r.status == DebugCmdError
    // an error changes nothing
    ensures r.status == DebugCmdError ==> r.session == s
    // every resume leaves stepping and nexting and clears MAKEFLAGS
    ensures r.status == ContinueExecution ==>
              && r.session.stepping == 0 && r.session.nexting == 0
              && r.session.makeflagsCleared
    // a resume with a target keeps the trace level and appends one temporary
    // breakpoint at that target, stopping at the events the option words name
    ensures HasArgs(args) && r.status == ContinueExecution ==>
              var target := ResolveTarget(eng, args.value[0]);
              var options := OptionPrefix(args.value[1..]);
              && target.Some?
              && r.session.dbLevel == s.dbLevel
              && AppendedOne(s, r.session)
              && Newest(r.session).target == target.value
              && IsTemp(Newest(r.session).mask)
              && eng.addBreakpoint(target.value, Newest(r.session).mask)
              && Events(Newest(r.session).mask) == (if options == [] then AllEvents else EventsNamed(options, eng.brkptOption))
              && (options == [] ==> Newest(r.session).mask == BrkAll | BrkTemp)
    // a resolved target fails only when the registry refuses the breakpoint
    ensures HasArgs(args) && ResolveTarget(eng, args.value[0]).Some? ==>
              (r.status == DebugCmdError <==>
                 !eng.addBreakpoint(ResolveTarget(eng, args.value[0]).value,
                                    Union(BreakMask(args.value[1..], eng.brkptOption), BrkTemp)))
  {
    if HasArgs(args) then
      var (word, rest) := NextWord(args.value);
      match ResolveTarget(eng, word)
      case None => Reply(DebugCmdError, s)
      case Some(target) =>
        var mask := Union(BreakMask(rest, eng.brkptOption), BrkTemp);
        if !eng.addBreakpoint(target, mask) then Reply(DebugCmdError, s)
        else
          TempKeepsEvents(BreakMask(rest, eng.brkptOption));
          AllIsEveryEvent();
          Reply(ContinueExecution, Resumed(s.(breakpoints := s.breakpoints + [Breakpoint(target, mask)])))
    else
      Reply(ContinueExecution, Resumed(s.(dbLevel := DbNone)))
  }

  /** After `continue` without arguments every trace macro is silent. */
  lemma ContinueSilencesTrace(s: Session, eng: Engine, args: Option<seq<string>>,
                              l: Level, depth: nat, msg: string)
    requires !HasArgs(args)
    ensures Dbs(l, Continue(s, eng, args).session.dbLevel, depth, msg) == []
    ensures Db(l, Continue(s, eng, args).session.dbLevel, msg) == []
  {
    NoneTracesNothing(l);
  }

  /** After a resume neither counter enters the read loop at the next event point. */
  lemma ContinueDisarmsCounters(s: Session, eng: Engine, args: Option<seq<string>>, ticks: nat)
    requires Continue(s, eng, args).status == ContinueExecution
    ensures CounterTick(Continue(s, eng, args).session.stepping) == Off
    ensures CounterTick(Continue(s, eng, args).session.nexting) == Off
    ensures TicksUntilReadLoop(Continue(s, eng, args).session.stepping, ticks) == None
    ensures TicksUntilReadLoop(Continue(s, eng, args).session.nexting, ticks) == None
  {
    ReadLoopOnNthTick(0, ticks);
  }
}
