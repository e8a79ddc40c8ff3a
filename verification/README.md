# Debugger control plane of remake, modelled in Dafny

remake is GNU Make with an interactive debugger that stops at build-graph
events instead of source lines. This project models three pieces of that
debugger's control plane:

- **Breakpoint masks** (`types.h`). A mask is a 32-bit unsigned word. Its
  low three bits name the events a breakpoint stops at: before the
  prerequisite check, after the prerequisite check, and after the commands.
  Its fourth bit marks a temporary, one-shot breakpoint. `Events` and
  `IsTemp` read a mask as a set of events plus a flag. `FromEvents` builds a
  mask back from that reading. The lemmas show that or-ing masks is set union.
- **Trace gating and session state** (`debug.h`). This covers the
  `db_level` categories and the `ISDB` test. The `DBS`, `DBSD`, `DBF` and
  `DB` macros return the lines they would print: none when the test fails,
  otherwise one line indented by the global depth, by an explicit depth, or
  not at all. It also covers the entry-condition bits, the three-valued
  `in_debugger` with its quit value 77, and the step/next counter rule
  (0 = off, 1 = enter the read loop, more than 1 = decrement).
- **The `continue` command** (`debugger/command/continue.h`). It is a pure
  transition from a session to a result tag and a new session. The session
  holds `db_level`, the step and next counters, the breakpoint list, and
  whether MAKEFLAGS was defined empty by the debugger. The build engine's
  routines the command calls, whose code is not part of this model, are
  passed in as an `Engine` value: `lookup_file`, `variable_expand_set`,
  `get_brkpt_option` and `add_breakpoint`. The model lets a successful
  `add_breakpoint` append the breakpoint. The argument string is the list of
  words `get_word` yields: `None` is a NULL pointer, `Some([])` is the empty
  string, and a blank string is `Some([""])`.

Files: `wrappers.dfy` (Option), `bits.dfy` (32-bit words, single-bit test),
`breakpoint_mask.dfy`, `debug_level.dfy`, `debug_session.dfy`,
`continue_command.dfy`.

## Model

| member | source | states |
|---|---|---|
| BreakpointMask.EventBit | types.h:55-57 | each event bit is a single bit inside BRK_ALL and outside BRK_TEMP |
| BreakpointMask.Events | types.h:53-60 | an event is in a mask's event set exactly when its bit is set |
| BreakpointMask.FromEvents | types.h:53-62 | building a mask from an event set and a temp flag reads back as that set and flag, with no bit above 0x0f |
| BreakpointMask.FromEventsOfMask | types.h:53-62 | reading a mask and rebuilding it keeps exactly its four defined bits |
| BreakpointMask.Union | types.h:58-62 | or-ing two masks unions their event sets and or-s their temp flags |
| BreakpointMask.NoneIsEmpty | types.h:54 | BRK_NONE is 0, stops at no event and is not temporary |
| BreakpointMask.EventBitsDistinct | types.h:55-57 | two event bits are disjoint exactly when the events differ |
| BreakpointMask.AllIsEveryEvent | types.h:58 | BRK_ALL is 0x07, stops at all three events and is not temporary |
| BreakpointMask.TempKeepsEvents | types.h:58-59 | BRK_TEMP is disjoint from BRK_ALL, so or-ing it in changes no event and makes the mask temporary |
| BreakpointMask.UnionIsSetUnion | types.h:62 | or on masks is commutative, associative and idempotent, with BRK_NONE as unit |
| DebugLevel.CategoryBit | debug.h:32-48 | each named trace category is a single bit inside DB_ALL |
| DebugLevel.CategoryBitsDisjoint | debug.h:31-48 | DB_NONE is 0 and two category bits are disjoint exactly when the categories differ |
| DebugLevel.Categories | debug.h:30-50 | a category is switched on by a level exactly when its bit is set |
| DebugLevel.AllAndNoneLevels | debug.h:49 | DB_ALL switches on every named category and holds bits beyond them; DB_NONE switches on none |
| DebugLevel.NoneTracesNothing | debug.h:129 | at db_level DB_NONE, ISDB is false for every message category |
| DebugLevel.IsDb | debug.h:129 | ISDB is false at DB_NONE and for a zero category; for any category it holds exactly when it shares a named category with db_level or meets it in an unnamed bit, and for a category of named bits exactly when they share a named category |
| DebugLevel.SharedBitIffSharedCategory | debug.h:162 | a word made of named category bits meets db_level in some bit exactly when the two share a named category |
| DebugLevel.Spaces | debug.h:135-138 | the indentation is exactly n blanks |
| DebugLevel.PrintIndented | debug.h:135-138 | DBPRINTS writes one line: the message after exactly depth blanks |
| DebugLevel.Dbs | debug.h:140-148 | DBS writes nothing exactly when ISDB fails, else one line indented by the global depth |
| DebugLevel.Dbsd | debug.h:150-158 | DBSD writes nothing exactly when ISDB fails, else one line indented by its depth argument |
| DebugLevel.Dbf | debug.h:164-166 | DBF writes nothing exactly when ISDB fails, else the formatted file message indented by the global depth |
| DebugLevel.Db | debug.h:168 | DB writes nothing exactly when ISDB fails, else the message with no indentation |
| DebugLevel.MacrosAgree | debug.h:143-168 | DBS is DBSD at the global depth and DB is DBSD at depth zero |
| DebugSession.EnterBit | debug.h:52-56 | each debugger entry condition is a single bit |
| DebugSession.EnterBitsDistinct | debug.h:53-55 | DEBUGGER_ON_ERROR, DEBUGGER_ON_FATAL and DEBUGGER_ON_SIG are pairwise disjoint |
| DebugSession.InDebuggerCode | debug.h:72-77 | in_debugger is 0 outside the read loop, 1 inside it, 77 after quit, and the three codes differ |
| DebugSession.InDebuggerOf | debug.h:72-77 | only 0, 1 and DEBUGGER_QUIT_RC are values of in_debugger |
| DebugSession.InDebuggerRoundTrip | debug.h:59 | in_debugger round-trips through its int code, and 77 is neither 0 nor 1 |
| DebugSession.CounterTick | debug.h:105-117 | a step/next counter of 0 is off, of 1 enters the read loop, and above 1 is decremented to counter - 1 |
| DebugSession.ReadLoopOnNthTick | debug.h:105-117 | from a counter N >= 1 the read loop is entered on exactly the N-th event point; from 0 never |
| ContinueCommand.NextWord | debugger/command/continue.h:24 | get_word yields the next word and leaves the rest, or the empty word at the end |
| ContinueCommand.HasArgs | debugger/command/continue.h:23 | the target branch is taken exactly for a non-NULL, non-empty argument; NULL and the empty string take the no-target branch; with arguments there is a first word to take |
| ContinueCommand.ResolveTarget | debugger/command/continue.h:29-36 | with a stack target the word is expanded first and an empty expansion resolves to nothing; otherwise the raw word is looked up |
| ContinueCommand.OptionPrefix | debugger/command/continue.h:50-51 | the option loop reads the words before the first empty word |
| ContinueCommand.AccumulateMask | debugger/command/continue.h:50-53 | the loop's mask stops at the starting events plus those every option word names, and is temporary when any of them is |
| ContinueCommand.BreakMask | debugger/command/continue.h:43-54 | no option word gives BRK_ALL; otherwise the events are the union of those the option words name |
| ContinueCommand.BreakMaskAsWritten | debugger/command/continue.h:44-54 | as written, no option word gives BRK_ALL; otherwise the mask stops at exactly the first option word's events and is temporary exactly when that word's mask is |
| ContinueCommand.AsWrittenReadsFirstOptionOnly | debugger/command/continue.h:44-53 | as written, the mask is the first option word's mask alone, or BRK_ALL without options |
| ContinueCommand.AsWrittenDropsSecondOption | debugger/command/continue.h:44-53 | `continue foo run prereq` as written stops only after the commands |
| ContinueCommand.Resumed | debugger/command/continue.h:62-65 | the resume tail zeroes both counters, so neither stops at the next event point, defines MAKEFLAGS empty, and keeps db_level and the breakpoints |
| ContinueCommand.Continue | debugger/command/continue.h:20-67 | see below |
| ContinueCommand.ContinueSilencesTrace | debugger/command/continue.h:58-60 | after `continue` without arguments DBS and DB write nothing |
| ContinueCommand.ContinueDisarmsCounters | debugger/command/continue.h:62-63 | after a resume neither counter enters the read loop at any later event point |

`ContinueCommand.Continue` states:

- Without arguments it resumes with `db_level` 0 and the breakpoint list unchanged.
- An unresolved target is an error.
- An error leaves the whole session unchanged.
- Every resume zeroes both counters and defines MAKEFLAGS empty.
- A resume with a target keeps `db_level`. It appends exactly one breakpoint
  at the resolved target, and that breakpoint is temporary. It stops at
  every event when no option word follows; its mask is then exactly
  `BRK_ALL|BRK_TEMP`. Otherwise it stops at the events the option words name.
- A resolved target fails exactly when `add_breakpoint` refuses it.

## Findings

| source | as written | input that shows it | evidently intended | confidence | as-written member | corrected member |
|---|---|---|---|---|---|---|
| debugger/command/continue.h:44-53 | `psz_args = get_word(&psz_args)` puts the returned word back into the cursor. `get_word` has ended that word with a NUL in place, so the loop re-reads the first option word and then stops. | `continue foo run prereq` installs a breakpoint that stops only after the commands | every option word is unioned into the mask, as the usage `[all\|run\|prereq\|end]*` promises | medium, not executed; relies on `get_word` splitting words in place, and its code is not part of this model | ContinueCommand.BreakMaskAsWritten (shown by ContinueCommand.AsWrittenDropsSecondOption) | ContinueCommand.BreakMask (used by ContinueCommand.Continue) |

## Left out

- Printing (`printf`, `fflush`, `print_spaces`, and the `printf (_x, file->name)` of `DBF`). The macros return the lines as strings. The format step of `DBF` is a parameter.
- The "Can't find target" message of `continue`. It is output only; the model keeps the error tag and the unchanged session.
- `jmp_buf debugger_loop` and `setjmp`. This non-local transfer has no counterpart in a pure model.
- The code of `lookup_file`, `variable_expand_set`, `get_brkpt_option`, `add_breakpoint` and `define_variable_in_set`. Their code is not part of this model. The first four are fields of `Engine`. The call to `define_variable_in_set` is the `makeflagsCleared` flag, not a variable set. How options are parsed and how the registry merges or fires breakpoints is not modelled.
- `get_word`'s skipping of blanks. The argument string is given as its word list.
- `dbg_cmd_continue_init`. It only registers usage and help strings.
- The `stringlist` struct, `CALLOC`, the includes, the forward struct typedefs, the `stdbool` fallback, `lineno_t` and the `debug_dummy_*` variables. These are platform plumbing or exist only for symbol tables.
- The other globals declared in debug.h (`debug_flag`, `no_extended_errors`, `show_variable_definitions`, `b_debugger_goal`, `b_debugger_preread`, `debugger_on_error`, `debugger_enabled`, `db_flags`). They are declarations without behaviour in these files.
- DebugSession.CounterTick: does not say what the counter becomes when it reaches 1. debug.h only says that the read loop runs, and the code that resets the counter is not part of this model.
- DebugLevel.Dbs: the global `depth` and the `_depth` argument are modelled as natural numbers. `print_spaces` is not part of this model, so its handling of a negative count is not stated.
- The step and next counters are unbounded naturals. `continue` only zeroes them, and the counter rule only decrements values above 1, so 32-bit wrap-around cannot arise.
