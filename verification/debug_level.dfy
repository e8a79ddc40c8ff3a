/** The trace facility of debug.h: the `debug_level_mask_t` categories, the
    `ISDB` test against the process-wide `db_level`, and the `DBS`, `DBSD`,
    `DBF` and `DB` macros that print a message, indented or not, only when the
    test passes. Printing itself is replaced by returning the lines that would
    be written: nothing, or one line made of the indentation and the message. */
module DebugLevel {
  import opened Bits

  /** `db_level` and the category masks; `db_level` is an int, whose bits the
      macros read through bitwise and. */
  type Level = Word

  const DbNone: Level := 0x000
  const DbBasic: Level := 0x001
  const DbVerbose: Level := 0x002
  const DbJobs: Level := 0x004
  const DbImplicit: Level := 0x008
  const DbTrace: Level := 0x010
  const DbShell: Level := 0x020
  const DbMakefiles: Level := 0x100
  const DbReadMakefiles: Level := 0x200
  const DbCall: Level := 0x400
  const DbUpdateGoal: Level := 0x800
  const DbAll: Level := 0xfff

  /** The named trace categories. */
  datatype Category =
    | Basic | Verbose | Jobs | Implicit | Trace | Shell
    | Makefiles | ReadMakefiles | Call | UpdateGoal

  /** The bit of a category. */
  function CategoryBit(c: Category): (b: Level)
    ensures IsSingleBit(b)
    ensures b & DbAll == b
  {
    match c
    case Basic => DbBasic
    case Verbose => DbVerbose
    case Jobs => DbJobs
    case Implicit => DbImplicit
    case Trace => DbTrace
    case Shell => DbShell
    case Makefiles => DbMakefiles
    case ReadMakefiles => DbReadMakefiles
    case Call => DbCall
    case UpdateGoal => DbUpdateGoal
  }

  /** The union of the named category bits. DB_ALL (0xfff) also holds the two
      unnamed bits 0x040 and 0x080. */
  const DbNamed: Level :=
    DbBasic | DbVerbose | DbJobs | DbImplicit | DbTrace | DbShell
    | DbMakefiles | DbReadMakefiles | DbCall | DbUpdateGoal

  const AllCategories: set<Category> :=
    {Basic, Verbose, Jobs, Implicit, Trace, Shell, Makefiles, ReadMakefiles, Call, UpdateGoal}

  lemma EveryCategoryListed()
    ensures forall c :: c in AllCategories
  {
    forall c: Category
      ensures c in AllCategories
    {
      match c
      case Basic =>
      case Verbose =>
      case Jobs =>
      case Implicit =>
      case Trace =>
      case Shell =>
      case Makefiles =>
      case ReadMakefiles =>
      case Call =>
      case UpdateGoal =>
    }
  }

  /** The categories a level has switched on. */
  function Categories(m: Level): (s: set<Category>)
    ensures forall c :: c in s <==> m & CategoryBit(c) != 0
  {
    EveryCategoryListed();
    set c | c in AllCategories && m & CategoryBit(c) != 0
  }

  /** `ISDB(l)`: the message category `l` is traced at level `dbLevel`. No
      category is traced at DB_NONE. A category is traced exactly when it
      shares a named category with the level or meets it in a bit outside the
      named ones (0x040, 0x080 and above 0xfff); for a category made of named
      bits only the first can happen. */
  function IsDb(l: Level, dbLevel: Level): (on: bool)
    ensures dbLevel == DbNone ==> !on
    ensures on ==> l != 0 && dbLevel != 0
    ensures on <==> Categories(l & DbNamed) * Categories(dbLevel) != {}
                    || (l & !DbNamed) & dbLevel != 0
    ensures l & DbNamed == l ==> (on <==> Categories(l) * Categories(dbLevel) != {})
  {
    SharedBitIffSharedCategory(l & DbNamed, dbLevel);
    SplitAnd(l, dbLevel);
    l & dbLevel != 0
  }

  /** A conjunction splits into its named and unnamed bits. */
  lemma SplitAnd(l: Level, dbLevel: Level)
    ensures l & dbLevel == ((l & DbNamed) & dbLevel) | ((l & !DbNamed) & dbLevel)
    ensures l & DbNamed == l ==> (l & !DbNamed) & dbLevel == 0
  {
  }

  /** DB_NONE is zero and the named categories are pairwise-disjoint bits. */
  lemma CategoryBitsDisjoint(c1: Category, c2: Category)
    ensures DbNone == 0
    ensures c1 != c2 <==> CategoryBit(c1) & CategoryBit(c2) == 0
  {
  }

  /** DB_ALL switches on every named category, and DB_NONE none. */
  lemma AllAndNoneLevels()
    ensures DbNamed & DbAll == DbNamed
    ensures DbNamed != DbAll
    ensures forall c :: c in Categories(DbAll)
    ensures Categories(DbNone) == {}
  {
  }

  /** At level DB_NONE nothing is traced. */
  lemma NoneTracesNothing(l: Level)
    ensures !IsDb(l, DbNone)
  {
  }

  /** For a word made of named categories, its conjunction with a level is
      non-zero exactly when the two share a named category. */
  lemma SharedBitIffSharedCategory(l: Level, dbLevel: Level)
    requires l & DbNamed == l
    ensures l & dbLevel != 0 <==> Categories(l) * Categories(dbLevel) != {}
  {
    if l & dbLevel != 0 {
      var c := SharedCategory(l, dbLevel);
      assert c in Categories(l) * Categories(dbLevel);
    } else {
      NoSharedCategory(l, dbLevel);
    }
  }

  lemma NoSharedCategory(l: Level, dbLevel: Level)
    requires l & dbLevel == 0
    ensures Categories(l) * Categories(dbLevel) == {}
  {
  }

  /** A named category both words switch on. */
  function SharedCategory(l: Level, dbLevel: Level): (c: Category)
    requires l & DbNamed == l && l & dbLevel != 0
    ensures l & CategoryBit(c) != 0 && dbLevel & CategoryBit(c) != 0
  {
    var w := l & dbLevel;
    assert w & DbNamed == w;
    var c := SomeCategory(w);
    assert w & CategoryBit(c) == (l & CategoryBit(c)) & dbLevel;
    assert w & CategoryBit(c) == (dbLevel & CategoryBit(c)) & l;
    c
  }

  /** A non-zero word inside the named bits has a named category. */
  function SomeCategory(w: Level): (c: Category)
    requires w != 0 && w & DbNamed == w
    ensures w & CategoryBit(c) != 0
  {
    if w & DbBasic != 0 then Basic
    else if w & DbVerbose != 0 then Verbose
    else if w & DbJobs != 0 then Jobs
    else if w & DbImplicit != 0 then Implicit
    else if w & DbTrace != 0 then Trace
    else if w & DbShell != 0 then Shell
    else if w & DbMakefiles != 0 then Makefiles
    else if w & DbReadMakefiles != 0 then ReadMakefiles
    else if w & DbCall != 0 then Call
    else UpdateGoal
  }

  /** `n` blanks, as print_spaces writes them. */
  function Spaces(n: nat): (s: string)
    ensures |s| == n
    ensures forall i :: 0 <= i < n ==> s[i] == ' '
  {
    if n == 0 then "" else Spaces(n - 1) + " "
  }

  /** `line` is `msg` preceded by exactly `n` blanks. */
  predicate IndentedBy(line: string, n: nat, msg: string) {
    && |line| == n + |msg|
    && (forall i :: 0 <= i < n ==> line[i] == ' ')
    && line[n..] == msg
  }

  /** The lines written by DBPRINTS: `msg` indented by `indent` blanks. */
  function PrintIndented(msg: string, indent: nat): (out: seq<string>)
    ensures |out| == 1 && IndentedBy(out[0], indent, msg)
  {
    [Spaces(indent) + msg]
  }

  /** `DBS(l, msg)`: print indented by the global `depth` when `l` is traced. */
  function Dbs(l: Level, dbLevel: Level, depth: nat, msg: string): (out: seq<string>)
    ensures out == [] <==> !IsDb(l, dbLevel)
    ensures out != [] ==> |out| == 1 && IndentedBy(out[0], depth, msg)
  {
    if IsDb(l, dbLevel) then PrintIndented(msg, depth) else []
  }

  /** `DBSD(l, msg, d)`: print indented by the explicit `d` when `l` is traced. */
  function Dbsd(l: Level, dbLevel: Level, msg: string, d: nat): (out: seq<string>)
    ensures out == [] <==> !IsDb(l, dbLevel)
    ensures out != [] ==> |out| == 1 && IndentedBy(out[0], d, msg)
  {
    if IsDb(l, dbLevel) then PrintIndented(msg, d) else []
  }

  /** `DBF(l, fmt)`: print indented by the global `depth`, with the current
      file's name substituted into `fmt` by the (not modelled) printf. */
  function Dbf(l: Level, dbLevel: Level, depth: nat, fmt: string, fileName: string,
               format: (string, string) -> string): (out: seq<string>)
    ensures out == [] <==> !IsDb(l, dbLevel)
    ensures out != [] ==> |out| == 1 && IndentedBy(out[0], depth, format(fmt, fileName))
  {
    if IsDb(l, dbLevel) then PrintIndented(format(fmt, fileName), depth) else []
  }

  /** `DB(l, msg)`: print without indentation when `l` is traced. */
  function Db(l: Level, dbLevel: Level, msg: string): (out: seq<string>)
    ensures out == [] <==> !IsDb(l, dbLevel)
    ensures out != [] ==> out == [msg]
  {
    if IsDb(l, dbLevel) then [msg] else []
  }

  /** DBS is DBSD at the global depth, and DB is DBSD at depth zero. */
  lemma MacrosAgree(l: Level, dbLevel: Level, depth: nat, msg: string)
    ensures Dbs(l, dbLevel, depth, msg) == Dbsd(l, dbLevel, msg, depth)
    ensures Db(l, dbLevel, msg) == Dbsd(l, dbLevel, msg, 0)
  {
  }
}
