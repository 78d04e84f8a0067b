/**
 * The driver of src/main.cc: the command line, the consumer that reserves
 * the Bessel function names, runs the collector, allocates the short names
 * and runs the rewriter, and the whole pipeline from the arguments to the
 * post-processed text. The compiler front end (parsing, the reformatter,
 * applying replacements) is library code; what it produces enters as
 * parameters.
 */
module Driver {
  import opened Common
  import opened Names
  import opened Allocator
  import opened Globals
  import Collector
  import Renamer
  import PostProcess

  // ---------------------------------------------------------------------
  // The command line (src/main.cc:152-185)
  // ---------------------------------------------------------------------

  /**
   * What the argument loop fills in: the compiler arguments, the `-i`
   * flag, the `-o` file and the `-f` names (the global `ignores`).
   */
  datatype Options = Options(args: seq<string>, inplace: bool, outfile: string, ignores: seq<string>)

  /** The compiler arguments every run starts with, after the program name. */
  const ClangArgs: seq<string> := ["-fsyntax-only", "-I/usr/lib/clang/18/include"]

  function InitialOptions(program: string): Options
  {
    Options([program] + ClangArgs, false, "/dev/stdout", [])
  }

  /**
   * The loop reads `opt[0]` of every argument it examines as an option and
   * the source does not guard against an empty one: every examined
   * argument must be nonempty. The argument of `-f` or `-o` is not examined.
   */
  predicate ArgsDefined(argv: seq<string>, i: nat)
    decreases |argv| - i
  {
    i >= |argv| ||
    (argv[i] != [] &&
     if argv[i][0] != '-' || argv[i] == "-i" then ArgsDefined(argv, i + 1)
     else if (argv[i] == "-f" || argv[i] == "-o") && i + 1 < |argv| then ArgsDefined(argv, i + 2)
     else true)
  }

  /** The argument loop from position `i` (src/main.cc:161-178). */
  function ParseFrom(argv: seq<string>, i: nat, o: Options): Result<Options>
    requires ArgsDefined(argv, i)
    decreases |argv| - i
  {
    if i >= |argv| then Ok(o)
    else
      var opt := argv[i];
      if opt[0] != '-' then ParseFrom(argv, i + 1, o.(args := o.args + [opt]))
      else if opt == "-h" then Exit(0)
      else if opt == "-i" then ParseFrom(argv, i + 1, o.(inplace := true))
      else if opt == "-f" && i + 1 < |argv| then ParseFrom(argv, i + 2, o.(ignores := o.ignores + [argv[i + 1]]))
      else if opt == "-o" && i + 1 < |argv| then ParseFrom(argv, i + 2, o.(outfile := argv[i + 1]))
      else Exit(1)
  }

  /**
   * The command line as `main` handles it: the loop, then the usage error
   * for a missing argument, then "main" appended to `ignores`.
   */
  function ParseArgs(argv: seq<string>): Result<Options>
    requires |argv| >= 1 && ArgsDefined(argv, 1)
  {
    match ParseFrom(argv, 1, InitialOptions(argv[0]))
    case Exit(st) => Exit(st)
    case Ok(o) => if |argv| < 2 then Exit(1) else Ok(o.(ignores := o.ignores + ["main"]))
  }

  /** An examined option the loop rejects with the usage message. */
  predicate BadOption(argv: seq<string>, j: nat)
    requires j < |argv|
  {
    argv[j] != [] && argv[j][0] == '-' && argv[j] != "-h" && argv[j] != "-i" &&
    !((argv[j] == "-f" || argv[j] == "-o") && j + 1 < |argv|)
  }

  /**
   * The loop exits with 0 only at a `-h` and with 1 only at a rejected
   * option; no other status is possible.
   */
  lemma {:induction false} ParseFromExits(argv: seq<string>, i: nat, o: Options)
    requires ArgsDefined(argv, i)
    ensures var r := ParseFrom(argv, i, o);
      r.Exit? ==>
        (r.status == 0 && exists j :: i <= j < |argv| && argv[j] == "-h") ||
        (r.status == 1 && exists j :: i <= j < |argv| && BadOption(argv, j))
    decreases |argv| - i
  {
    if i < |argv| {
      var opt := argv[i];
      if opt[0] != '-' {
        ParseFromExits(argv, i + 1, o.(args := o.args + [opt]));
      } else if opt == "-h" {
      } else if opt == "-i" {
        ParseFromExits(argv, i + 1, o.(inplace := true));
      } else if opt == "-f" && i + 1 < |argv| {
        ParseFromExits(argv, i + 2, o.(ignores := o.ignores + [argv[i + 1]]));
      } else if opt == "-o" && i + 1 < |argv| {
        ParseFromExits(argv, i + 2, o.(outfile := argv[i + 1]));
      } else {
        assert BadOption(argv, i);
      }
    }
  }

  /**
   * The statuses of the command line: 0 after `-h`, 1 for a rejected
   * option or a missing argument.
   */
  lemma ParseArgsExits(argv: seq<string>)
    requires |argv| >= 1 && ArgsDefined(argv, 1)
    ensures var r := ParseArgs(argv);
      r.Exit? ==>
        (r.status == 0 && exists j :: 1 <= j < |argv| && argv[j] == "-h") ||
        (r.status == 1 && (|argv| < 2 || exists j :: 1 <= j < |argv| && BadOption(argv, j)))
  {
    ParseFromExits(argv, 1, InitialOptions(argv[0]));
  }

  /**
   * What a successful loop adds to the compiler arguments: arguments that
   * do not start with '-', in order after the ones it started with.
   */
  lemma {:induction false} ParseFromArgs(argv: seq<string>, i: nat, o: Options)
    requires ArgsDefined(argv, i) && ParseFrom(argv, i, o).Ok?
    ensures var r := ParseFrom(argv, i, o).value;
      |o.args| <= |r.args| && r.args[..|o.args|] == o.args &&
      forall k :: |o.args| <= k < |r.args| ==>
        exists j :: i <= j < |argv| && argv[j] == r.args[k] && argv[j] != [] && argv[j][0] != '-'
    decreases |argv| - i
  {
    if i < |argv| {
      var opt := argv[i];
      var r := ParseFrom(argv, i, o).value;
      if opt[0] != '-' {
        var o' := o.(args := o.args + [opt]);
        ParseFromArgs(argv, i + 1, o');
        assert r.args[..|o'.args|][..|o.args|] == r.args[..|o.args|];
      } else if opt == "-i" {
        ParseFromArgs(argv, i + 1, o.(inplace := true));
      } else if opt == "-f" && i + 1 < |argv| {
        ParseFromArgs(argv, i + 2, o.(ignores := o.ignores + [argv[i + 1]]));
      } else if opt == "-o" && i + 1 < |argv| {
        ParseFromArgs(argv, i + 2, o.(outfile := argv[i + 1]));
      }
    }
  }

  /** A successful loop keeps the `ignores` it started with in front. */
  lemma {:induction false} ParseFromIgnores(argv: seq<string>, i: nat, o: Options)
    requires ArgsDefined(argv, i) && ParseFrom(argv, i, o).Ok?
    ensures var r := ParseFrom(argv, i, o).value;
      |o.ignores| <= |r.ignores| && r.ignores[..|o.ignores|] == o.ignores
    decreases |argv| - i
  {
    if i < |argv| {
      var opt := argv[i];
      var r := ParseFrom(argv, i, o).value;
      if opt[0] != '-' {
        ParseFromIgnores(argv, i + 1, o.(args := o.args + [opt]));
      } else if opt == "-i" {
        ParseFromIgnores(argv, i + 1, o.(inplace := true));
      } else if opt == "-f" && i + 1 < |argv| {
        var o' := o.(ignores := o.ignores + [argv[i + 1]]);
        ParseFromIgnores(argv, i + 2, o');
        assert r.ignores[..|o'.ignores|][..|o.ignores|] == r.ignores[..|o.ignores|];
      } else if opt == "-o" && i + 1 < |argv| {
        ParseFromIgnores(argv, i + 2, o.(outfile := argv[i + 1]));
      }
    }
  }

  /** Every name the loop adds to `ignores` is the argument of a `-f`. */
  lemma {:induction false} ParseFromIgnoreAt(argv: seq<string>, i: nat, o: Options, k: nat)
    requires ArgsDefined(argv, i) && ParseFrom(argv, i, o).Ok?
    requires |o.ignores| <= k < |ParseFrom(argv, i, o).value.ignores|
    ensures exists j :: i <= j && j + 1 < |argv| && argv[j] == "-f" && argv[j + 1] == ParseFrom(argv, i, o).value.ignores[k]
    decreases |argv| - i
  {
    var opt := argv[i];
    if opt[0] != '-' {
      ParseFromIgnoreAt(argv, i + 1, o.(args := o.args + [opt]), k);
    } else if opt == "-i" {
      ParseFromIgnoreAt(argv, i + 1, o.(inplace := true), k);
    } else if opt == "-f" && i + 1 < |argv| {
      var o' := o.(ignores := o.ignores + [argv[i + 1]]);
      if k > |o.ignores| {
        ParseFromIgnoreAt(argv, i + 2, o', k);
      } else {
        ParseFromIgnores(argv, i + 2, o');
        assert ParseFrom(argv, i, o).value.ignores[..|o'.ignores|][k] == argv[i + 1];
      }
    } else if opt == "-o" && i + 1 < |argv| {
      ParseFromIgnoreAt(argv, i + 2, o.(outfile := argv[i + 1]), k);
    }
  }

  /**
   * A successful command line names at least one file, keeps the program
   * name and the fixed compiler arguments in front, and ends its `ignores`
   * with "main".
   */
  lemma ParseArgsShape(argv: seq<string>, o: Options)
    requires |argv| >= 1 && ArgsDefined(argv, 1) && ParseArgs(argv) == Ok(o)
    ensures |argv| >= 2
    ensures |o.args| >= 3 && o.args[..3] == [argv[0]] + ClangArgs
    ensures |o.ignores| > 0 && o.ignores[|o.ignores| - 1] == "main"
  {
    var o0 := InitialOptions(argv[0]);
    ParseFromArgs(argv, 1, o0);
    var r := ParseFrom(argv, 1, o0).value;
    assert o == r.(ignores := r.ignores + ["main"]);
  }

  /** Every other entry of a successful command line's `ignores` is the word after a `-f`. */
  lemma ParseArgsIgnored(argv: seq<string>, o: Options, k: nat)
    requires |argv| >= 1 && ArgsDefined(argv, 1) && ParseArgs(argv) == Ok(o)
    requires k < |o.ignores| - 1
    ensures exists j :: 1 <= j && j + 1 < |argv| && argv[j] == "-f" && argv[j + 1] == o.ignores[k]
  {
    var o0 := InitialOptions(argv[0]);
    ParseFromIgnores(argv, 1, o0);
    var r := ParseFrom(argv, 1, o0).value;
    assert o.ignores == r.ignores + ["main"];
    assert o.ignores[k] == r.ignores[k];
    ParseFromIgnoreAt(argv, 1, o0, k);
  }

  /** `minic -f foo a.c -i`: one file, `foo` kept, edited in place. */
  lemma ParseExample()
    ensures ArgsDefined(["minic", "-f", "foo", "a.c", "-i"], 1)
    ensures ParseArgs(["minic", "-f", "foo", "a.c", "-i"]) ==
      Ok(Options(["minic"] + ClangArgs + ["a.c"], true, "/dev/stdout", ["foo", "main"]))
  {
    var argv := ["minic", "-f", "foo", "a.c", "-i"];
    assert argv[1] == "-f" && argv[3] == "a.c" && argv[4] == "-i";
    assert "-f"[0] == '-' && "-f" != "-h" && "-f" != "-i" && "a.c"[0] != '-' && "-i"[0] == '-';
    assert ArgsDefined(argv, 4) && ArgsDefined(argv, 3) && ArgsDefined(argv, 1);
    var o0 := InitialOptions("minic");
    var o1 := o0.(ignores := o0.ignores + [argv[2]]);
    assert o1.ignores == ["foo"];
    var o2 := o1.(args := o1.args + ["a.c"]);
    assert ParseFrom(argv, 4, o2) == Ok(o2.(inplace := true));
    assert o2.args == ["minic"] + ClangArgs + ["a.c"];
    assert ParseFrom(argv, 3, o1) == ParseFrom(argv, 4, o2);
    assert ParseFrom(argv, 1, o0) == ParseFrom(argv, 3, o1);
    var o3 := o2.(inplace := true);
    assert ParseArgs(argv) == Ok(o3.(ignores := o3.ignores + ["main"]));
    assert o3.ignores + ["main"] == ["foo", "main"];
  }

  /** The argument of `-f` is never read as an option, even when it is `-h`. */
  lemma ParseIgnoredHelp()
    ensures ArgsDefined(["minic", "-f", "-h", "a.c"], 1)
    ensures ParseArgs(["minic", "-f", "-h", "a.c"]) ==
      Ok(Options(["minic"] + ClangArgs + ["a.c"], false, "/dev/stdout", ["-h", "main"]))
  {
    var argv := ["minic", "-f", "-h", "a.c"];
    assert argv[1] == "-f" && argv[2] == "-h" && argv[3] == "a.c";
    assert "-f"[0] == '-' && "-f" != "-h" && "-f" != "-i" && "a.c"[0] != '-';
    assert ArgsDefined(argv, 3) && ArgsDefined(argv, 1);
    var o0 := InitialOptions("minic");
    var o1 := o0.(ignores := o0.ignores + [argv[2]]);
    assert o1.ignores == ["-h"];
    assert ParseFrom(argv, 3, o1) == Ok(o1.(args := o1.args + ["a.c"]));
    assert o1.args + ["a.c"] == ["minic"] + ClangArgs + ["a.c"];
    assert ParseFrom(argv, 1, o0) == ParseFrom(argv, 3, o1);
    var o2 := o1.(args := o1.args + ["a.c"]);
    assert ParseArgs(argv) == Ok(o2.(ignores := o2.ignores + ["main"]));
    assert o2.ignores + ["main"] == ["-h", "main"];
  }

  /** The usage errors: a dangling `-o`, an unknown option, no argument at all; and `-h` first. */
  lemma ParseUsageErrors()
    ensures ArgsDefined(["minic", "a.c", "-o"], 1) && ParseArgs(["minic", "a.c", "-o"]) == Exit(1)
    ensures ArgsDefined(["minic", "-x", "-h"], 1) && ParseArgs(["minic", "-x", "-h"]) == Exit(1)
    ensures ArgsDefined(["minic"], 1) && ParseArgs(["minic"]) == Exit(1)
    ensures ArgsDefined(["minic", "-h", "-x"], 1) && ParseArgs(["minic", "-h", "-x"]) == Exit(0)
  {
    var a1 := ["minic", "a.c", "-o"];
    assert a1[1] == "a.c" && a1[2] == "-o" && "a.c"[0] != '-' && "-o"[0] == '-';
    assert "-o" != "-h" && "-o" != "-i" && "-o" != "-f";
    assert ArgsDefined(a1, 2) && ArgsDefined(a1, 1);
    var o0 := InitialOptions("minic");
    assert ParseFrom(a1, 2, o0.(args := o0.args + ["a.c"])) == Exit(1);
    var a2 := ["minic", "-x", "-h"];
    assert a2[1] == "-x" && "-x"[0] == '-' && "-x" != "-h" && "-x" != "-i" && "-x" != "-f" && "-x" != "-o";
    var a3 := ["minic", "-h", "-x"];
    assert a3[1] == "-h" && "-h"[0] == '-';
  }

  /** The argument loop of `main`, over local variables as the source has them. */
  method ParseCommandLine(argv: seq<string>) returns (r: Result<Options>)
    requires |argv| >= 1 && ArgsDefined(argv, 1)
    ensures r == ParseArgs(argv)
  {
    var args := [argv[0]] + ClangArgs;
    var inplace := false;
    var outfile := "/dev/stdout";
    var ignores: seq<string> := [];
    var i := 1;
    while i < |argv|
      invariant 1 <= i <= |argv| && ArgsDefined(argv, i)
      invariant ParseFrom(argv, i, Options(args, inplace, outfile, ignores)) ==
        ParseFrom(argv, 1, InitialOptions(argv[0]))
      decreases |argv| - i
    {
      var opt := argv[i];
      if opt[0] != '-' {
        args := args + [opt];
      } else if opt == "-h" {
        return Exit(0);
      } else if opt == "-i" {
        inplace := true;
      } else if opt == "-f" && i + 1 < |argv| {
        i := i + 1;
        ignores := ignores + [argv[i]];
      } else if opt == "-o" && i + 1 < |argv| {
        i := i + 1;
        outfile := argv[i];
      } else {
        return Exit(1);
      }
      i := i + 1;
    }
    if |argv| < 2 {
      return Exit(1);
    }
    ignores := ignores + ["main"];
    r := Ok(Options(args, inplace, outfile, ignores));
  }

  // ---------------------------------------------------------------------
  // The reserved names (src/main.cc:73-79)
  // ---------------------------------------------------------------------

  /** The Bessel functions of <math.h>, which a renamed symbol must not shadow. */
  const BesselJ: seq<string> := ["j0", "j1", "jn", "j0f", "j1f", "jnf", "j0l", "j1l", "jnl"]
  const BesselY: seq<string> := ["y0", "y1", "yn", "y0f", "y1f", "ynf", "y0l", "y1l", "ynl"]

  function Elements(s: seq<string>): set<string>
  {
    set x | x in s
  }

  function ReservedNames(): set<string>
  {
    Elements(BesselJ) + Elements(BesselY)
  }

  /**
   * The reservation matters: `j1` is a name the function pool produces
   * and `y1` one that a block's pool produces.
   */
  lemma ReservedAreCandidates()
    ensures "j1" in ReservedNames() && "y1" in ReservedNames()
    ensures Candidate(FunctionAlphabet, 22) == "j1"
    ensures Candidate(LocalAlphabet, 16) == "y1"
  {
    assert BesselJ[1] == "j1" && BesselY[1] == "y1";
    assert Base62(1) == "1";
    assert Mul(1, |FunctionAlphabet|) == 13 && FunctionAlphabet[9] == 'j';
    CandidateAt(FunctionAlphabet, 22, 1, 9);
    assert Mul(1, |LocalAlphabet|) == 9 && LocalAlphabet[7] == 'y';
    CandidateAt(LocalAlphabet, 16, 1, 7);
  }

  // ---------------------------------------------------------------------
  // MiniASTConsumer (src/main.cc:48-120)
  // ---------------------------------------------------------------------

  class MiniASTConsumer {
    const tables: SymbolTables
    var nFn: nat
    var nVar: nat
    var nFld: nat
    var nType: nat
    var nEnumConst: nat

    function Counts(): Counters
      reads this
    {
      Counters(nFn, nVar, nFld, nType, nEnumConst)
    }

    /** What the allocation loop reads and writes. */
    function State(): AllocState
      reads this, tables
    {
      AllocState(tables.d2name, tables.c2d, Counts())
    }

    constructor(tables: SymbolTables)
      ensures this.tables == tables && Counts() == Counters(0, 0, 0, 0, 0)
    {
      this.tables := tables;
      nFn, nVar, nFld, nType, nEnumConst := 0, 0, 0, 0, 0;
    }

    /** Called once per top-level declaration group: reserves the Bessel names. */
    method HandleTopLevelDecl() returns (continue_: bool)
      modifies tables
      ensures continue_
      ensures tables.Snapshot() == old(tables.Snapshot()).(used := old(tables.used) + ReservedNames())
    {
      continue_ := true;
      for k := 0 to |BesselJ|
        invariant tables.Snapshot() == old(tables.Snapshot()).(used := old(tables.used) + Elements(BesselJ[..k]))
      {
        assert BesselJ[..k + 1] == BesselJ[..k] + [BesselJ[k]];
        tables.Insert(BesselJ[k]);
      }
      assert BesselJ[..|BesselJ|] == BesselJ;
      ghost var mid := tables.used;
      for k := 0 to |BesselY|
        invariant tables.Snapshot() == old(tables.Snapshot()).(used := mid + Elements(BesselY[..k]))
      {
        assert BesselY[..k + 1] == BesselY[..k] + [BesselY[k]];
        tables.Insert(BesselY[k]);
      }
      assert BesselY[..|BesselY|] == BesselY;
    }

    /** AllocateOne written out for the record's own pool. */
    static lemma AllocateOneIs(s: AllocState, d: DeclId, used: set<string>, vName: string, pool: Pool, g: Named)
      requires d in s.d2name && pool == PoolOf(s.d2name[d], s.c2d)
      requires g == GetNameSpec(vName, PoolAlphabet(pool), used, CounterOf(s, pool))
      ensures AllocateOne(s, d, used, vName) == WithCounter(s, pool, g.next).(d2name := s.d2name[d := s.d2name[d].(name := g.name)])
    {
    }

    /**
     * One iteration of the allocation loop (src/main.cc:84-104): getName on
     * the counter of the record's category, or of its block, written back.
     */
    method AllocateEntry(d: DeclId, vName: string)
      requires d in tables.d2name
      modifies this, tables
      ensures State() == AllocateOne(old(State()), d, old(tables.used), vName)
      ensures tables.used == old(tables.used) && tables.order == old(tables.order) &&
        tables.ignores == old(tables.ignores)
    {
      var v := tables.d2name[d];
      ghost var s := State();
      ghost var pool := PoolOf(v, tables.c2d);
      ghost var g := GetNameSpec(vName, PoolAlphabet(pool), tables.used, CounterOf(s, pool));
      AllocateOneIs(s, d, tables.used, vName, pool, g);
      var name := NameInPool(v, vName, pool, g);
      tables.SetName(d, name);
    }

    /**
     * The category dispatch of the allocation loop (src/main.cc:89-103):
     * getName with the alphabet and the counter of the record's pool; the
     * counter is written back and nothing else changes.
     */
    method NameInPool(v: DeclMapData, vName: string, ghost pool: Pool, ghost g: Named) returns (name: string)
      requires pool == PoolOf(v, tables.c2d)
      requires g == GetNameSpec(vName, PoolAlphabet(pool), tables.used, CounterOf(State(), pool))
      modifies this, tables
      ensures name == g.name && State() == WithCounter(old(State()), pool, g.next)
      ensures tables.used == old(tables.used) && tables.order == old(tables.order) &&
        tables.ignores == old(tables.ignores)
    {
      PoolAlphabets();
      var id: nat;
      match v.category {
        case FunctionCat =>
          assert pool == FunctionPool && CounterOf(State(), pool) == nFn;
          name, id := GetName(vName, FunctionAlphabet, tables.used, nFn);
        case VariableCat =>
          if v.block.Some? && v.block.value in tables.c2d {
            var b := v.block.value;
            assert pool == BlockPool(b) && CounterOf(State(), pool) == tables.c2d[b].id;
            name, id := GetName(vName, LocalAlphabet, tables.used, tables.c2d[b].id);
          } else {
            assert pool == GlobalVarPool && CounterOf(State(), pool) == nVar;
            name, id := GetName(vName, GlobalVarAlphabet, tables.used, nVar);
          }
        case FieldCat =>
          assert pool == FieldPool && CounterOf(State(), pool) == nFld;
          name, id := GetName(vName, FieldAlphabet, tables.used, nFld);
        case TypeCat =>
          assert pool == TypePool && CounterOf(State(), pool) == nType;
          name, id := GetName(vName, TypeAlphabet, tables.used, nType);
        case EnumConstantCat =>
          assert pool == EnumConstantPool && CounterOf(State(), pool) == nEnumConst;
          name, id := GetName(vName, EnumConstantAlphabet, tables.used, nEnumConst);
      }
      assert name == g.name && id == g.next;
      SetCounter(PoolOf(v, tables.c2d), id);
    }

    /**
     * The write through the `int &` counter getName is handed: the counter
     * of `pool` becomes `n` and nothing else changes.
     */
    method SetCounter(pool: Pool, n: nat)
      requires HasPool(State(), pool)
      modifies this, tables
      ensures State() == WithCounter(old(State()), pool, n)
      ensures tables.used == old(tables.used) && tables.order == old(tables.order) &&
        tables.ignores == old(tables.ignores)
    {
      match pool
      case FunctionPool => nFn := n;
      case GlobalVarPool => nVar := n;
      case BlockPool(b) => tables.SetBlockCounter(b, n);
      case FieldPool => nFld := n;
      case TypePool => nType := n;
      case EnumConstantPool => nEnumConst := n;
    }

    /**
     * The allocation loop over d2name in insertion order; `spelling` gives
     * each record's `getDeclName().getAsString()`.
     */
    method AssignNames(spelling: map<DeclId, string>)
      requires forall d :: d in tables.order ==> d in tables.d2name && d in spelling
      modifies this, tables
      ensures State() == AllocateAll(old(State()), old(tables.order), old(tables.used), spelling)
      ensures tables.used == old(tables.used) && tables.order == old(tables.order) &&
        tables.ignores == old(tables.ignores)
    {
      var order := tables.order;
      ghost var s0 := State();
      var i := 0;
      while i < |order|
        invariant 0 <= i <= |order|
        invariant tables.used == old(tables.used) && tables.order == order && tables.ignores == old(tables.ignores)
        invariant forall d :: d in order ==> d in tables.d2name && d in spelling
        invariant AllocateAll(State(), order[i..], tables.used, spelling) == AllocateAll(s0, order, tables.used, spelling)
      {
        var d := order[i];
        assert order[i..][1..] == order[i + 1..];
        AllocateEntry(d, spelling[d]);
        i := i + 1;
      }
    }

    /**
     * HandleTranslationUnit (src/main.cc:80-111): collect, allocate, and
     * return the replacements of the rewriter. Applying them to the buffer
     * is library code.
     */
    method HandleTranslationUnit(ctx: ParentMap, visits: seq<Collector.Visit>,
                                 spelling: map<DeclId, string>, nodes: seq<Renamer.Node>)
      returns (reps: seq<Edit>)
      requires forall v :: v in visits ==> Collector.SafeVisit(v)
      requires WellFormed(tables.Snapshot())
      requires forall d :: d in Collector.CollectAll(tables.Snapshot(), ctx, visits).d2name ==> d in spelling
      modifies this, tables
      ensures var t := Collector.CollectAll(old(tables.Snapshot()), ctx, visits);
        State() == AllocateAll(AllocState(t.d2name, t.c2d, old(Counts())), t.order, t.used, spelling) &&
        tables.used == t.used && tables.order == t.order && tables.ignores == t.ignores &&
        reps == Renamer.RenameAll(tables.d2name, nodes)
    {
      var c := new Collector.Collector(tables, ctx);
      c.Traverse(visits);
      AssignNames(spelling);
      var r := new Renamer.Renamer(tables.d2name, []);
      r.Traverse(nodes);
      reps := r.reps;
    }
  }

  // ---------------------------------------------------------------------
  // The whole run
  // ---------------------------------------------------------------------

  /**
   * The globals when HandleTranslationUnit starts: the `ignores` of the
   * command line and, once a top-level declaration group was seen, the
   * reserved names in `used`.
   */
  function StartTables(o: Options, groups: nat): (t: Tables)
    ensures WellFormed(t) && t.d2name == map[]
  {
    Initial().(ignores := o.ignores, used := if groups > 0 then ReservedNames() else {})
  }

  /** The records with their allocated names, from fresh counters. */
  function Allocated(t: Tables, spelling: map<DeclId, string>): AllocState
    requires WellFormed(t) && forall d :: d in t.d2name ==> d in spelling
  {
    AllocateAll(AllocState(t.d2name, t.c2d, Counters(0, 0, 0, 0, 0)), t.order, t.used, spelling)
  }

  /** What a successful run writes: the options, the rewriter's edits, the final text. */
  datatype Outcome = Outcome(options: Options, edits: seq<Edit>, code: string)

  /** The requirements of a run that gets past the command line. */
  predicate RunDefined(o: Options, groups: nat, ctx: ParentMap, visits: seq<Collector.Visit>,
                       spelling: map<DeclId, string>, formatted: string)
  {
    (forall v :: v in visits ==> Collector.SafeVisit(v)) &&
    (forall d :: d in Collector.CollectAll(StartTables(o, groups), ctx, visits).d2name ==> d in spelling) &&
    PostProcess.PostDefined(formatted)
  }

  /**
   * `main`: the command line, the consumer over the translation unit and
   * postProcess on `formatted`, the reformatter's output for the rewritten
   * buffer.
   */
  function MinifySpec(argv: seq<string>, groups: nat, ctx: ParentMap, visits: seq<Collector.Visit>,
                      spelling: map<DeclId, string>, nodes: seq<Renamer.Node>, formatted: string): Result<Outcome>
    requires |argv| >= 1 && ArgsDefined(argv, 1)
    requires ParseArgs(argv).Ok? ==> RunDefined(ParseArgs(argv).value, groups, ctx, visits, spelling, formatted)
  {
    match ParseArgs(argv)
    case Exit(st) => Exit(st)
    case Ok(o) =>
      var t := Collector.CollectAll(StartTables(o, groups), ctx, visits);
      var s := Allocated(t, spelling);
      match PostProcess.PostProcessSpec(formatted)
      case Exit(st) => Exit(st)
      case Ok(code) => Ok(Outcome(o, Renamer.RenameAll(s.d2name, nodes), code))
  }

  /**
   * The part of `main` between the command line and postProcess: the
   * globals receive the `-f` names and "main", clang calls
   * HandleTopLevelDecl once per declaration group and then
   * HandleTranslationUnit.
   */
  method RunConsumer(o: Options, groups: nat, ctx: ParentMap, visits: seq<Collector.Visit>,
                     spelling: map<DeclId, string>, nodes: seq<Renamer.Node>)
    returns (reps: seq<Edit>)
    requires forall v :: v in visits ==> Collector.SafeVisit(v)
    requires forall d :: d in Collector.CollectAll(StartTables(o, groups), ctx, visits).d2name ==> d in spelling
    ensures reps == Renamer.RenameAll(Allocated(Collector.CollectAll(StartTables(o, groups), ctx, visits), spelling).d2name, nodes)
  {
    var tables := new SymbolTables();
    for k := 0 to |o.ignores|
      invariant tables.Snapshot() == Initial().(ignores := o.ignores[..k])
    {
      assert o.ignores[..k + 1] == o.ignores[..k] + [o.ignores[k]];
      tables.AddIgnore(o.ignores[k]);
    }
    assert o.ignores[..|o.ignores|] == o.ignores;
    var consumer := new MiniASTConsumer(tables);
    for g := 0 to groups
      invariant tables.Snapshot() == StartTables(o, g)
      invariant consumer.tables == tables && consumer.Counts() == Counters(0, 0, 0, 0, 0)
    {
      var _ := consumer.HandleTopLevelDecl();
    }
    reps := consumer.HandleTranslationUnit(ctx, visits, spelling, nodes);
  }

  /** `main` over the modelled parts: the command line, the consumer, postProcess. */
  method Minify(argv: seq<string>, groups: nat, ctx: ParentMap, visits: seq<Collector.Visit>,
                spelling: map<DeclId, string>, nodes: seq<Renamer.Node>, formatted: string)
    returns (r: Result<Outcome>)
    requires |argv| >= 1 && ArgsDefined(argv, 1)
    requires ParseArgs(argv).Ok? ==> RunDefined(ParseArgs(argv).value, groups, ctx, visits, spelling, formatted)
    ensures r == MinifySpec(argv, groups, ctx, visits, spelling, nodes, formatted)
  {
    var opts := ParseCommandLine(argv);
    if opts.Exit? {
      return Exit(opts.status);
    }
    var o := opts.value;
    var reps := RunConsumer(o, groups, ctx, visits, spelling, nodes);
    var code := PostProcess.PostProcess(formatted);
    if code.Exit? {
      return Exit(code.status);
    }
    r := Ok(Outcome(o, reps, code.value));
  }

  /**
   * Every record the run allocates keeps its spelling or gets a strictly
   * shorter name outside `used` (no spelling of a visited function,
   * variable, field, type or enum constant, and no reserved name), and
   * that starts with a letter of its pool.
   */
  lemma RunNamesFreshOrKept(o: Options, groups: nat, ctx: ParentMap, visits: seq<Collector.Visit>,
                            spelling: map<DeclId, string>, d: DeclId)
    requires forall v :: v in visits ==> Collector.SafeVisit(v) && Collector.SpellsVisit(spelling, v)
    requires d in Collector.CollectAll(StartTables(o, groups), ctx, visits).d2name
    ensures var t := Collector.CollectAll(StartTables(o, groups), ctx, visits);
      Collector.SpellingsUsed(t, spelling) &&
      var s := Allocated(t, spelling);
      var name := s.d2name[d].name;
      name == spelling[d] ||
      (name !in t.used && 0 < |name| < |spelling[d]| && name[0] in PoolAlphabet(PoolOf(s.d2name[d], s.c2d)))
  {
    var t0 := StartTables(o, groups);
    Collector.CollectKeepsSpellings(t0, ctx, visits, spelling);
    var t := Collector.CollectAll(t0, ctx, visits);
    AllocationShortens(AllocState(t.d2name, t.c2d, Counters(0, 0, 0, 0, 0)), t.order, t.used, spelling, d);
  }

  /** Once a declaration group was seen, no record is renamed to a Bessel function name. */
  lemma RunAvoidsReserved(o: Options, groups: nat, ctx: ParentMap, visits: seq<Collector.Visit>,
                          spelling: map<DeclId, string>, d: DeclId)
    requires forall v :: v in visits ==> Collector.SafeVisit(v) && Collector.SpellsVisit(spelling, v)
    requires groups > 0
    requires d in Collector.CollectAll(StartTables(o, groups), ctx, visits).d2name
    ensures var t := Collector.CollectAll(StartTables(o, groups), ctx, visits);
      Collector.SpellingsUsed(t, spelling) &&
      var name := Allocated(t, spelling).d2name[d].name;
      name in ReservedNames() ==> name == spelling[d]
  {
    RunNamesFreshOrKept(o, groups, ctx, visits, spelling, d);
  }

  /**
   * Two records of a run share a name only when both kept their
   * spellings, or both were renamed from different pools whose alphabets
   * overlap.
   */
  lemma RunNamesDistinct(o: Options, groups: nat, ctx: ParentMap, visits: seq<Collector.Visit>,
                         spelling: map<DeclId, string>, d1: DeclId, d2: DeclId)
    requires forall v :: v in visits ==> Collector.SafeVisit(v) && Collector.SpellsVisit(spelling, v)
    requires var t := Collector.CollectAll(StartTables(o, groups), ctx, visits);
      d1 in t.d2name && d2 in t.d2name && d1 != d2
    ensures var t := Collector.CollectAll(StartTables(o, groups), ctx, visits);
      Collector.SpellingsUsed(t, spelling) &&
      var s := Allocated(t, spelling);
      s.d2name[d1].name == s.d2name[d2].name ==>
        (s.d2name[d1].name == spelling[d1] && s.d2name[d2].name == spelling[d2]) ||
        (PoolOf(s.d2name[d1], s.c2d) != PoolOf(s.d2name[d2], s.c2d) &&
         MayShare(PoolOf(s.d2name[d1], s.c2d), PoolOf(s.d2name[d2], s.c2d)))
  {
    var t0 := StartTables(o, groups);
    Collector.CollectKeepsSpellings(t0, ctx, visits, spelling);
    var t := Collector.CollectAll(t0, ctx, visits);
    AllocationDistinct(AllocState(t.d2name, t.c2d, Counters(0, 0, 0, 0, 0)), t.order, t.used, spelling, d1, d2);
  }
}
