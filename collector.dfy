/**
 * The symbol collector of src/Collector.cc. Each visitor is given as an
 * effect on the global tables (a function on `Tables` snapshots) and as a
 * method of the `Collector` class that performs the same updates in place.
 * The clang facts a visitor consults are plain fields of its input.
 */
module Collector {
  import opened Common
  import opened Globals
  import Allocator

  /**
   * What every visitor reads about a named declaration: its canonical
   * declaration, its spelling, whether it has an identifier (as opposed to
   * an operator or special name), and whether it is written in the main file.
   */
  datatype DeclInfo = DeclInfo(canon: DeclId, name: string, hasIdentifier: bool, inMainFile: bool)

  /** VarDecl::isThisDeclarationADefinition. */
  datatype DefinitionKind = DeclarationOnly | TentativeDefinition | Definition

  /**
   * The declaration context of a parameter (getParentFunctionOrMethod):
   * absent, something that is not a function, or a function with its body.
   */
  datatype ParamOwner = NoOwner | NonFunctionOwner | FunctionOwner(body: Option<BlockId>)

  /** isLocalVarDecl, a ParmVarDecl, or any other variable. */
  datatype VarScope = LocalVar | ParamVar(owner: ParamOwner) | OtherVar

  /** A VarDecl; `node` is its syntax node, whose parents getParent looks up. */
  datatype VarDecl = VarDecl(info: DeclInfo, node: NodeId, definition: DefinitionKind, scope: VarScope)

  datatype FunctionDecl = FunctionDecl(info: DeclInfo, isOverloadedOperator: bool, isDefined: bool, params: seq<VarDecl>)

  /** The visits of one traversal, in the order RecursiveASTVisitor makes them. */
  datatype Visit =
    | VisitFunction(fd: FunctionDecl)
    | VisitVar(vd: VarDecl)
    | VisitField(field: DeclInfo)
    | VisitType(td: DeclInfo)
    | VisitEnumConstant(ecd: DeclInfo)

  /** A variable that gets a record: named, a Definition, in the main file (src/Collector.cc:25-30). */
  predicate Recordable(vd: VarDecl)
  {
    vd.info.hasIdentifier && vd.definition == Definition && vd.info.inMainFile
  }

  /**
   * The source dereferences the parameter's context without a null check
   * (src/Collector.cc:72-73); a recorded parameter must have one.
   */
  predicate SafeVar(vd: VarDecl)
  {
    !(Recordable(vd) && vd.scope == ParamVar(NoOwner))
  }

  /**
   * The block a recorded variable is registered in (src/Collector.cc:51-81):
   * for a local, the CompoundStmt parenting its DeclStmt parent; for a
   * parameter of a function, the function's body; otherwise none.
   */
  function VarBlock(ctx: ParentMap, vd: VarDecl): (blk: Option<BlockId>)
    requires vd.scope != ParamVar(NoOwner)
    ensures vd.scope.LocalVar? && blk.Some? ==>
      exists ds :: GetParent(ctx, vd.node, DeclStmtNode) == Some(ds) &&
        GetParent(ctx, ds, CompoundStmtNode) == blk
    ensures vd.scope.LocalVar? && blk.None? ==>
      GetParent(ctx, vd.node, DeclStmtNode).None? ||
      GetParent(ctx, GetParent(ctx, vd.node, DeclStmtNode).value, CompoundStmtNode).None?
    ensures vd.scope == OtherVar || vd.scope == ParamVar(NonFunctionOwner) ==> blk.None?
    ensures vd.scope.ParamVar? && vd.scope.owner.FunctionOwner? ==> blk == vd.scope.owner.body
  {
    match vd.scope
    case LocalVar =>
      (match GetParent(ctx, vd.node, DeclStmtNode)
       case None => None
       case Some(ds) => GetParent(ctx, ds, CompoundStmtNode))
    case ParamVar(owner) => if owner.FunctionOwner? then owner.body else None
    case OtherVar => None
  }

  /** VisitVarDecl (src/Collector.cc:24-90). */
  function VarEffect(t: Tables, ctx: ParentMap, vd: VarDecl): (r: Tables)
    requires SafeVar(vd)
    ensures WellFormed(t) ==> WellFormed(r)
    ensures r.ignores == t.ignores
    ensures r.used == if vd.info.hasIdentifier then t.used + {vd.info.name} else t.used
    ensures r.d2name.Keys == t.d2name.Keys + (if Recordable(vd) then {vd.info.canon} else {})
    ensures forall e :: e in t.d2name && e != vd.info.canon ==> r.d2name[e] == t.d2name[e]
    ensures !Recordable(vd) ==> r.d2name == t.d2name
    ensures Recordable(vd) ==> r.d2name[vd.info.canon].category == VariableCat
    ensures forall b :: b in t.c2d ==> b in r.c2d && r.c2d[b].id == t.c2d[b].id
  {
    if !vd.info.hasIdentifier then t
    else
      var t1 := t.(used := t.used + {vd.info.name});
      assert WellFormed(t) ==> WellFormed(t1) by { UsedKeepsWellFormed(t, t1); }
      if vd.definition != Definition || !vd.info.inMainFile then t1
      else
        var blk := VarBlock(ctx, vd);
        var t2 := if blk.Some? then Pushed(t1, blk.value, vd.info.canon) else t1;
        assert blk.Some? ==> blk.value in t2.c2d;
        Recorded(t2, vd.info.canon, VariableCat, blk)
  }

  /** The spellings the parameters put in `used`. */
  function ParamNames(ps: seq<VarDecl>): set<string>
  {
    set p | p in ps && p.info.hasIdentifier :: p.info.name
  }

  /** The canonical declarations of the parameters that get a record. */
  function ParamKeys(ps: seq<VarDecl>): set<DeclId>
  {
    set p | p in ps && Recordable(p) :: p.info.canon
  }

  /** `for (ParmVarDecl *param : fd->parameters()) VisitVarDecl(param);` */
  function ParamsEffect(t: Tables, ctx: ParentMap, ps: seq<VarDecl>): (r: Tables)
    requires forall p :: p in ps ==> SafeVar(p)
    ensures WellFormed(t) ==> WellFormed(r)
    ensures r.ignores == t.ignores
    decreases |ps|
  {
    if ps == [] then t else ParamsEffect(VarEffect(t, ctx, ps[0]), ctx, ps[1..])
  }

  /** The parameters put exactly their own spellings in `used`. */
  lemma {:induction false} ParamsUsed(t: Tables, ctx: ParentMap, ps: seq<VarDecl>)
    requires forall p :: p in ps ==> SafeVar(p)
    ensures ParamsEffect(t, ctx, ps).used == t.used + ParamNames(ps)
    decreases |ps|
  {
    if ps != [] {
      ParamsUsed(VarEffect(t, ctx, ps[0]), ctx, ps[1..]);
      assert ps == [ps[0]] + ps[1..];
      assert ParamNames(ps) == (if ps[0].info.hasIdentifier then {ps[0].info.name} else {}) + ParamNames(ps[1..]);
    }
  }

  /**
   * The parameters add exactly the records of the recordable ones and
   * leave every other record as it was.
   */
  lemma {:induction false} ParamsRecords(t: Tables, ctx: ParentMap, ps: seq<VarDecl>)
    requires forall p :: p in ps ==> SafeVar(p)
    ensures var r := ParamsEffect(t, ctx, ps);
      r.d2name.Keys == t.d2name.Keys + ParamKeys(ps) &&
      forall e :: e in t.d2name && e !in ParamKeys(ps) ==> r.d2name[e] == t.d2name[e]
    decreases |ps|
  {
    if ps != [] {
      var t1 := VarEffect(t, ctx, ps[0]);
      ParamsRecords(t1, ctx, ps[1..]);
      RecordsCompose(t.d2name, t1.d2name, ParamsEffect(t1, ctx, ps[1..]).d2name, ps[0], ps[1..]);
      assert ps == [ps[0]] + ps[1..];
    }
  }

  /** The bookkeeping step of ParamsRecords: one parameter, then the rest. */
  lemma RecordsCompose(m0: map<DeclId, DeclMapData>, m1: map<DeclId, DeclMapData>, m2: map<DeclId, DeclMapData>,
                       p: VarDecl, rest: seq<VarDecl>)
    requires m1.Keys == m0.Keys + (if Recordable(p) then {p.info.canon} else {})
    requires forall e :: e in m0 && e != p.info.canon ==> m1[e] == m0[e]
    requires !Recordable(p) ==> m1 == m0
    requires m2.Keys == m1.Keys + ParamKeys(rest)
    requires forall e :: e in m1 && e !in ParamKeys(rest) ==> m2[e] == m1[e]
    ensures m2.Keys == m0.Keys + ParamKeys([p] + rest)
    ensures forall e :: e in m0 && e !in ParamKeys([p] + rest) ==> m2[e] == m0[e]
  {
    assert ParamKeys([p] + rest) == (if Recordable(p) then {p.info.canon} else {}) + ParamKeys(rest);
  }

  /** Every recordable parameter ends up with a record tagged as a variable. */
  lemma {:induction false} ParamsAreVariables(t: Tables, ctx: ParentMap, ps: seq<VarDecl>, p: VarDecl)
    requires forall q :: q in ps ==> SafeVar(q)
    requires p in ps && Recordable(p)
    ensures var r := ParamsEffect(t, ctx, ps);
      p.info.canon in r.d2name && r.d2name[p.info.canon].category == VariableCat
    decreases |ps|
  {
    var t1 := VarEffect(t, ctx, ps[0]);
    if p in ps[1..] {
      ParamsAreVariables(t1, ctx, ps[1..], p);
    } else {
      ParamsRecords(t1, ctx, ps[1..]);
      assert p.info.canon !in ParamKeys(ps[1..]) || exists q :: q in ps[1..] && Recordable(q) && q.info.canon == p.info.canon;
      if p.info.canon in ParamKeys(ps[1..]) {
        var q :| q in ps[1..] && Recordable(q) && q.info.canon == p.info.canon;
        ParamsAreVariables(t1, ctx, ps[1..], q);
      }
    }
  }

  /** No block counter changes while collecting. */
  lemma {:induction false} ParamsKeepCounters(t: Tables, ctx: ParentMap, ps: seq<VarDecl>)
    requires forall p :: p in ps ==> SafeVar(p)
    ensures var r := ParamsEffect(t, ctx, ps);
      forall b :: b in t.c2d ==> b in r.c2d && r.c2d[b].id == t.c2d[b].id
    decreases |ps|
  {
    if ps != [] {
      ParamsKeepCounters(VarEffect(t, ctx, ps[0]), ctx, ps[1..]);
    }
  }

  /** Whether VisitFunctionDecl gets past its early returns (src/Collector.cc:4-8). */
  predicate FunctionCounted(fd: FunctionDecl)
  {
    !fd.isOverloadedOperator && fd.info.hasIdentifier
  }

  /** A defined function written in the main file: its parameters are visited. */
  predicate FunctionInMain(fd: FunctionDecl)
  {
    FunctionCounted(fd) && fd.isDefined && fd.info.inMainFile
  }

  /** The function itself gets a record: it is also not named in `ignores`. */
  predicate FunctionRecordable(fd: FunctionDecl, ignores: seq<string>)
  {
    FunctionInMain(fd) && fd.info.name !in ignores
  }

  /** VisitFunctionDecl (src/Collector.cc:3-22). */
  function FunctionEffect(t: Tables, ctx: ParentMap, fd: FunctionDecl): (r: Tables)
    requires forall p :: p in fd.params ==> SafeVar(p)
    ensures WellFormed(t) ==> WellFormed(r)
    ensures r.ignores == t.ignores
    ensures !FunctionCounted(fd) ==> r == t
    ensures r.used == t.used +
      (if FunctionCounted(fd) then {fd.info.name} else {}) +
      (if FunctionInMain(fd) then ParamNames(fd.params) else {})
    ensures r.d2name.Keys == t.d2name.Keys +
      (if FunctionRecordable(fd, t.ignores) then {fd.info.canon} else {}) +
      (if FunctionInMain(fd) then ParamKeys(fd.params) else {})
    ensures forall b :: b in t.c2d ==> b in r.c2d && r.c2d[b].id == t.c2d[b].id
  {
    if !FunctionCounted(fd) then t
    else
      var t1 := t.(used := t.used + {fd.info.name});
      if !fd.isDefined || !fd.info.inMainFile then t1
      else
        var t2 := if fd.info.name in t.ignores then t1 else Recorded(t1, fd.info.canon, FunctionCat, None);
        ParamsUsed(t2, ctx, fd.params);
        ParamsRecords(t2, ctx, fd.params);
        ParamsKeepCounters(t2, ctx, fd.params);
        ParamsEffect(t2, ctx, fd.params)
  }

  /**
   * VisitFieldDecl, VisitTypeDecl and VisitEnumConstantDecl
   * (src/Collector.cc:92-129): the spelling goes into `used`, and a record of
   * the category is made when the declaration is in the main file.
   */
  function MainFileDeclEffect(t: Tables, info: DeclInfo, cat: Category): (r: Tables)
    ensures WellFormed(t) ==> WellFormed(r)
    ensures r.ignores == t.ignores && r.c2d == t.c2d
    ensures r.used == t.used + {info.name}
    ensures r.d2name.Keys == t.d2name.Keys + (if info.inMainFile then {info.canon} else {})
    ensures info.inMainFile ==> r.d2name[info.canon].category == cat
    ensures forall e :: e in t.d2name && e != info.canon ==> r.d2name[e] == t.d2name[e]
  {
    var t1 := t.(used := t.used + {info.name});
    if info.inMainFile then Recorded(t1, info.canon, cat, None) else t1
  }

  predicate SafeVisit(v: Visit)
  {
    match v
    case VisitFunction(fd) => forall p :: p in fd.params ==> SafeVar(p)
    case VisitVar(vd) => SafeVar(vd)
    case _ => true
  }

  function VisitEffect(t: Tables, ctx: ParentMap, v: Visit): (r: Tables)
    requires SafeVisit(v)
    ensures WellFormed(t) ==> WellFormed(r)
    ensures r.ignores == t.ignores && t.used <= r.used && t.d2name.Keys <= r.d2name.Keys
    ensures forall b :: b in t.c2d ==> b in r.c2d && r.c2d[b].id == t.c2d[b].id
  {
    match v
    case VisitFunction(fd) => FunctionEffect(t, ctx, fd)
    case VisitVar(vd) => VarEffect(t, ctx, vd)
    case VisitField(info) => MainFileDeclEffect(t, info, FieldCat)
    case VisitType(info) => MainFileDeclEffect(t, info, TypeCat)
    case VisitEnumConstant(info) => MainFileDeclEffect(t, info, EnumConstantCat)
  }

  /** `c.TraverseDecl(...)`: the visits applied in traversal order. */
  function CollectAll(t: Tables, ctx: ParentMap, visits: seq<Visit>): (r: Tables)
    requires forall v :: v in visits ==> SafeVisit(v)
    ensures WellFormed(t) ==> WellFormed(r)
    ensures r.ignores == t.ignores && t.used <= r.used && t.d2name.Keys <= r.d2name.Keys
    ensures forall b :: b in t.c2d ==> b in r.c2d && r.c2d[b].id == t.c2d[b].id
    decreases |visits|
  {
    if visits == [] then t else CollectAll(VisitEffect(t, ctx, visits[0]), ctx, visits[1..])
  }

  /**
   * A function is recorded by its visit exactly when it is named, not an
   * overloaded operator, defined, in the main file and not ignored; an
   * existing function record is kept. Parameters never carry the
   * function category, given that they are other declarations.
   */
  lemma FunctionRecordedIff(t: Tables, ctx: ParentMap, fd: FunctionDecl)
    requires forall p :: p in fd.params ==> SafeVar(p) && p.info.canon != fd.info.canon
    ensures var r := FunctionEffect(t, ctx, fd);
      (fd.info.canon in r.d2name && r.d2name[fd.info.canon].category == FunctionCat) <==>
      (FunctionRecordable(fd, t.ignores) ||
       (fd.info.canon in t.d2name && t.d2name[fd.info.canon].category == FunctionCat))
  {
    if FunctionInMain(fd) {
      var t1 := t.(used := t.used + {fd.info.name});
      var t2 := if fd.info.name in t.ignores then t1 else Recorded(t1, fd.info.canon, FunctionCat, None);
      ParamsRecords(t2, ctx, fd.params);
      assert fd.info.canon !in ParamKeys(fd.params);
    }
  }

  /**
   * The parameters of a defined main-file function are recorded as
   * variables even when the function itself is in `ignores`.
   */
  lemma IgnoredFunctionParamsRecorded(t: Tables, ctx: ParentMap, fd: FunctionDecl, p: VarDecl)
    requires forall q :: q in fd.params ==> SafeVar(q)
    requires FunctionInMain(fd) && fd.info.name in t.ignores
    requires p in fd.params && Recordable(p)
    ensures var r := FunctionEffect(t, ctx, fd);
      p.info.canon in r.d2name && r.d2name[p.info.canon].category == VariableCat &&
      (fd.info.canon !in t.d2name && fd.info.canon !in ParamKeys(fd.params) ==> fd.info.canon !in r.d2name)
  {
    var t1 := t.(used := t.used + {fd.info.name});
    ParamsAreVariables(t1, ctx, fd.params, p);
    ParamsRecords(t1, ctx, fd.params);
  }

  /**
   * A local whose DeclStmt is directly inside a CompoundStmt is registered
   * in that block and draws its name from the block's own counter.
   */
  lemma LocalInBlock(t: Tables, ctx: ParentMap, vd: VarDecl, ds: NodeId, cs: BlockId)
    requires vd.scope == LocalVar && Recordable(vd)
    requires GetParent(ctx, vd.node, DeclStmtNode) == Some(ds)
    requires GetParent(ctx, ds, CompoundStmtNode) == Some(cs)
    ensures var r := VarEffect(t, ctx, vd);
      vd.info.canon in r.c2d[cs].decls &&
      Allocator.PoolOf(r.d2name[vd.info.canon], r.c2d) == Allocator.BlockPool(cs)
  {
    var r := VarEffect(t, ctx, vd);
    assert r.c2d[cs].decls[|r.c2d[cs].decls| - 1] == vd.info.canon;
  }

  /**
   * A new local whose DeclStmt or CompoundStmt lookup fails still gets a
   * record, with no block, and so draws from the global variable counter.
   */
  lemma LocalWithoutBlockIsGlobal(t: Tables, ctx: ParentMap, vd: VarDecl)
    requires vd.scope == LocalVar && Recordable(vd) && vd.info.canon !in t.d2name
    requires GetParent(ctx, vd.node, DeclStmtNode).None? ||
      GetParent(ctx, GetParent(ctx, vd.node, DeclStmtNode).value, CompoundStmtNode).None?
    ensures var r := VarEffect(t, ctx, vd);
      vd.info.canon in r.d2name && r.d2name[vd.info.canon].block.None? &&
      Allocator.PoolOf(r.d2name[vd.info.canon], r.c2d) == Allocator.GlobalVarPool
  {
  }

  /**
   * A parameter of a function with a body is registered in the body's
   * block, the same block as a local declared directly in the body.
   */
  lemma ParamInBody(t: Tables, ctx: ParentMap, vd: VarDecl, body: BlockId)
    requires vd.scope == ParamVar(FunctionOwner(Some(body))) && Recordable(vd)
    ensures var r := VarEffect(t, ctx, vd);
      vd.info.canon in r.c2d[body].decls &&
      Allocator.PoolOf(r.d2name[vd.info.canon], r.c2d) == Allocator.BlockPool(body)
  {
    var r := VarEffect(t, ctx, vd);
    assert r.c2d[body].decls[|r.c2d[body].decls| - 1] == vd.info.canon;
  }

  /**
   * `spelling` gives the spelling of every declaration a visit may record:
   * named functions and variables by their identifier, fields, types and
   * enum constants by their name.
   */
  predicate SpellsInfo(spelling: map<DeclId, string>, info: DeclInfo)
  {
    info.canon in spelling && spelling[info.canon] == info.name
  }

  predicate SpellsVisit(spelling: map<DeclId, string>, v: Visit)
  {
    match v
    case VisitFunction(fd) =>
      (fd.info.hasIdentifier ==> SpellsInfo(spelling, fd.info)) &&
      forall p :: p in fd.params && p.info.hasIdentifier ==> SpellsInfo(spelling, p.info)
    case VisitVar(vd) => vd.info.hasIdentifier ==> SpellsInfo(spelling, vd.info)
    case VisitField(info) => SpellsInfo(spelling, info)
    case VisitType(info) => SpellsInfo(spelling, info)
    case VisitEnumConstant(info) => SpellsInfo(spelling, info)
  }

  /** Every recorded declaration's spelling is already in `used`. */
  ghost predicate SpellingsUsed(t: Tables, spelling: map<DeclId, string>)
  {
    forall d :: d in t.d2name ==> d in spelling && spelling[d] in t.used
  }

  /** One visit: whatever it records, it also put the spelling into `used`. */
  lemma VisitKeepsSpellings(t: Tables, ctx: ParentMap, v: Visit, spelling: map<DeclId, string>)
    requires SafeVisit(v) && SpellsVisit(spelling, v) && SpellingsUsed(t, spelling)
    ensures SpellingsUsed(VisitEffect(t, ctx, v), spelling)
  {
    var r := VisitEffect(t, ctx, v);
    forall d | d in r.d2name
      ensures d in spelling && spelling[d] in r.used
    {
      if d !in t.d2name && v.VisitFunction? {
        var fd := v.fd;
        if d != fd.info.canon || !FunctionRecordable(fd, t.ignores) {
          assert d in ParamKeys(fd.params);
          var p :| p in fd.params && Recordable(p) && p.info.canon == d;
          assert p.info.name in ParamNames(fd.params);
        }
      }
    }
  }

  /**
   * After the whole traversal every record's spelling is in `used`, as
   * long as it held before (it does for the empty tables).
   */
  lemma {:induction false} CollectKeepsSpellings(t: Tables, ctx: ParentMap, visits: seq<Visit>, spelling: map<DeclId, string>)
    requires forall v :: v in visits ==> SafeVisit(v) && SpellsVisit(spelling, v)
    requires SpellingsUsed(t, spelling)
    ensures SpellingsUsed(CollectAll(t, ctx, visits), spelling)
    decreases |visits|
  {
    if visits != [] {
      VisitKeepsSpellings(t, ctx, visits[0], spelling);
      CollectKeepsSpellings(VisitEffect(t, ctx, visits[0]), ctx, visits[1..], spelling);
    }
  }

  /** The visitors of src/Collector.cc over the shared tables. */
  class Collector {
    const tables: SymbolTables
    const ctx: ParentMap

    constructor(tables: SymbolTables, ctx: ParentMap)
      ensures this.tables == tables && this.ctx == ctx
    {
      this.tables := tables;
      this.ctx := ctx;
    }

    method VisitVarDecl(vd: VarDecl) returns (continue_: bool)
      requires SafeVar(vd)
      modifies tables
      ensures continue_
      ensures tables.Snapshot() == VarEffect(old(tables.Snapshot()), ctx, vd)
    {
      continue_ := true;
      if !vd.info.hasIdentifier {
        return;
      }
      tables.Insert(vd.info.name);
      if vd.definition != Definition || !vd.info.inMainFile {
        return;
      }
      var blk: Option<BlockId> := None;
      match vd.scope {
        case LocalVar =>
          var ds := GetParent(ctx, vd.node, DeclStmtNode);
          if ds.Some? {
            var cs := GetParent(ctx, ds.value, CompoundStmtNode);
            if cs.Some? {
              blk := cs;
              tables.PushDecl(cs.value, vd.info.canon);
            }
          }
        case ParamVar(owner) =>
          if owner.FunctionOwner? && owner.body.Some? {
            blk := owner.body;
            tables.PushDecl(owner.body.value, vd.info.canon);
          }
        case OtherVar =>
      }
      tables.Record(vd.info.canon, VariableCat, blk);
    }

    method VisitFunctionDecl(fd: FunctionDecl) returns (continue_: bool)
      requires forall p :: p in fd.params ==> SafeVar(p)
      modifies tables
      ensures continue_
      ensures tables.Snapshot() == FunctionEffect(old(tables.Snapshot()), ctx, fd)
    {
      continue_ := true;
      if fd.isOverloadedOperator || !fd.info.hasIdentifier {
        return;
      }
      tables.Insert(fd.info.name);
      if !fd.isDefined {
        return;
      }
      if fd.info.inMainFile {
        if fd.info.name !in tables.ignores {
          tables.Record(fd.info.canon, FunctionCat, None);
        }
        ghost var start := tables.Snapshot();
        var i := 0;
        while i < |fd.params|
          invariant 0 <= i <= |fd.params|
          invariant ParamsEffect(tables.Snapshot(), ctx, fd.params[i..]) == ParamsEffect(start, ctx, fd.params)
        {
          assert fd.params[i..][1..] == fd.params[i + 1..];
          var cont := VisitVarDecl(fd.params[i]);
          i := i + 1;
        }
      }
    }

    method VisitFieldDecl(info: DeclInfo) returns (continue_: bool)
      modifies tables
      ensures continue_
      ensures tables.Snapshot() == MainFileDeclEffect(old(tables.Snapshot()), info, FieldCat)
    {
      continue_ := VisitMainFileDecl(info, FieldCat);
    }

    method VisitTypeDecl(info: DeclInfo) returns (continue_: bool)
      modifies tables
      ensures continue_
      ensures tables.Snapshot() == MainFileDeclEffect(old(tables.Snapshot()), info, TypeCat)
    {
      continue_ := VisitMainFileDecl(info, TypeCat);
    }

    method VisitEnumConstantDecl(info: DeclInfo) returns (continue_: bool)
      modifies tables
      ensures continue_
      ensures tables.Snapshot() == MainFileDeclEffect(old(tables.Snapshot()), info, EnumConstantCat)
    {
      continue_ := VisitMainFileDecl(info, EnumConstantCat);
    }

    /** The body the three visitors above share. */
    method VisitMainFileDecl(info: DeclInfo, cat: Category) returns (continue_: bool)
      modifies tables
      ensures continue_
      ensures tables.Snapshot() == MainFileDeclEffect(old(tables.Snapshot()), info, cat)
    {
      continue_ := true;
      tables.Insert(info.name);
      if !info.inMainFile {
        return;
      }
      tables.Record(info.canon, cat, None);
    }

    /** The visitor RecursiveASTVisitor calls for one visit. */
    method Dispatch(v: Visit)
      requires SafeVisit(v)
      modifies tables
      ensures tables.Snapshot() == VisitEffect(old(tables.Snapshot()), ctx, v)
    {
      var cont: bool;
      match v {
        case VisitFunction(fd) => cont := VisitFunctionDecl(fd);
        case VisitVar(vd) => cont := VisitVarDecl(vd);
        case VisitField(info) => cont := VisitFieldDecl(info);
        case VisitType(info) => cont := VisitTypeDecl(info);
        case VisitEnumConstant(info) => cont := VisitEnumConstantDecl(info);
      }
    }

    /** TraverseDecl: each visit in turn. */
    method Traverse(visits: seq<Visit>)
      requires forall v :: v in visits ==> SafeVisit(v)
      modifies tables
      ensures tables.Snapshot() == CollectAll(old(tables.Snapshot()), ctx, visits)
    {
      ghost var start := tables.Snapshot();
      var i := 0;
      while i < |visits|
        invariant 0 <= i <= |visits|
        invariant CollectAll(tables.Snapshot(), ctx, visits[i..]) == CollectAll(start, ctx, visits)
      {
        assert visits[i..][1..] == visits[i + 1..];
        assert SafeVisit(visits[i]);
        Dispatch(visits[i]);
        i := i + 1;
      }
    }
  }
}
