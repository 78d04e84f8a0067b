/**
 * The reference rewriter of src/Renamer.cc. Every visited node names at
 * most one declaration at one source range (a constructor names several);
 * the rewriter looks the declaration's canonical key up in d2name and, on a
 * hit, appends an edit replacing the range with the allocated name.
 */
module Renamer {
  import opened Common
  import opened Globals

  /** One lookup: the canonical key a node asks about (None: nothing to ask) and the token range. */
  datatype Occurrence = Occurrence(key: Option<DeclId>, range: Range)

  /** What a DeclRefExpr refers to; only the first five kinds are renamed. */
  datatype RefKind = FunctionRef | VarRef | FieldRef | TypeRef | EnumConstantRef | OtherRef

  /**
   * A member initializer: the initialized member's canonical decl and its
   * location. Only member initializers are represented; a base, delegating
   * or indirect-field initializer has no member, and src/Renamer.cc:31
   * dereferences that null member (undefined behaviour, not modelled).
   */
  datatype CtorInit = CtorInit(member: DeclId, loc: Range)

  /** The lookup of one member initializer (src/Renamer.cc:31-35). */
  function InitOccurrence(init: CtorInit): (o: Occurrence)
    ensures o.key == Some(init.member) && o.range == init.loc
  {
    Occurrence(Some(init.member), init.loc)
  }

  /**
   * The nodes the rewriter visits, with the clang facts it consults. Names
   * are the canonical declarations; ranges are token ranges. A member
   * initializer is not a node of its own: RecursiveASTVisitor has no Visit
   * hook for it, and VisitCXXCtorInitializer runs only from the constructor's
   * visitor (src/Renamer.cc:21-22).
   */
  datatype Node =
    | FunctionDeclNode(canon: DeclId, loc: Range)
    | ConstructorDeclNode(parentClass: DeclId, loc: Range, inits: seq<CtorInit>, params: seq<Occurrence>)
    | MemberExprNode(member: DeclId, memberLoc: Range, inMainFile: bool)
    | VarDeclNode(canon: DeclId, loc: Range)
    | DeclRefExprNode(kind: RefKind, canon: DeclId, range: Range)
    | FieldDeclNode(canon: DeclId, loc: Range)
    | TypeDeclNode(canon: DeclId, loc: Range)
    | TypeLocNode(tagDecl: Option<DeclId>, typedefDecl: Option<DeclId>, templateParm: Option<DeclId>, range: Range)
    | EnumConstantDeclNode(canon: DeclId, loc: Range)

  /**
   * The key VisitTypeLoc looks up (src/Renamer.cc:90-96): the tag view, then
   * the typedef view, then the template type parameter view, each later
   * match overriding an earlier one; None is the null pointer.
   */
  function TypeLocKey(tagDecl: Option<DeclId>, typedefDecl: Option<DeclId>, templateParm: Option<DeclId>): (k: Option<DeclId>)
    ensures templateParm.Some? ==> k == templateParm
    ensures templateParm.None? && typedefDecl.Some? ==> k == typedefDecl
    ensures templateParm.None? && typedefDecl.None? ==> k == tagDecl
  {
    var k0: Option<DeclId> := None;
    var k1 := if tagDecl.Some? then tagDecl else k0;
    var k2 := if typedefDecl.Some? then typedefDecl else k1;
    if templateParm.Some? then templateParm else k2
  }

  /**
   * The single lookup of every node except a constructor. A member
   * expression outside the main file (src/Renamer.cc:42) and a reference to
   * any other kind of declaration (src/Renamer.cc:63-66) ask nothing.
   */
  function SimpleOccurrence(n: Node): (o: Occurrence)
    requires !n.ConstructorDeclNode?
    ensures n.MemberExprNode? ==> (o.key.Some? <==> n.inMainFile)
    ensures n.DeclRefExprNode? ==> (o.key.Some? <==> n.kind != OtherRef)
    ensures n.TypeLocNode? ==> o.key == TypeLocKey(n.tagDecl, n.typedefDecl, n.templateParm)
  {
    match n
    case FunctionDeclNode(canon, loc) => Occurrence(Some(canon), loc)
    case MemberExprNode(member, memberLoc, inMainFile) =>
      Occurrence(if inMainFile then Some(member) else None, memberLoc)
    case VarDeclNode(canon, loc) => Occurrence(Some(canon), loc)
    case DeclRefExprNode(kind, canon, range) =>
      Occurrence(if kind == OtherRef then None else Some(canon), range)
    case FieldDeclNode(canon, loc) => Occurrence(Some(canon), loc)
    case TypeDeclNode(canon, loc) => Occurrence(Some(canon), loc)
    case TypeLocNode(tagDecl, typedefDecl, templateParm, range) =>
      Occurrence(TypeLocKey(tagDecl, typedefDecl, templateParm), range)
    case EnumConstantDeclNode(canon, loc) => Occurrence(Some(canon), loc)
  }

  /** `d2name.find(key) != d2name.end()`. */
  predicate Hit(d2name: map<DeclId, DeclMapData>, o: Occurrence)
  {
    o.key.Some? && o.key.value in d2name
  }

  /** The edit a lookup produces: one on a hit, none on a miss. */
  function Lookup(d2name: map<DeclId, DeclMapData>, o: Occurrence): (edits: seq<Edit>)
    ensures |edits| <= 1
    ensures |edits| == 1 <==> Hit(d2name, o)
    ensures Hit(d2name, o) ==> edits[0] == Edit(o.range, d2name[o.key.value].name)
  {
    if Hit(d2name, o) then [Edit(o.range, d2name[o.key.value].name)] else []
  }

  function LookupAll(d2name: map<DeclId, DeclMapData>, os: seq<Occurrence>): (edits: seq<Edit>)
    ensures |edits| <= |os|
    decreases |os|
  {
    if os == [] then [] else Lookup(d2name, os[0]) + LookupAll(d2name, os[1..])
  }

  /** The lookups of a constructor's member initializers (src/Renamer.cc:31-35). */
  function InitOccurrences(inits: seq<CtorInit>): (os: seq<Occurrence>)
    ensures |os| == |inits|
    decreases |inits|
  {
    if inits == [] then [] else [InitOccurrence(inits[0])] + InitOccurrences(inits[1..])
  }

  /**
   * Every lookup a node makes. A constructor asks first about its class
   * (src/Renamer.cc:16-17), then about its initializers and parameters.
   */
  function Occurrences(n: Node): seq<Occurrence>
  {
    if n.ConstructorDeclNode? then
      [Occurrence(Some(n.parentClass), n.loc)] + InitOccurrences(n.inits) + n.params
    else [SimpleOccurrence(n)]
  }

  /**
   * The edits one visit appends. A constructor's initializers and
   * parameters are rewritten only when its class is renamed
   * (src/Renamer.cc:18-25).
   */
  function NodeEdits(d2name: map<DeclId, DeclMapData>, n: Node): seq<Edit>
  {
    if n.ConstructorDeclNode? then
      var cls := Occurrence(Some(n.parentClass), n.loc);
      if Hit(d2name, cls) then
        Lookup(d2name, cls) + LookupAll(d2name, InitOccurrences(n.inits)) + LookupAll(d2name, n.params)
      else []
    else Lookup(d2name, SimpleOccurrence(n))
  }

  /** The edits of a whole traversal: every visit runs, none stops it. */
  function RenameAll(d2name: map<DeclId, DeclMapData>, nodes: seq<Node>): seq<Edit>
    decreases |nodes|
  {
    if nodes == [] then [] else NodeEdits(d2name, nodes[0]) + RenameAll(d2name, nodes[1..])
  }

  /** `e` replaces the range of a lookup in `os` that hits, with that record's name. */
  predicate FromHit(d2name: map<DeclId, DeclMapData>, os: seq<Occurrence>, e: Edit)
  {
    exists o :: o in os && Hit(d2name, o) && e == Edit(o.range, d2name[o.key.value].name)
  }

  lemma {:induction false} LookupAllFromHits(d2name: map<DeclId, DeclMapData>, os: seq<Occurrence>)
    ensures forall e :: e in LookupAll(d2name, os) ==> FromHit(d2name, os, e)
    decreases |os|
  {
    if os != [] {
      LookupAllFromHits(d2name, os[1..]);
      forall e | e in LookupAll(d2name, os)
        ensures FromHit(d2name, os, e)
      {
        if e in Lookup(d2name, os[0]) {
          assert os[0] in os;
        } else {
          var o :| o in os[1..] && Hit(d2name, o) && e == Edit(o.range, d2name[o.key.value].name);
          assert o in os;
        }
      }
    }
  }

  /** Every edit of a visit comes from one of the node's lookups, and that lookup hit. */
  lemma NodeEditsFromHits(d2name: map<DeclId, DeclMapData>, n: Node)
    ensures forall e :: e in NodeEdits(d2name, n) ==> FromHit(d2name, Occurrences(n), e)
  {
    if n.ConstructorDeclNode? {
      var cls := Occurrence(Some(n.parentClass), n.loc);
      var inits := InitOccurrences(n.inits);
      LookupAllFromHits(d2name, inits);
      LookupAllFromHits(d2name, n.params);
      forall e | e in NodeEdits(d2name, n)
        ensures FromHit(d2name, Occurrences(n), e)
      {
        var os := Occurrences(n);
        assert os == [cls] + inits + n.params;
        if e in Lookup(d2name, cls) {
          assert cls in os;
        } else if e in LookupAll(d2name, inits) {
          var o :| o in inits && Hit(d2name, o) && e == Edit(o.range, d2name[o.key.value].name);
          assert o in os;
        } else {
          var o :| o in n.params && Hit(d2name, o) && e == Edit(o.range, d2name[o.key.value].name);
          assert o in os;
        }
      }
    }
  }

  /**
   * A declaration visitor emits exactly one edit over its name token, with
   * the record's name, when the canonical decl is a key of d2name, and
   * nothing otherwise (src/Renamer.cc:3-9,53-59,74-87,103-109).
   */
  lemma DeclVisitorEdit(d2name: map<DeclId, DeclMapData>, n: Node)
    requires n.FunctionDeclNode? || n.VarDeclNode? || n.FieldDeclNode? || n.TypeDeclNode? || n.EnumConstantDeclNode?
    ensures n.canon in d2name ==> NodeEdits(d2name, n) == [Edit(n.loc, d2name[n.canon].name)]
    ensures n.canon !in d2name ==> NodeEdits(d2name, n) == []
  {
  }

  /** A constructor whose class has no record rewrites nothing, not even its initializers. */
  lemma ConstructorMiss(d2name: map<DeclId, DeclMapData>, n: Node)
    requires n.ConstructorDeclNode? && n.parentClass !in d2name
    ensures NodeEdits(d2name, n) == []
  {
  }

  /**
   * On a hit, a constructor renames itself first, then each initializer and
   * parameter whose key has a record.
   */
  lemma {:induction false} ConstructorHit(d2name: map<DeclId, DeclMapData>, n: Node)
    requires n.ConstructorDeclNode? && n.parentClass in d2name
    ensures NodeEdits(d2name, n)[0] == Edit(n.loc, d2name[n.parentClass].name)
    ensures |NodeEdits(d2name, n)| == 1 + Hits(d2name, InitOccurrences(n.inits)) + Hits(d2name, n.params)
  {
    LookupAllCount(d2name, InitOccurrences(n.inits));
    LookupAllCount(d2name, n.params);
  }

  lemma ConstructorEdits(d2name: map<DeclId, DeclMapData>, parentClass: DeclId, loc: Range, inits: seq<CtorInit>, params: seq<Occurrence>)
    requires parentClass in d2name
    ensures NodeEdits(d2name, ConstructorDeclNode(parentClass, loc, inits, params)) ==
      [Edit(loc, d2name[parentClass].name)] + LookupAll(d2name, InitOccurrences(inits)) + LookupAll(d2name, params)
  {
  }

  lemma RenameAllUnfold(d2name: map<DeclId, DeclMapData>, nodes: seq<Node>, i: nat)
    requires i < |nodes|
    ensures RenameAll(d2name, nodes[i..]) == NodeEdits(d2name, nodes[i]) + RenameAll(d2name, nodes[i + 1..])
  {
    assert nodes[i..][1..] == nodes[i + 1..];
  }

  /** One step of an append loop: the edits appended move from the rest to the list. */
  lemma AppendStep(before: seq<Edit>, step: seq<Edit>, rest: seq<Edit>, total: seq<Edit>)
    requires before + (step + rest) == total
    ensures (before + step) + rest == total
  {
  }

  /** One initializer's lookup, then the rest. */
  lemma InitsUnfold(d2name: map<DeclId, DeclMapData>, inits: seq<CtorInit>, i: nat)
    requires i < |inits|
    ensures LookupAll(d2name, InitOccurrences(inits[i..])) ==
      Lookup(d2name, InitOccurrence(inits[i])) + LookupAll(d2name, InitOccurrences(inits[i + 1..]))
  {
    assert inits[i..][1..] == inits[i + 1..];
  }

  /** One parameter's lookup, then the rest; a parameter without a key looks nothing up. */
  lemma ParamsUnfold(d2name: map<DeclId, DeclMapData>, params: seq<Occurrence>, j: nat)
    requires j < |params|
    ensures LookupAll(d2name, params[j..]) == Lookup(d2name, params[j]) + LookupAll(d2name, params[j + 1..])
    ensures params[j].key.Some? ==>
      Lookup(d2name, params[j]) == NodeEdits(d2name, VarDeclNode(params[j].key.value, params[j].range))
    ensures params[j].key.None? ==> Lookup(d2name, params[j]) == []
  {
    assert params[j..][1..] == params[j + 1..];
  }

  /** The number of lookups in `os` that hit. */
  function Hits(d2name: map<DeclId, DeclMapData>, os: seq<Occurrence>): nat
    decreases |os|
  {
    if os == [] then 0 else (if Hit(d2name, os[0]) then 1 else 0) + Hits(d2name, os[1..])
  }

  lemma {:induction false} LookupAllCount(d2name: map<DeclId, DeclMapData>, os: seq<Occurrence>)
    ensures |LookupAll(d2name, os)| == Hits(d2name, os)
    decreases |os|
  {
    if os != [] {
      LookupAllCount(d2name, os[1..]);
    }
  }

  /** A member expression outside the main file is left alone (src/Renamer.cc:42). */
  lemma MemberOutsideMainFile(d2name: map<DeclId, DeclMapData>, n: Node)
    requires n.MemberExprNode? && !n.inMainFile
    ensures NodeEdits(d2name, n) == []
  {
  }

  /** A reference to anything but a function, variable, field, type or enumerator is left alone. */
  lemma OtherReference(d2name: map<DeclId, DeclMapData>, n: Node)
    requires n.DeclRefExprNode? && n.kind == OtherRef
    ensures NodeEdits(d2name, n) == []
  {
  }

  /** All lookups of a traversal, in order. */
  function AllOccurrences(nodes: seq<Node>): seq<Occurrence>
    decreases |nodes|
  {
    if nodes == [] then [] else Occurrences(nodes[0]) + AllOccurrences(nodes[1..])
  }

  lemma {:induction false} RenameAllFromHits(d2name: map<DeclId, DeclMapData>, nodes: seq<Node>, e: Edit)
    requires e in RenameAll(d2name, nodes)
    ensures FromHit(d2name, AllOccurrences(nodes), e)
    decreases |nodes|
  {
    var all := AllOccurrences(nodes);
    if e in NodeEdits(d2name, nodes[0]) {
      NodeEditsFromHits(d2name, nodes[0]);
      var o :| o in Occurrences(nodes[0]) && Hit(d2name, o) && e == Edit(o.range, d2name[o.key.value].name);
      assert o in all;
    } else {
      RenameAllFromHits(d2name, nodes[1..], e);
      var o :| o in AllOccurrences(nodes[1..]) && Hit(d2name, o) && e == Edit(o.range, d2name[o.key.value].name);
      assert o in all;
    }
  }

  /**
   * The input condition under which the replacement set is consistent: any
   * two lookups of the traversal that hit are over disjoint ranges, or are
   * the same lookup (same range, same key). A lookup that misses may
   * overlap anything, as an ElaboratedTypeLoc without a tag view overlaps
   * the RecordTypeLoc inside it.
   */
  predicate ConsistentOccurrences(d2name: map<DeclId, DeclMapData>, nodes: seq<Node>)
  {
    var all := AllOccurrences(nodes);
    forall o1, o2 :: o1 in all && o2 in all && Hit(d2name, o1) && Hit(d2name, o2) ==>
      Disjoint(o1.range, o2.range) || o1 == o2
  }

  /**
   * Under consistent occurrences, no two different edits of the traversal
   * overlap, so every `reps.add` succeeds. Identical edits (a constructor
   * parameter that is also visited on its own) are not judged.
   */
  lemma RenameAllNonOverlapping(d2name: map<DeclId, DeclMapData>, nodes: seq<Node>)
    requires ConsistentOccurrences(d2name, nodes)
    ensures NonOverlapping(RenameAll(d2name, nodes))
  {
    var edits := RenameAll(d2name, nodes);
    var all := AllOccurrences(nodes);
    forall a, b | 0 <= a < |edits| && 0 <= b < |edits| && edits[a] != edits[b]
      ensures Disjoint(edits[a].range, edits[b].range)
    {
      RenameAllFromHits(d2name, nodes, edits[a]);
      RenameAllFromHits(d2name, nodes, edits[b]);
      var o1 :| o1 in all && Hit(d2name, o1) && edits[a] == Edit(o1.range, d2name[o1.key.value].name);
      var o2 :| o2 in all && Hit(d2name, o2) && edits[b] == Edit(o2.range, d2name[o2.key.value].name);
    }
  }

  /**
   * Every edit overwrites the range of a traversal lookup that hit, and its
   * text is the name stored in d2name for that lookup's key.
   */
  lemma RenameAllTexts(d2name: map<DeclId, DeclMapData>, nodes: seq<Node>, e: Edit)
    requires e in RenameAll(d2name, nodes)
    ensures exists o :: o in AllOccurrences(nodes) && o.key.Some? && o.key.value in d2name &&
                        e.range == o.range && e.text == d2name[o.key.value].name
  {
    RenameAllFromHits(d2name, nodes, e);
  }

  /**
   * `struct S x;` in C: the ElaboratedTypeLoc over `struct S` has no tag
   * view and misses, the RecordTypeLoc `S` at the same place hits. The
   * condition holds and the traversal makes the one edit.
   */
  lemma ElaboratedTypeConsistent(r: Range, tag: DeclId, d2name: map<DeclId, DeclMapData>)
    requires tag in d2name
    ensures ConsistentOccurrences(d2name, [TypeLocNode(None, None, None, r), TypeLocNode(Some(tag), None, None, r)])
    ensures RenameAll(d2name, [TypeLocNode(None, None, None, r), TypeLocNode(Some(tag), None, None, r)]) ==
      [Edit(r, d2name[tag].name)]
  {
    var nodes := [TypeLocNode(None, None, None, r), TypeLocNode(Some(tag), None, None, r)];
    var miss, hit := Occurrence(None, r), Occurrence(Some(tag), r);
    assert nodes[1..] == [nodes[1]] && nodes[1..][1..] == [];
    assert Occurrences(nodes[0]) == [miss] && Occurrences(nodes[1]) == [hit];
    assert AllOccurrences(nodes[1..]) == [hit];
    assert AllOccurrences(nodes) == [miss, hit];
    assert NodeEdits(d2name, nodes[0]) == [] && NodeEdits(d2name, nodes[1]) == [Edit(r, d2name[tag].name)];
    assert RenameAll(d2name, nodes[1..]) == [Edit(r, d2name[tag].name)];
  }

  /** The rewriter: the visitors append to the shared replacement list `reps`. */
  class Renamer {
    /** d2name as the allocation loop left it; the rewriter only reads it. */
    const d2name: map<DeclId, DeclMapData>
    var reps: seq<Edit>

    constructor(d2name: map<DeclId, DeclMapData>, reps: seq<Edit>)
      ensures this.d2name == d2name && this.reps == reps
    {
      this.d2name := d2name;
      this.reps := reps;
    }

    /** `replace` (src/Renamer.h:13-15): add one replacement. */
    method Replace(range: Range, text: string)
      modifies this
      ensures reps == old(reps) + [Edit(range, text)]
    {
      reps := reps + [Edit(range, text)];
    }

    /** The lookup every visitor shares: `d2name.find(key)`, then `replace` on a hit. */
    method LookupAndReplace(o: Occurrence)
      modifies this
      ensures reps == old(reps) + Lookup(d2name, o)
    {
      if o.key.Some? && o.key.value in d2name {
        Replace(o.range, d2name[o.key.value].name);
      }
    }

    method VisitFunctionDecl(canon: DeclId, loc: Range) returns (continue_: bool)
      modifies this
      ensures continue_ && reps == old(reps) + NodeEdits(d2name, FunctionDeclNode(canon, loc))
    {
      LookupAndReplace(Occurrence(Some(canon), loc));
      continue_ := true;
    }

    method VisitCXXCtorInitializer(init: CtorInit) returns (continue_: bool)
      modifies this
      ensures continue_ && reps == old(reps) + Lookup(d2name, InitOccurrence(init))
    {
      LookupAndReplace(InitOccurrence(init));
      continue_ := true;
    }

    method VisitVarDecl(canon: DeclId, loc: Range) returns (continue_: bool)
      modifies this
      ensures continue_ && reps == old(reps) + NodeEdits(d2name, VarDeclNode(canon, loc))
    {
      LookupAndReplace(Occurrence(Some(canon), loc));
      continue_ := true;
    }

    method VisitCXXConstructorDecl(parentClass: DeclId, loc: Range, inits: seq<CtorInit>, params: seq<Occurrence>)
      returns (continue_: bool)
      modifies this
      ensures continue_ && reps == old(reps) + NodeEdits(d2name, ConstructorDeclNode(parentClass, loc, inits, params))
    {
      continue_ := true;
      if parentClass in d2name {
        ConstructorEdits(d2name, parentClass, loc, inits, params);
        Replace(loc, d2name[parentClass].name);
        VisitInits(inits);
        VisitParams(params);
      } else {
        ConstructorMiss(d2name, ConstructorDeclNode(parentClass, loc, inits, params));
      }
    }

    /** `for (CXXCtorInitializer *cci : ccd->inits()) VisitCXXCtorInitializer(cci);` */
    method VisitInits(inits: seq<CtorInit>)
      modifies this
      ensures reps == old(reps) + LookupAll(d2name, InitOccurrences(inits))
    {
      ghost var start := reps;
      var i := 0;
      while i < |inits|
        invariant 0 <= i <= |inits|
        invariant reps + LookupAll(d2name, InitOccurrences(inits[i..])) ==
          start + LookupAll(d2name, InitOccurrences(inits))
      {
        InitsUnfold(d2name, inits, i);
        ghost var before := reps;
        var cont := VisitCXXCtorInitializer(inits[i]);
        AppendStep(before, Lookup(d2name, InitOccurrence(inits[i])),
          LookupAll(d2name, InitOccurrences(inits[i + 1..])), start + LookupAll(d2name, InitOccurrences(inits)));
        i := i + 1;
      }
    }

    /** `for (ParmVarDecl *param : ccd->parameters()) VisitVarDecl(param);` */
    method VisitParams(params: seq<Occurrence>)
      modifies this
      ensures reps == old(reps) + LookupAll(d2name, params)
    {
      ghost var start := reps;
      var j := 0;
      while j < |params|
        invariant 0 <= j <= |params|
        invariant reps + LookupAll(d2name, params[j..]) == start + LookupAll(d2name, params)
      {
        ParamsUnfold(d2name, params, j);
        ghost var before := reps;
        if params[j].key.Some? {
          var cont := VisitVarDecl(params[j].key.value, params[j].range);
        }
        AppendStep(before, Lookup(d2name, params[j]), LookupAll(d2name, params[j + 1..]),
          start + LookupAll(d2name, params));
        j := j + 1;
      }
    }

    method VisitMemberExpr(member: DeclId, memberLoc: Range, inMainFile: bool) returns (continue_: bool)
      modifies this
      ensures continue_ && reps == old(reps) + NodeEdits(d2name, MemberExprNode(member, memberLoc, inMainFile))
    {
      if inMainFile {
        LookupAndReplace(Occurrence(Some(member), memberLoc));
      }
      continue_ := true;
    }

    method VisitDeclRefExpr(kind: RefKind, canon: DeclId, range: Range) returns (continue_: bool)
      modifies this
      ensures continue_ && reps == old(reps) + NodeEdits(d2name, DeclRefExprNode(kind, canon, range))
    {
      continue_ := true;
      if kind == OtherRef {
        return;
      }
      LookupAndReplace(Occurrence(Some(canon), range));
    }

    method VisitFieldDecl(canon: DeclId, loc: Range) returns (continue_: bool)
      modifies this
      ensures continue_ && reps == old(reps) + NodeEdits(d2name, FieldDeclNode(canon, loc))
    {
      LookupAndReplace(Occurrence(Some(canon), loc));
      continue_ := true;
    }

    method VisitTypeDecl(canon: DeclId, loc: Range) returns (continue_: bool)
      modifies this
      ensures continue_ && reps == old(reps) + NodeEdits(d2name, TypeDeclNode(canon, loc))
    {
      LookupAndReplace(Occurrence(Some(canon), loc));
      continue_ := true;
    }

    method VisitTypeLoc(tagDecl: Option<DeclId>, typedefDecl: Option<DeclId>, templateParm: Option<DeclId>, range: Range)
      returns (continue_: bool)
      modifies this
      ensures continue_ && reps == old(reps) + NodeEdits(d2name, TypeLocNode(tagDecl, typedefDecl, templateParm, range))
    {
      var td: Option<DeclId> := None;
      if tagDecl.Some? {
        td := tagDecl;
      }
      if typedefDecl.Some? {
        td := typedefDecl;
      }
      if templateParm.Some? {
        td := templateParm;
      }
      LookupAndReplace(Occurrence(td, range));
      continue_ := true;
    }

    method VisitEnumConstantDecl(canon: DeclId, loc: Range) returns (continue_: bool)
      modifies this
      ensures continue_ && reps == old(reps) + NodeEdits(d2name, EnumConstantDeclNode(canon, loc))
    {
      LookupAndReplace(Occurrence(Some(canon), loc));
      continue_ := true;
    }

    /** The visitor RecursiveASTVisitor calls for one node. */
    method Dispatch(n: Node)
      modifies this
      ensures reps == old(reps) + NodeEdits(d2name, n)
    {
      var cont: bool;
      match n {
        case FunctionDeclNode(canon, loc) => cont := VisitFunctionDecl(canon, loc);
        case ConstructorDeclNode(parentClass, loc, inits, params) =>
          cont := VisitCXXConstructorDecl(parentClass, loc, inits, params);
        case MemberExprNode(member, memberLoc, inMainFile) => cont := VisitMemberExpr(member, memberLoc, inMainFile);
        case VarDeclNode(canon, loc) => cont := VisitVarDecl(canon, loc);
        case DeclRefExprNode(kind, canon, range) => cont := VisitDeclRefExpr(kind, canon, range);
        case FieldDeclNode(canon, loc) => cont := VisitFieldDecl(canon, loc);
        case TypeDeclNode(canon, loc) => cont := VisitTypeDecl(canon, loc);
        case TypeLocNode(tagDecl, typedefDecl, templateParm, range) =>
          cont := VisitTypeLoc(tagDecl, typedefDecl, templateParm, range);
        case EnumConstantDeclNode(canon, loc) => cont := VisitEnumConstantDecl(canon, loc);
      }
    }

    /** TraverseDecl: every node is visited, in traversal order. */
    method Traverse(nodes: seq<Node>)
      modifies this
      ensures reps == old(reps) + RenameAll(d2name, nodes)
    {
      ghost var start := reps;
      var i := 0;
      while i < |nodes|
        invariant 0 <= i <= |nodes|
        invariant reps + RenameAll(d2name, nodes[i..]) == start + RenameAll(d2name, nodes)
      {
        RenameAllUnfold(d2name, nodes, i);
        ghost var before := reps;
        Dispatch(nodes[i]);
        AppendStep(before, NodeEdits(d2name, nodes[i]), RenameAll(d2name, nodes[i + 1..]), start + RenameAll(d2name, nodes));
        i := i + 1;
      }
    }
  }
}
