/**
 * Shared records of the minifier: the per-declaration and per-block
 * entries the collector fills and the allocator updates, the parent
 * lookup over the syntax tree, and the text edits the rewriter emits.
 */
module Common {

  datatype Option<T> = None | Some(value: T)

  /** A value, or the process exiting with a status (`errx`, `exit`). */
  datatype Result<T> = Ok(value: T) | Exit(status: int)

  /** Identity of a canonical declaration (redeclarations share it). */
  type DeclId = nat

  /** Identity of a syntax node (a declaration or a statement). */
  type NodeId = nat

  /** A block is identified by its CompoundStmt node. */
  type BlockId = NodeId

  /**
   * The category a record is tagged with. The source stores the hash of the
   * static pointer type (FunctionDecl*, VarDecl*, ...); an enum says the same.
   */
  datatype Category = FunctionCat | VariableCat | FieldCat | TypeCat | EnumConstantCat

  /**
   * DeclMapData: the assigned name (empty until allocation), the category tag
   * and the enclosing block, which is None for everything but locals and
   * parameters (the null CompoundStmt pointer).
   */
  datatype DeclMapData = DeclMapData(name: string, category: Category, block: Option<BlockId>)

  /**
   * CompoundStmtMapData: the declarations registered in a block, in order
   * (duplicates kept), and the block's private allocation counter.
   */
  datatype CompoundStmtMapData = CompoundStmtMapData(decls: seq<DeclId>, id: nat)

  /** The node kinds getParent is asked about; everything else is OtherNode. */
  datatype NodeKind = DeclStmtNode | CompoundStmtNode | OtherNode

  /** A parent entry as the AST context returns it: the node's kind and identity. */
  datatype DynNode = DynNode(kind: NodeKind, id: NodeId)

  /** The AST context's parent relation: the direct parents of each node, in order. */
  type ParentMap = map<NodeId, seq<DynNode>>

  function DirectParents(ctx: ParentMap, n: NodeId): seq<DynNode>
  {
    if n in ctx then ctx[n] else []
  }

  /** First entry of `parents` of the requested kind. */
  function FirstOfKind(parents: seq<DynNode>, kind: NodeKind): (r: Option<NodeId>)
    ensures r.None? <==> forall i :: 0 <= i < |parents| ==> parents[i].kind != kind
    ensures r.Some? ==>
      exists i :: 0 <= i < |parents| && parents[i] == DynNode(kind, r.value) &&
        forall j :: 0 <= j < i ==> parents[j].kind != kind
  {
    if parents == [] then None
    else if parents[0].kind == kind then Some(parents[0].id)
    else
      var r := FirstOfKind(parents[1..], kind);
      assert forall i :: 1 <= i < |parents| ==> parents[i] == parents[1..][i - 1];
      r
  }

  /**
   * getParent: the first direct parent of `n` of the requested kind, in the
   * order the context lists them, or None. Only direct parents are examined.
   */
  function GetParent(ctx: ParentMap, n: NodeId, kind: NodeKind): (r: Option<NodeId>)
    ensures r.None? <==> forall p :: p in DirectParents(ctx, n) ==> p.kind != kind
    ensures r.Some? ==> DynNode(kind, r.value) in DirectParents(ctx, n)
  {
    FirstOfKind(DirectParents(ctx, n), kind)
  }

  /** When two direct parents both have the kind, the earlier one wins. */
  lemma {:induction false} GetParentFirstMatch(parents: seq<DynNode>, kind: NodeKind, i: nat)
    requires i < |parents| && parents[i].kind == kind
    requires forall j :: 0 <= j < i ==> parents[j].kind != kind
    ensures FirstOfKind(parents, kind) == Some(parents[i].id)
  {
    if i > 0 {
      GetParentFirstMatch(parents[1..], kind, i - 1);
    }
  }

  /** No element occurs twice (the key list of an insertion-ordered map). */
  predicate NoDup<T(==)>(s: seq<T>)
  {
    forall i, j :: 0 <= i < |s| && 0 <= j < |s| && i != j ==> s[i] != s[j]
  }

  /** Moving the head of `rest` to the end of `done` keeps the list. */
  lemma NoDupSplit<T>(done: seq<T>, rest: seq<T>)
    requires NoDup(done + rest) && rest != []
    ensures rest[0] !in done
    ensures done + rest == (done + [rest[0]]) + rest[1..]
  {
    forall i | 0 <= i < |done|
      ensures done[i] != rest[0]
    {
      assert (done + rest)[i] == done[i] && (done + rest)[|done|] == rest[0];
    }
  }

  /** A half-open byte range [begin, end) of the original buffer. */
  datatype Range = Range(begin: nat, end: nat)

  /** A replacement: the range to overwrite and the new text. */
  datatype Edit = Edit(range: Range, text: string)

  predicate Disjoint(a: Range, b: Range)
  {
    a.end <= b.begin || b.end <= a.begin
  }

  /**
   * The edit-set invariant: two different edits never overlap. An edit
   * listed twice is not judged either way.
   */
  predicate NonOverlapping(edits: seq<Edit>)
  {
    forall i, j :: 0 <= i < |edits| && 0 <= j < |edits| && edits[i] != edits[j] ==>
      Disjoint(edits[i].range, edits[j].range)
  }
}
