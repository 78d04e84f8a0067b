/**
 * The global tables of src/main.cc (declared extern in src/Collector.h):
 * `ignores`, `used`, the insertion-ordered map `d2name` and the map `c2d`.
 * A `Tables` value is a snapshot of them; `SymbolTables` holds them as
 * fields that the collector, the allocation loop and the driver update.
 */
module Globals {
  import opened Common

  /**
   * A snapshot of the globals. `order` is the insertion order of the
   * MapVector d2name, which the allocation loop iterates over.
   */
  datatype Tables = Tables(
    ignores: seq<string>,
    used: set<string>,
    d2name: map<DeclId, DeclMapData>,
    order: seq<DeclId>,
    c2d: map<BlockId, CompoundStmtMapData>)

  /**
   * The shape the collector keeps: `order` lists the keys of d2name, each
   * once, and a record's block is always a key of c2d.
   */
  ghost predicate WellFormed(t: Tables)
  {
    (forall d :: d in t.order <==> d in t.d2name) &&
    NoDup(t.order) &&
    (forall d :: d in t.d2name && t.d2name[d].block.Some? ==> t.d2name[d].block.value in t.c2d)
  }

  /** The globals before anything runs: all empty. */
  function Initial(): (t: Tables)
    ensures WellFormed(t)
  {
    Tables([], {}, map[], [], map[])
  }

  /** A record as `d2name[d]` default-constructs it: no name, no block. */
  function Existing(t: Tables, d: DeclId, cat: Category): DeclMapData
  {
    if d in t.d2name then t.d2name[d] else DeclMapData("", cat, None)
  }

  /** Adding spellings to `used` does not touch the records the invariant is about. */
  lemma UsedKeepsWellFormed(t: Tables, r: Tables)
    requires r == t.(used := r.used)
    ensures WellFormed(t) ==> WellFormed(r)
  {
  }

  /**
   * `d2name[d].c = blk` (when a block was found) followed by
   * `d2name[d].type_hash = ...`: the entry is created at the end of the
   * insertion order if missing and its name is left as it was.
   */
  function Recorded(t: Tables, d: DeclId, cat: Category, blk: Option<BlockId>): (r: Tables)
    requires blk.Some? ==> blk.value in t.c2d
    ensures WellFormed(t) ==> WellFormed(r)
    ensures r.d2name.Keys == t.d2name.Keys + {d}
    ensures r.order == if d in t.d2name then t.order else t.order + [d]
    ensures r.d2name[d].category == cat
    ensures r.d2name[d].name == (if d in t.d2name then t.d2name[d].name else "")
    ensures r.d2name[d].block == if blk.Some? then blk else Existing(t, d, cat).block
    ensures forall e :: e in t.d2name && e != d ==> r.d2name[e] == t.d2name[e]
    ensures r.used == t.used && r.c2d == t.c2d && r.ignores == t.ignores
  {
    var v := Existing(t, d, cat);
    var v' := v.(category := cat, block := if blk.Some? then blk else v.block);
    var order := if d in t.d2name then t.order else t.order + [d];
    var r := t.(d2name := t.d2name[d := v'], order := order);
    assert WellFormed(t) ==> NoDup(order) by {
      if WellFormed(t) && d !in t.d2name {
        assert forall i :: 0 <= i < |t.order| ==> t.order[i] in t.d2name;
      }
    }
    r
  }

  /** `c2d[b].d.push_back(d)`: the entry is created with counter 0 if missing. */
  function Pushed(t: Tables, b: BlockId, d: DeclId): (r: Tables)
    ensures WellFormed(t) ==> WellFormed(r)
    ensures r.c2d.Keys == t.c2d.Keys + {b}
    ensures r.c2d[b].decls == (if b in t.c2d then t.c2d[b].decls else []) + [d]
    ensures r.c2d[b].id == if b in t.c2d then t.c2d[b].id else 0
    ensures forall c :: c in t.c2d && c != b ==> r.c2d[c] == t.c2d[c]
    ensures r.used == t.used && r.d2name == t.d2name && r.order == t.order && r.ignores == t.ignores
  {
    var e := if b in t.c2d then t.c2d[b] else CompoundStmtMapData([], 0);
    t.(c2d := t.c2d[b := e.(decls := e.decls + [d])])
  }

  /** The globals as fields that the visitors and the driver update in place. */
  class SymbolTables {
    var ignores: seq<string>
    var used: set<string>
    var d2name: map<DeclId, DeclMapData>
    var order: seq<DeclId>
    var c2d: map<BlockId, CompoundStmtMapData>

    function Snapshot(): Tables
      reads this
    {
      Tables(ignores, used, d2name, order, c2d)
    }

    constructor()
      ensures Snapshot() == Initial()
    {
      ignores := [];
      used := {};
      d2name := map[];
      order := [];
      c2d := map[];
    }

    /** `used.insert(name)`. */
    method Insert(name: string)
      modifies this
      ensures Snapshot() == old(Snapshot()).(used := old(used) + {name})
    {
      used := used + {name};
    }

    /** `ignores.push_back(name)`. */
    method AddIgnore(name: string)
      modifies this
      ensures Snapshot() == old(Snapshot()).(ignores := old(ignores) + [name])
    {
      ignores := ignores + [name];
    }

    method Record(d: DeclId, cat: Category, blk: Option<BlockId>)
      requires blk.Some? ==> blk.value in c2d
      modifies this
      ensures Snapshot() == Recorded(old(Snapshot()), d, cat, blk)
    {
      var v := if d in d2name then d2name[d] else DeclMapData("", cat, None);
      if d !in d2name {
        order := order + [d];
      }
      d2name := d2name[d := v.(category := cat, block := if blk.Some? then blk else v.block)];
    }

    method PushDecl(b: BlockId, d: DeclId)
      modifies this
      ensures Snapshot() == Pushed(old(Snapshot()), b, d)
    {
      var e := if b in c2d then c2d[b] else CompoundStmtMapData([], 0);
      c2d := c2d[b := e.(decls := e.decls + [d])];
    }

    /** `v.name = ...` on an existing record. */
    method SetName(d: DeclId, name: string)
      requires d in d2name
      modifies this
      ensures Snapshot() == old(Snapshot()).(d2name := old(d2name)[d := old(d2name)[d].(name := name)])
    {
      d2name := d2name[d := d2name[d].(name := name)];
    }

    /** A block counter written back through `int &id`. */
    method SetBlockCounter(b: BlockId, n: nat)
      requires b in c2d
      modifies this
      ensures Snapshot() == old(Snapshot()).(c2d := old(c2d)[b := old(c2d)[b].(id := n)])
    {
      c2d := c2d[b := c2d[b].(id := n)];
    }
  }
}
