/**
 * Name allocation of src/main.cc: getName and the allocation loop of
 * HandleTranslationUnit, as specification functions. The imperative
 * versions (the for(;;) loop of getName here, the loop over d2name in the
 * Driver module) are proved equal to them.
 */
module Allocator {
  import opened Common
  import opened Names

  // The category alphabets of HandleTranslationUnit (src/main.cc:89-103).
  const FunctionAlphabet: string := "abcdefghijklm"
  const LocalAlphabet: string := "rstuvwxyz"
  const GlobalVarAlphabet: string := "nopq"
  const FieldAlphabet: string := "nopqrstuvwxyz"
  const TypeAlphabet: string := "ABCDEFGHIJKLM"
  const EnumConstantAlphabet: string := "NOPQRSTUVWXYZ"

  lemma AlphabetsAreRanges()
    ensures FunctionAlphabet == Letters('a', 13)
    ensures LocalAlphabet == Letters('r', 9)
    ensures GlobalVarAlphabet == Letters('n', 4)
    ensures FieldAlphabet == Letters('n', 13)
    ensures TypeAlphabet == Letters('A', 13)
    ensures EnumConstantAlphabet == Letters('N', 13)
  {
  }

  /** The counter values whose candidate in alphabet `p` is already in `used`. */
  function TakenIds(p: string, used: set<string>): set<nat>
    requires |p| > 0
  {
    set s | s in used && Decode(p, s).Some? :: Decode(p, s).value
  }

  /** A counter value is taken exactly when its candidate is in `used`. */
  lemma TakenIdsExact(p: string, used: set<string>, i: nat)
    requires Alphabet(p)
    ensures i in TakenIds(p, used) <==> Candidate(p, i) in used
  {
    DecodeCandidate(p, i);
    if i in TakenIds(p, used) {
      var s :| s in used && Decode(p, s) == Some(i);
      CandidateDecode(p, s);
    }
  }

  /** The taken values from `id` on; it shrinks whenever `id` itself is taken. */
  function TakenFrom(taken: set<nat>, id: nat): set<nat>
  {
    set x | x in taken && x >= id
  }

  lemma TakenFromShrinks(taken: set<nat>, id: nat)
    requires id in taken
    ensures |TakenFrom(taken, id + 1)| < |TakenFrom(taken, id)|
  {
    assert TakenFrom(taken, id) == TakenFrom(taken, id + 1) + {id};
  }

  /** The first counter value from `id` on whose candidate is not in `used`. */
  function FirstUnused(p: string, used: set<string>, id: nat): (j: nat)
    requires Alphabet(p)
    ensures id <= j && Candidate(p, j) !in used
    ensures forall i :: id <= i < j ==> Candidate(p, i) in used
    decreases |TakenFrom(TakenIds(p, used), id)|
  {
    if Candidate(p, id) !in used then id
    else
      TakenShrinks(p, used, id);
      var j := FirstUnused(p, used, id + 1);
      SkippedTaken(p, used, id, j);
      j
  }

  /** A taken candidate at `id` makes the taken values from `id + 1` on fewer. */
  lemma TakenShrinks(p: string, used: set<string>, id: nat)
    requires Alphabet(p) && Candidate(p, id) in used
    ensures |TakenFrom(TakenIds(p, used), id + 1)| < |TakenFrom(TakenIds(p, used), id)|
  {
    TakenIdsExact(p, used, id);
    TakenFromShrinks(TakenIds(p, used), id);
  }

  lemma SkippedTaken(p: string, used: set<string>, id: nat, j: nat)
    requires Alphabet(p) && Candidate(p, id) in used
    requires forall i :: id + 1 <= i < j ==> Candidate(p, i) in used
    ensures forall i :: id <= i < j ==> Candidate(p, i) in used
  {
  }

  /** What getName returns: the name and the new value of the by-reference counter. */
  datatype Named = Named(name: string, next: nat)

  /**
   * getName (src/main.cc:53-72): skip the counter values whose candidate is
   * taken, then keep the first free candidate only if it is strictly shorter
   * than the original spelling; otherwise keep the spelling and roll the
   * counter back.
   */
  function GetNameSpec(origName: string, p: string, used: set<string>, id: nat): (r: Named)
    requires Alphabet(p)
    ensures r == Named(origName, id) ||
      (|r.name| < |origName| && r.name !in used && id < r.next &&
       r.name == Candidate(p, r.next - 1) && Decode(p, r.name) == Some(r.next - 1))
  {
    var j := FirstUnused(p, used, id);
    var c := Candidate(p, j);
    DecodeCandidate(p, j);
    if |c| >= |origName| then Named(origName, id) else Named(c, j + 1)
  }

  /** A new name is the first free candidate: every counter value skipped was taken. */
  lemma GetNameSkipsTaken(origName: string, p: string, used: set<string>, id: nat, i: nat)
    requires Alphabet(p) && id <= i && i + 1 < GetNameSpec(origName, p, used, id).next
    ensures Candidate(p, i) in used
  {
  }

  /**
   * The spelling is kept only when the first free candidate is not shorter
   * than it, and then the counter is unchanged.
   */
  lemma GetNameKeeps(origName: string, p: string, used: set<string>, id: nat)
    requires Alphabet(p)
    ensures GetNameSpec(origName, p, used, id).next == id <==>
      |Candidate(p, FirstUnused(p, used, id))| >= |origName|
    ensures GetNameSpec(origName, p, used, id).next == id ==>
      GetNameSpec(origName, p, used, id).name == origName
  {
  }

  /** A spelling of at most one byte is never renamed. */
  lemma GetNameKeepsShortSpelling(origName: string, p: string, used: set<string>, id: nat)
    requires Alphabet(p) && |origName| <= 1
    ensures GetNameSpec(origName, p, used, id) == Named(origName, id)
  {
  }

  /** getName as the source writes it: a for(;;) loop over the by-reference counter. */
  method GetName(origName: string, prefix: string, used: set<string>, id: nat)
    returns (newName: string, newId: nat)
    requires Alphabet(prefix)
    ensures Named(newName, newId) == GetNameSpec(origName, prefix, used, id)
    ensures (newName == origName && newId == id) ||
      (|newName| < |origName| && newName !in used && newId > id && newName[0] in prefix)
  {
    var oldN := id;
    newId := id;
    while true
      invariant oldN <= newId <= FirstUnused(prefix, used, oldN)
      invariant FirstUnused(prefix, used, newId) == FirstUnused(prefix, used, oldN)
      decreases FirstUnused(prefix, used, oldN) - newId
    {
      newName := CandidateOf(prefix, newId);
      newId := newId + 1;
      if newName !in used {
        break;
      }
    }
    if |newName| >= |origName| {
      newName := origName;
      newId := oldN;
    }
  }

  /**
   * The counter a record draws from in the allocation loop of
   * HandleTranslationUnit (src/main.cc:83-108): one per category, except
   * that a variable whose block is in c2d draws from that block's own counter.
   */
  datatype Pool = FunctionPool | GlobalVarPool | BlockPool(block: BlockId) | FieldPool | TypePool | EnumConstantPool

  function PoolOf(v: DeclMapData, c2d: map<BlockId, CompoundStmtMapData>): (pool: Pool)
    ensures pool.BlockPool? ==> pool.block in c2d && v.block == Some(pool.block)
  {
    match v.category
    case FunctionCat => FunctionPool
    case VariableCat =>
      if v.block.Some? && v.block.value in c2d then BlockPool(v.block.value) else GlobalVarPool
    case FieldCat => FieldPool
    case TypeCat => TypePool
    case EnumConstantCat => EnumConstantPool
  }

  function PoolAlphabet(pool: Pool): (p: string)
    ensures Alphabet(p)
  {
    AlphabetsAreRanges();
    match pool
    case FunctionPool => FunctionAlphabet
    case GlobalVarPool => GlobalVarAlphabet
    case BlockPool(_) => LocalAlphabet
    case FieldPool => FieldAlphabet
    case TypePool => TypeAlphabet
    case EnumConstantPool => EnumConstantAlphabet
  }

  lemma PoolAlphabets()
    ensures PoolAlphabet(FunctionPool) == FunctionAlphabet
    ensures PoolAlphabet(GlobalVarPool) == GlobalVarAlphabet
    ensures forall b :: PoolAlphabet(BlockPool(b)) == LocalAlphabet
    ensures PoolAlphabet(FieldPool) == FieldAlphabet
    ensures PoolAlphabet(TypePool) == TypeAlphabet
    ensures PoolAlphabet(EnumConstantPool) == EnumConstantAlphabet
  {
  }

  /** The counters of MiniASTConsumer (src/main.cc:50). */
  datatype Counters = Counters(nFn: nat, nVar: nat, nFld: nat, nType: nat, nEnumConst: nat)

  /** What the allocation loop reads and writes: d2name, c2d and the counters. */
  datatype AllocState = AllocState(
    d2name: map<DeclId, DeclMapData>,
    c2d: map<BlockId, CompoundStmtMapData>,
    counters: Counters)

  predicate HasPool(s: AllocState, pool: Pool)
  {
    pool.BlockPool? ==> pool.block in s.c2d
  }

  function CounterOf(s: AllocState, pool: Pool): nat
    requires HasPool(s, pool)
  {
    match pool
    case FunctionPool => s.counters.nFn
    case GlobalVarPool => s.counters.nVar
    case BlockPool(b) => s.c2d[b].id
    case FieldPool => s.counters.nFld
    case TypePool => s.counters.nType
    case EnumConstantPool => s.counters.nEnumConst
  }

  function WithCounter(s: AllocState, pool: Pool, n: nat): (r: AllocState)
    requires HasPool(s, pool)
    ensures r.d2name == s.d2name && r.c2d.Keys == s.c2d.Keys
    ensures CounterOf(r, pool) == n
    ensures forall q :: HasPool(s, q) && q != pool ==> CounterOf(r, q) == CounterOf(s, q)
    ensures forall b :: b in s.c2d ==> r.c2d[b].decls == s.c2d[b].decls
  {
    match pool
    case FunctionPool => s.(counters := s.counters.(nFn := n))
    case GlobalVarPool => s.(counters := s.counters.(nVar := n))
    case BlockPool(b) => s.(c2d := s.c2d[b := s.c2d[b].(id := n)])
    case FieldPool => s.(counters := s.counters.(nFld := n))
    case TypePool => s.(counters := s.counters.(nType := n))
    case EnumConstantPool => s.(counters := s.counters.(nEnumConst := n))
  }

  /**
   * One iteration of the allocation loop for record `d` with original
   * spelling `spelling`: getName on the record's pool, the name stored in
   * the record and the counter written back.
   */
  function AllocateOne(s: AllocState, d: DeclId, used: set<string>, spelling: string): (r: AllocState)
    requires d in s.d2name
    ensures r.d2name.Keys == s.d2name.Keys && r.c2d.Keys == s.c2d.Keys
    ensures forall b :: b in s.c2d ==> r.c2d[b].decls == s.c2d[b].decls
    ensures forall e :: e in s.d2name && e != d ==> r.d2name[e] == s.d2name[e]
    ensures r.d2name[d].category == s.d2name[d].category && r.d2name[d].block == s.d2name[d].block
    ensures PoolOf(r.d2name[d], r.c2d) == PoolOf(s.d2name[d], s.c2d)
    ensures var pool := PoolOf(s.d2name[d], s.c2d);
      var g := GetNameSpec(spelling, PoolAlphabet(pool), used, CounterOf(s, pool));
      r.d2name[d].name == g.name && CounterOf(r, pool) == g.next
    ensures forall q :: HasPool(s, q) && q != PoolOf(s.d2name[d], s.c2d) ==> CounterOf(r, q) == CounterOf(s, q)
  {
    var pool := PoolOf(s.d2name[d], s.c2d);
    var g := GetNameSpec(spelling, PoolAlphabet(pool), used, CounterOf(s, pool));
    StoreName(s, d, pool, g.name, g.next)
  }

  /** The record of d gets `name` and the counter of its pool becomes `next`. */
  function StoreName(s: AllocState, d: DeclId, pool: Pool, name: string, next: nat): (r: AllocState)
    requires d in s.d2name && pool == PoolOf(s.d2name[d], s.c2d)
    ensures r.d2name.Keys == s.d2name.Keys && r.c2d.Keys == s.c2d.Keys
    ensures forall b :: b in s.c2d ==> r.c2d[b].decls == s.c2d[b].decls
    ensures forall e :: e in s.d2name && e != d ==> r.d2name[e] == s.d2name[e]
    ensures r.d2name[d] == s.d2name[d].(name := name)
    ensures PoolOf(r.d2name[d], r.c2d) == pool
    ensures CounterOf(r, pool) == next
    ensures forall q :: HasPool(s, q) && q != pool ==> CounterOf(r, q) == CounterOf(s, q)
  {
    var s' := WithCounter(s, pool, next);
    var r := s'.(d2name := s'.d2name[d := s.d2name[d].(name := name)]);
    assert r.c2d == s'.c2d && r.counters == s'.counters;
    r
  }

  /** The allocation loop over d2name in insertion order `order`. */
  function AllocateAll(s: AllocState, order: seq<DeclId>, used: set<string>, spelling: map<DeclId, string>): (r: AllocState)
    requires forall d :: d in order ==> d in s.d2name && d in spelling
    ensures r.d2name.Keys == s.d2name.Keys && r.c2d.Keys == s.c2d.Keys
    ensures forall b :: b in s.c2d ==> r.c2d[b].decls == s.c2d[b].decls
    ensures forall e :: e in s.d2name && e !in order ==> r.d2name[e] == s.d2name[e]
    ensures forall e :: e in s.d2name ==>
      r.d2name[e].category == s.d2name[e].category && r.d2name[e].block == s.d2name[e].block
    decreases |order|
  {
    if order == [] then s
    else AllocateAll(AllocateOne(s, order[0], used, spelling[order[0]]), order[1..], used, spelling)
  }

  /** The record kept its own spelling. */
  predicate Kept(s: AllocState, d: DeclId, spelling: map<DeclId, string>)
    requires d in s.d2name && d in spelling
  {
    s.d2name[d].name == spelling[d]
  }

  /**
   * What the loop guarantees of a record it has processed: it kept its
   * spelling, or it holds a shorter name that is not in `used`, whose
   * counter value in its pool lies below that pool's counter.
   */
  predicate Settled(s: AllocState, d: DeclId, used: set<string>, spelling: map<DeclId, string>)
    requires d in s.d2name && d in spelling
  {
    var v := s.d2name[d];
    var pool := PoolOf(v, s.c2d);
    Kept(s, d, spelling) ||
    (v.name !in used && |v.name| < |spelling[d]| &&
     Decode(PoolAlphabet(pool), v.name).Some? &&
     Decode(PoolAlphabet(pool), v.name).value < CounterOf(s, pool))
  }

  /** Two processed records renamed from the same pool got different names. */
  predicate AllocInv(s: AllocState, done: seq<DeclId>, used: set<string>, spelling: map<DeclId, string>)
    requires forall d :: d in done ==> d in s.d2name && d in spelling
  {
    (forall d :: d in done ==> Settled(s, d, used, spelling)) &&
    (forall d1, d2 ::
       (d1 in done && d2 in done && d1 != d2 &&
        !Kept(s, d1, spelling) && !Kept(s, d2, spelling) &&
        PoolOf(s.d2name[d1], s.c2d) == PoolOf(s.d2name[d2], s.c2d)) ==>
       s.d2name[d1].name != s.d2name[d2].name)
  }

  /**
   * What one iteration does, stated without its definition: only record d
   * changes, and only its name; no counter goes down; d keeps its spelling
   * with its pool's counter unchanged, or gets a shorter name outside `used`
   * whose counter value lies between the old and the new counter of its pool.
   */
  ghost predicate Step(s: AllocState, r: AllocState, d: DeclId, used: set<string>, spelling: string)
    requires d in s.d2name
  {
    var pool := PoolOf(s.d2name[d], s.c2d);
    var p := PoolAlphabet(pool);
    r.d2name.Keys == s.d2name.Keys && r.c2d.Keys == s.c2d.Keys &&
    (forall e :: e in s.d2name && e != d ==> r.d2name[e] == s.d2name[e]) &&
    r.d2name[d].category == s.d2name[d].category && r.d2name[d].block == s.d2name[d].block &&
    (forall q :: HasPool(s, q) ==> CounterOf(r, q) >= CounterOf(s, q)) &&
    ((r.d2name[d].name == spelling && CounterOf(r, pool) == CounterOf(s, pool)) ||
     (r.d2name[d].name !in used && |r.d2name[d].name| < |spelling| &&
      Decode(p, r.d2name[d].name).Some? &&
      CounterOf(s, pool) <= Decode(p, r.d2name[d].name).value < CounterOf(r, pool)))
  }

  lemma AllocateOneStep(s: AllocState, d: DeclId, used: set<string>, spelling: string)
    requires d in s.d2name
    ensures Step(s, AllocateOne(s, d, used, spelling), d, used, spelling)
  {
    var pool := PoolOf(s.d2name[d], s.c2d);
    var g := GetNameSpec(spelling, PoolAlphabet(pool), used, CounterOf(s, pool));
    var r := AllocateOne(s, d, used, spelling);
    StepOf(s, r, d, used, spelling, pool, g.name, g.next);
  }

  /** Step follows from what AllocateOne and getName promise, without their definitions. */
  lemma StepOf(s: AllocState, r: AllocState, d: DeclId, used: set<string>, spelling: string,
               pool: Pool, name: string, next: nat)
    requires d in s.d2name && pool == PoolOf(s.d2name[d], s.c2d)
    requires r.d2name.Keys == s.d2name.Keys && r.c2d.Keys == s.c2d.Keys
    requires forall e :: e in s.d2name && e != d ==> r.d2name[e] == s.d2name[e]
    requires r.d2name[d].category == s.d2name[d].category && r.d2name[d].block == s.d2name[d].block
    requires r.d2name[d].name == name && CounterOf(r, pool) == next
    requires (name == spelling && next == CounterOf(s, pool)) ||
      (name !in used && |name| < |spelling| && Decode(PoolAlphabet(pool), name).Some? &&
       CounterOf(s, pool) <= Decode(PoolAlphabet(pool), name).value < next)
    requires forall q :: HasPool(s, q) && q != pool ==> CounterOf(r, q) == CounterOf(s, q)
    ensures Step(s, r, d, used, spelling)
  {
    CountersGrow(s, r, pool, next);
  }

  /** No counter goes down when one pool's counter moves forward. */
  lemma CountersGrow(s: AllocState, r: AllocState, pool: Pool, next: nat)
    requires r.c2d.Keys == s.c2d.Keys && HasPool(s, pool)
    requires CounterOf(r, pool) == next && CounterOf(s, pool) <= next
    requires forall q :: HasPool(s, q) && q != pool ==> CounterOf(r, q) == CounterOf(s, q)
    ensures forall q :: HasPool(s, q) ==> CounterOf(r, q) >= CounterOf(s, q)
  {
  }


  lemma SettledStays(s: AllocState, r: AllocState, d: DeclId, e: DeclId, used: set<string>, spelling: map<DeclId, string>)
    requires d in s.d2name && d in spelling && e in s.d2name && e in spelling && e != d
    requires Step(s, r, d, used, spelling[d]) && Settled(s, e, used, spelling)
    ensures PoolOf(r.d2name[e], r.c2d) == PoolOf(s.d2name[e], s.c2d)
    ensures Settled(r, e, used, spelling)
  {
    var pool := PoolOf(s.d2name[e], s.c2d);
    assert CounterOf(r, pool) >= CounterOf(s, pool);
  }

  lemma StepInv(s: AllocState, r: AllocState, done: seq<DeclId>, d: DeclId, used: set<string>, spelling: map<DeclId, string>)
    requires forall e :: e in done ==> e in s.d2name && e in spelling
    requires d in s.d2name && d in spelling && d !in done && spelling[d] in used
    requires Step(s, r, d, used, spelling[d]) && AllocInv(s, done, used, spelling)
    ensures AllocInv(r, done + [d], used, spelling)
  {
    var pool := PoolOf(s.d2name[d], s.c2d);
    forall e | e in done
      ensures PoolOf(r.d2name[e], r.c2d) == PoolOf(s.d2name[e], s.c2d)
      ensures Settled(r, e, used, spelling)
    {
      SettledStays(s, r, d, e, used, spelling);
    }
    SettledNew(s, r, d, used, spelling);
    PairsDistinct(s, r, done, d, used, spelling, pool);
  }

  /** The record just processed is settled, in the pool it had before. */
  lemma SettledNew(s: AllocState, r: AllocState, d: DeclId, used: set<string>, spelling: map<DeclId, string>)
    requires d in s.d2name && d in spelling && Step(s, r, d, used, spelling[d])
    ensures PoolOf(r.d2name[d], r.c2d) == PoolOf(s.d2name[d], s.c2d)
    ensures Settled(r, d, used, spelling)
  {
  }

  /** The pairwise half of StepInv: old pairs keep their names, and d's new name is new in its pool. */
  lemma PairsDistinct(s: AllocState, r: AllocState, done: seq<DeclId>, d: DeclId, used: set<string>,
                      spelling: map<DeclId, string>, pool: Pool)
    requires forall e :: e in done ==> e in s.d2name && e in spelling
    requires d in s.d2name && d in spelling && d !in done && r.d2name.Keys == s.d2name.Keys
    requires pool == PoolOf(s.d2name[d], s.c2d) && PoolOf(r.d2name[d], r.c2d) == pool
    requires Step(s, r, d, used, spelling[d]) && AllocInv(s, done, used, spelling)
    requires forall e :: e in done ==> PoolOf(r.d2name[e], r.c2d) == PoolOf(s.d2name[e], s.c2d)
    ensures forall d1, d2 ::
       (d1 in done + [d] && d2 in done + [d] && d1 != d2 &&
        !Kept(r, d1, spelling) && !Kept(r, d2, spelling) &&
        PoolOf(r.d2name[d1], r.c2d) == PoolOf(r.d2name[d2], r.c2d)) ==>
       r.d2name[d1].name != r.d2name[d2].name
  {
    forall d1, d2 | d1 in done + [d] && d2 in done + [d] && d1 != d2 &&
        !Kept(r, d1, spelling) && !Kept(r, d2, spelling) &&
        PoolOf(r.d2name[d1], r.c2d) == PoolOf(r.d2name[d2], r.c2d)
      ensures r.d2name[d1].name != r.d2name[d2].name
    {
      if d1 == d || d2 == d {
        var e := if d1 == d then d2 else d1;
        FreshNameDiffers(s, r, d, e, used, spelling, pool);
      }
    }
  }

  /** The name just given to d differs from a renamed record e of the same pool. */
  lemma FreshNameDiffers(s: AllocState, r: AllocState, d: DeclId, e: DeclId, used: set<string>,
                         spelling: map<DeclId, string>, pool: Pool)
    requires d in s.d2name && d in spelling && e in s.d2name && e in spelling && e != d
    requires pool == PoolOf(s.d2name[d], s.c2d) && Step(s, r, d, used, spelling[d])
    requires Settled(s, e, used, spelling) && PoolOf(s.d2name[e], s.c2d) == pool
    requires !Kept(r, d, spelling) && !Kept(s, e, spelling)
    ensures r.d2name[e].name != r.d2name[d].name
  {
    var p := PoolAlphabet(pool);
    assert r.d2name[e] == s.d2name[e];
    assert Decode(p, r.d2name[e].name).value < CounterOf(s, pool);
    assert CounterOf(s, pool) <= Decode(p, r.d2name[d].name).value;
  }

  lemma {:induction false} AllocateAllInv(s: AllocState, done: seq<DeclId>, rest: seq<DeclId>,
                                          used: set<string>, spelling: map<DeclId, string>)
    requires forall e :: e in done + rest ==> e in s.d2name && e in spelling && spelling[e] in used
    requires NoDup(done + rest)
    requires AllocInv(s, done, used, spelling)
    ensures AllocInv(AllocateAll(s, rest, used, spelling), done + rest, used, spelling)
    decreases |rest|
  {
    if rest != [] {
      var d := rest[0];
      NoDupSplit(done, rest);
      var s' := AllocateOne(s, d, used, spelling[d]);
      AllocateOneStep(s, d, used, spelling[d]);
      StepInv(s, s', done, d, used, spelling);
      AllocateAllInv(s', done + [d], rest[1..], used, spelling);
    }
  }

  /**
   * The pools whose alphabets overlap: two block pools, and the field pool
   * with a variable pool. Functions, types and enumerators each draw from
   * letters no other pool uses, and the global and local variable
   * alphabets are disjoint.
   */
  predicate MayShare(a: Pool, b: Pool)
  {
    (a.BlockPool? && b.BlockPool?) ||
    (a == FieldPool && (b == GlobalVarPool || b.BlockPool?)) ||
    (b == FieldPool && (a == GlobalVarPool || a.BlockPool?))
  }

  lemma SharedLetter(a: Pool, b: Pool, c: char)
    requires c in PoolAlphabet(a) && c in PoolAlphabet(b) && a != b
    ensures MayShare(a, b)
  {
    AlphabetsAreRanges();
  }

  /**
   * The allocation loop as a whole (src/main.cc:83-108), for records listed
   * once each whose spellings the collector put in `used`: every record
   * keeps its spelling or gets a strictly shorter name outside `used` that
   * starts with a letter of its pool's alphabet.
   */
  lemma AllocationShortens(s0: AllocState, order: seq<DeclId>, used: set<string>, spelling: map<DeclId, string>, d: DeclId)
    requires forall e :: e in order ==> e in s0.d2name && e in spelling && spelling[e] in used
    requires NoDup(order) && d in order
    ensures var s := AllocateAll(s0, order, used, spelling);
      var name := s.d2name[d].name;
      name == spelling[d] ||
      (name !in used && 0 < |name| < |spelling[d]| && name[0] in PoolAlphabet(PoolOf(s.d2name[d], s.c2d)))
  {
    assert [] + order == order;
    AllocateAllInv(s0, [], order, used, spelling);
  }

  lemma InvDistinct(s: AllocState, done: seq<DeclId>, used: set<string>, spelling: map<DeclId, string>,
                    d1: DeclId, d2: DeclId)
    requires forall e :: e in done ==> e in s.d2name && e in spelling && spelling[e] in used
    requires AllocInv(s, done, used, spelling) && d1 in done && d2 in done && d1 != d2
    requires s.d2name[d1].name == s.d2name[d2].name
    ensures (Kept(s, d1, spelling) && Kept(s, d2, spelling)) ||
      (s.d2name[d1].name !in used &&
       PoolOf(s.d2name[d1], s.c2d) != PoolOf(s.d2name[d2], s.c2d) &&
       MayShare(PoolOf(s.d2name[d1], s.c2d), PoolOf(s.d2name[d2], s.c2d)))
  {
    assert Settled(s, d1, used, spelling) && Settled(s, d2, used, spelling);
    if !Kept(s, d1, spelling) || !Kept(s, d2, spelling) {
      var a, b := PoolOf(s.d2name[d1], s.c2d), PoolOf(s.d2name[d2], s.c2d);
      var n := s.d2name[d1].name;
      assert !Kept(s, d1, spelling) && !Kept(s, d2, spelling);
      assert a != b;
      SharedLetter(a, b, n[0]);
    }
  }

  /**
   * Two different records end up with the same name only when both kept
   * their spellings, or both were renamed from different pools whose
   * alphabets overlap.
   */
  lemma AllocationDistinct(s0: AllocState, order: seq<DeclId>, used: set<string>, spelling: map<DeclId, string>,
                           d1: DeclId, d2: DeclId)
    requires forall e :: e in order ==> e in s0.d2name && e in spelling && spelling[e] in used
    requires NoDup(order) && d1 in order && d2 in order && d1 != d2
    ensures var s := AllocateAll(s0, order, used, spelling);
      s.d2name[d1].name == s.d2name[d2].name ==>
        (s.d2name[d1].name == spelling[d1] && s.d2name[d2].name == spelling[d2]) ||
        (s.d2name[d1].name !in used &&
         PoolOf(s.d2name[d1], s.c2d) != PoolOf(s.d2name[d2], s.c2d) &&
         MayShare(PoolOf(s.d2name[d1], s.c2d), PoolOf(s.d2name[d2], s.c2d)))
  {
    var s := AllocateAll(s0, order, used, spelling);
    assert [] + order == order;
    AllocateAllInv(s0, [], order, used, spelling);
    if s.d2name[d1].name == s.d2name[d2].name {
      InvDistinct(s, order, used, spelling, d1, d2);
    }
  }

  // ---------------------------------------------------------------------
  // Nested blocks: every block counts from 0 (src/Collector.cc:57, src/main.cc:92-94)
  // ---------------------------------------------------------------------

  /**
   * `int f(int count) {{ int total = count; return total; }}`: the
   * parameter `count` (record 1) is registered in the body block 10, the
   * local `total` (record 2) in block 11 nested in it. `c2d[cs]` creates
   * each block's entry with counter 0.
   */
  function NestedBlocks(): (s: AllocState)
    ensures s.d2name.Keys == {1, 2} && s.c2d.Keys == {10, 11}
  {
    AllocState(
      map[1 := DeclMapData("", VariableCat, Some(10)), 2 := DeclMapData("", VariableCat, Some(11))],
      map[10 := CompoundStmtMapData([1], 0), 11 := CompoundStmtMapData([2], 0)],
      Counters(0, 0, 0, 0, 0))
  }

  lemma FirstLocalCandidates()
    ensures Candidate(LocalAlphabet, 0) == "r" && Candidate(LocalAlphabet, 1) == "s"
  {
    QuotRemUnique(0, |LocalAlphabet|, 0, 0);
    QuotRemUnique(1, |LocalAlphabet|, 0, 1);
  }

  /** Two iterations of the allocation loop. */
  lemma AllocateTwo(s: AllocState, d1: DeclId, d2: DeclId, used: set<string>, spelling: map<DeclId, string>)
    requires d1 in s.d2name && d2 in s.d2name && d1 in spelling && d2 in spelling
    ensures AllocateAll(s, [d1, d2], used, spelling) ==
      AllocateOne(AllocateOne(s, d1, used, spelling[d1]), d2, used, spelling[d2])
  {
    var s1 := AllocateOne(s, d1, used, spelling[d1]);
    var s2 := AllocateOne(s1, d2, used, spelling[d2]);
    assert [d1, d2][1..] == [d2] && [d2][1..] == [];
    assert AllocateAll(s, [d1, d2], used, spelling) == AllocateAll(s1, [d2], used, spelling);
    assert AllocateAll(s1, [d2], used, spelling) == AllocateAll(s2, [], used, spelling);
  }

  /** A local whose block counter is at a free one-letter candidate gets that candidate. */
  lemma LocalStep(s: AllocState, d: DeclId, b: BlockId, used: set<string>, spelling: string, id: nat)
    requires d in s.d2name && PoolOf(s.d2name[d], s.c2d) == BlockPool(b) && CounterOf(s, BlockPool(b)) == id
    requires Candidate(LocalAlphabet, id) !in used && |Candidate(LocalAlphabet, id)| == 1 && |spelling| > 1
    ensures var r := AllocateOne(s, d, used, spelling);
      r.d2name[d].name == Candidate(LocalAlphabet, id) && CounterOf(r, BlockPool(b)) == id + 1
  {
    PoolAlphabets();
    assert FirstUnused(LocalAlphabet, used, id) == id;
    assert GetNameSpec(spelling, LocalAlphabet, used, id) == Named(Candidate(LocalAlphabet, id), id + 1);
  }

  /**
   * As written: the outer parameter and the inner local both become `r`,
   * so the inner declaration shadows the outer one and `int total = count`
   * turns into `int r = r`.
   */
  lemma NestedBlocksCollide(used: set<string>, outer: string, inner: string)
    requires "r" !in used && |outer| > 1 && |inner| > 1
    ensures var s := AllocateAll(NestedBlocks(), [1, 2], used, map[1 := outer, 2 := inner]);
      s.d2name[1].name == "r" && s.d2name[2].name == "r"
  {
    var s0 := NestedBlocks();
    var sp := map[1 := outer, 2 := inner];
    FirstLocalCandidates();
    AllocateTwo(s0, 1, 2, used, sp);
    LocalStep(s0, 1, 10, used, outer, 0);
    var s1 := AllocateOne(s0, 1, used, outer);
    assert PoolOf(s1.d2name[2], s1.c2d) == BlockPool(11) && CounterOf(s1, BlockPool(11)) == 0;
    LocalStep(s1, 2, 11, used, inner, 0);
  }

  /**
   * The corrected rule: every block-local variable draws from the one
   * local counter, here the counter of block `k`, starting at 0. Records
   * keep their names and categories; locals are moved into block `k` and a
   * variable whose block has no entry keeps drawing from the global pool.
   */
  function Redirect(v: DeclMapData, c2d: map<BlockId, CompoundStmtMapData>, k: BlockId): (w: DeclMapData)
    ensures w.name == v.name && w.category == v.category
  {
    if PoolOf(v, c2d).BlockPool? then v.(block := Some(k))
    else if v.category == VariableCat then v.(block := None)
    else v
  }

  function SharedLocals(s: AllocState, k: BlockId): (r: AllocState)
    ensures r.d2name.Keys == s.d2name.Keys && r.c2d.Keys == {k} && r.c2d[k].id == 0
    ensures forall d :: d in s.d2name ==>
      r.d2name[d].name == s.d2name[d].name && r.d2name[d].category == s.d2name[d].category
    ensures forall d :: d in s.d2name ==>
      PoolOf(r.d2name[d], r.c2d) ==
        (if PoolOf(s.d2name[d], s.c2d).BlockPool? then BlockPool(k) else PoolOf(s.d2name[d], s.c2d))
  {
    AllocState(
      map d | d in s.d2name :: Redirect(s.d2name[d], s.c2d, k),
      map[k := CompoundStmtMapData([], 0)],
      s.counters)
  }

  /**
   * Under the corrected rule two locals, of the same block or of different
   * blocks, share a name only when both kept their spellings.
   */
  lemma SharedLocalsDistinct(s0: AllocState, k: BlockId, order: seq<DeclId>, used: set<string>,
                             spelling: map<DeclId, string>, d1: DeclId, d2: DeclId)
    requires forall e :: e in order ==> e in s0.d2name && e in spelling && spelling[e] in used
    requires NoDup(order) && d1 in order && d2 in order && d1 != d2
    requires PoolOf(s0.d2name[d1], s0.c2d).BlockPool? && PoolOf(s0.d2name[d2], s0.c2d).BlockPool?
    ensures var s := AllocateAll(SharedLocals(s0, k), order, used, spelling);
      s.d2name[d1].name == s.d2name[d2].name ==>
        s.d2name[d1].name == spelling[d1] && s.d2name[d2].name == spelling[d2]
  {
    var t := SharedLocals(s0, k);
    AllocationDistinct(t, order, used, spelling, d1, d2);
    var s := AllocateAll(t, order, used, spelling);
    SamePool(s.d2name[d1], t.d2name[d1], s.c2d, t.c2d);
    SamePool(s.d2name[d2], t.d2name[d2], s.c2d, t.c2d);
  }

  /** The pool depends only on the category, the block and which blocks are recorded. */
  lemma SamePool(v: DeclMapData, w: DeclMapData, c1: map<BlockId, CompoundStmtMapData>,
                 c2: map<BlockId, CompoundStmtMapData>)
    requires v.category == w.category && v.block == w.block && c1.Keys == c2.Keys
    ensures PoolOf(v, c1) == PoolOf(w, c2)
  {
  }

  /** On the nested example the corrected rule names the parameter `r` and the inner local `s`. */
  lemma SharedLocalsSeparate(used: set<string>, outer: string, inner: string)
    requires "r" !in used && "s" !in used && |outer| > 1 && |inner| > 1
    ensures var s := AllocateAll(SharedLocals(NestedBlocks(), 10), [1, 2], used, map[1 := outer, 2 := inner]);
      s.d2name[1].name == "r" && s.d2name[2].name == "s"
  {
    var s0 := SharedLocals(NestedBlocks(), 10);
    var sp := map[1 := outer, 2 := inner];
    FirstLocalCandidates();
    AllocateTwo(s0, 1, 2, used, sp);
    LocalStep(s0, 1, 10, used, outer, 0);
    var s1 := AllocateOne(s0, 1, used, outer);
    LocalStep(s1, 2, 10, used, inner, 1);
  }
}
