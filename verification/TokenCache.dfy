/** The content-keyed LRU cache of token counts (src/token_estimation.py). */
module TokenCache {
  import opened Json

  // An OrderedDict, least recently used entry first.
  datatype Slot<K> = Slot(key: K, value: nat)

  function KeysOf<K>(es: seq<Slot<K>>): seq<K> {
    seq(|es|, i requires 0 <= i < |es| => es[i].key)
  }

  predicate Unique<K(==)>(ks: seq<K>) {
    forall i, j | 0 <= i < j < |ks| :: ks[i] != ks[j]
  }

  function Find<K(==)>(es: seq<Slot<K>>, k: K): (r: Option<nat>)
    ensures r == None ==> forall i | 0 <= i < |es| :: es[i].key != k
    ensures r.Some? ==> exists i | 0 <= i < |es| :: es[i] == Slot(k, r.value)
  {
    if es == [] then None
    else if es[0].key == k then Some(es[0].value)
    else Find(es[1..], k)
  }

  function Without<K(==)>(es: seq<Slot<K>>, k: K): seq<Slot<K>> {
    if es == [] then []
    else if es[0].key == k then Without(es[1..], k)
    else [es[0]] + Without(es[1..], k)
  }

  function AfterGet<K(==)>(es: seq<Slot<K>>, k: K): seq<Slot<K>> {
    if Find(es, k).Some? then Without(es, k) + [Slot(k, Find(es, k).value)] else es
  }

  function AfterPut<K(==)>(max: nat, es: seq<Slot<K>>, k: K, v: nat): seq<Slot<K>> {
    var t := Without(es, k) + [Slot(k, v)];
    if Find(es, k).None? && |t| > max then t[1..] else t
  }

  class TokenCountCache<K(==)> {
    var entries: seq<Slot<K>>
    const maxSize: nat
    var hits: nat
    var misses: nat

    constructor (maxSize: nat)
      ensures this.maxSize == maxSize && entries == [] && hits == misses == 0
    {
      this.maxSize := maxSize;
      entries, hits, misses := [], 0, 0;
    }

    method Get(k: K) returns (r: Option<nat>)
      modifies this
      ensures r == Find(old(entries), k) && entries == AfterGet(old(entries), k)
      ensures hits == old(hits) + (if r.Some? then 1 else 0)
      ensures misses == old(misses) + (if r.None? then 1 else 0)
    {
      r := Find(entries, k);
      if r.None? {
        misses := misses + 1;
        return;
      }
      hits := hits + 1;
      entries := Without(entries, k) + [Slot(k, r.value)];
    }

    method Put(k: K, v: nat)
      modifies this`entries
      ensures entries == AfterPut(maxSize, old(entries), k, v)
    {
      if Find(entries, k).Some? {
        entries := Without(entries, k) + [Slot(k, v)];
        return;
      }
      WithoutAbsent(entries, k);
      entries := entries + [Slot(k, v)];
      if |entries| > maxSize {
        entries := entries[1..];
      }
    }

    method Reset()
      modifies this
      ensures entries == [] && hits == misses == 0
    {
      entries, hits, misses := [], 0, 0;
    }
  }

  lemma {:induction false} WithoutAbsent<K>(es: seq<Slot<K>>, k: K)
    requires Find(es, k).None?
    ensures Without(es, k) == es
  {
    if es != [] {
      WithoutAbsent(es[1..], k);
    }
  }

  lemma {:induction false} WithoutKeeps<K>(es: seq<Slot<K>>, k: K)
    ensures forall e :: e in Without(es, k) <==> e in es && e.key != k
  {
    if es != [] {
      WithoutKeeps(es[1..], k);
    }
  }

  /** Where the entries of a cache came from. */
  lemma EntriesAfter<K>(max: nat, es: seq<Slot<K>>, k: K, v: nat, e: Slot<K>)
    ensures e in AfterGet(es, k) ==> e in es
    ensures e in AfterPut(max, es, k, v) ==> e in es || e == Slot(k, v)
  {
    WithoutKeeps(es, k);
    if Find(es, k).Some? {
      assert Slot(k, Find(es, k).value) in es;
    }
    var t := Without(es, k) + [Slot(k, v)];
    assert e in t[1..] ==> e in t;
  }

  lemma {:induction false} FindLast<K>(es: seq<Slot<K>>, k: K, v: nat)
    requires forall i | 0 <= i < |es| :: es[i].key != k
    ensures Find(es + [Slot(k, v)], k) == Some(v)
  {
    var t := es + [Slot(k, v)];
    if es != [] {
      assert t[1..] == es[1..] + [Slot(k, v)];
      FindLast(es[1..], k, v);
    }
  }

  /** A value that was put, or hit, is there for the next call. */
  lemma StillThere<K>(max: nat, es: seq<Slot<K>>, k: K, v: nat)
    ensures Find(AfterGet(es, k), k) == Find(es, k)
    ensures max > 0 ==> Find(AfterPut(max, es, k, v), k) == Some(v)
  {
    hide Find;
    var others := Without(es, k);
    WithoutKeeps(es, k);
    assert forall i | 0 <= i < |others| :: others[i] in others && others[i].key != k;
    if Find(es, k).Some? {
      FindLast(others, k, Find(es, k).value);
    }
    FindLast(others, k, v);
    if others != [] {
      assert (others + [Slot(k, v)])[1..] == others[1..] + [Slot(k, v)];
      FindLast(others[1..], k, v);
    }
  }

  /******* Which keys a run leaves in the cache *******/

  datatype Op<K> = GetOp(key: K) | PutOp(key: K, value: nat)

  function Apply<K(==)>(max: nat, es: seq<Slot<K>>, op: Op<K>): seq<Slot<K>> {
    match op
    case GetOp(k) => AfterGet(es, k)
    case PutOp(k, v) => AfterPut(max, es, k, v)
  }

  function RunOps<K(==)>(max: nat, ops: seq<Op<K>>): seq<Slot<K>> {
    if ops == [] then [] else Apply(max, RunOps(max, ops[..|ops| - 1]), ops[|ops| - 1])
  }

  /** The keys that the run touched: a hit touches its key, and so does every put. */
  function Touched<K(==)>(max: nat, ops: seq<Op<K>>): seq<K> {
    if ops == [] then []
    else
      var before, op := ops[..|ops| - 1], ops[|ops| - 1];
      Touched(max, before) +
      if op.PutOp? || Find(RunOps(max, before), op.key).Some? then [op.key] else []
  }

  function Drop<K(==)>(ks: seq<K>, k: K): seq<K> {
    if ks == [] then []
    else if ks[0] == k then Drop(ks[1..], k)
    else [ks[0]] + Drop(ks[1..], k)
  }

  /** The distinct keys of a sequence, each at its last occurrence. */
  function Recency<K(==)>(ks: seq<K>): seq<K> {
    if ks == [] then [] else Drop(Recency(ks[..|ks| - 1]), ks[|ks| - 1]) + [ks[|ks| - 1]]
  }

  function LastOf<K>(ks: seq<K>, n: nat): seq<K> {
    if |ks| <= n then ks else ks[|ks| - n..]
  }

  lemma {:induction false} DropSpec<K>(ks: seq<K>, k: K)
    ensures k !in Drop(ks, k)
    ensures k !in ks ==> Drop(ks, k) == ks
    ensures forall x :: x in Drop(ks, k) <==> x in ks && x != k
  {
    if ks != [] {
      DropSpec(ks[1..], k);
    }
  }

  lemma UniqueCons<K>(x: K, ks: seq<K>)
    ensures Unique([x] + ks) <==> x !in ks && Unique(ks)
  {
    var t := [x] + ks;
    assert forall i | 0 <= i < |ks| :: t[i + 1] == ks[i];
    if x in ks {
      var i :| 0 <= i < |ks| && ks[i] == x;
      assert t[0] == t[i + 1];
    }
  }

  lemma {:induction false} DropUnique<K>(ks: seq<K>, k: K)
    requires Unique(ks)
    ensures Unique(Drop(ks, k)) && |Drop(ks, k)| == |ks| - if k in ks then 1 else 0
  {
    if ks != [] {
      assert ks == [ks[0]] + ks[1..];
      UniqueCons(ks[0], ks[1..]);
      DropSpec(ks[1..], k);
      DropUnique(ks[1..], k);
      UniqueCons(ks[0], Drop(ks[1..], k));
    }
  }

  lemma {:induction false} DropConcat<K>(a: seq<K>, b: seq<K>, k: K)
    ensures Drop(a + b, k) == Drop(a, k) + Drop(b, k)
  {
    if a == [] {
      assert a + b == b;
    } else {
      assert (a + b)[1..] == a[1..] + b;
      DropConcat(a[1..], b, k);
    }
  }

  lemma {:induction false} RecencyUnique<K>(ks: seq<K>)
    ensures Unique(Recency(ks)) && forall x :: x in Recency(ks) <==> x in ks
  {
    if ks != [] {
      RecencyUnique(ks[..|ks| - 1]);
      DropSpec(Recency(ks[..|ks| - 1]), ks[|ks| - 1]);
      DropUnique(Recency(ks[..|ks| - 1]), ks[|ks| - 1]);
      assert ks == ks[..|ks| - 1] + [ks[|ks| - 1]];
    }
  }

  lemma {:induction false} KeysWithout<K>(es: seq<Slot<K>>, k: K)
    ensures KeysOf(Without(es, k)) == Drop(KeysOf(es), k)
  {
    if es != [] {
      KeysWithout(es[1..], k);
      assert KeysOf(es)[1..] == KeysOf(es[1..]);
    }
  }

  lemma FindIsMember<K>(es: seq<Slot<K>>, k: K)
    ensures Find(es, k).Some? <==> k in KeysOf(es)
  {
    if Find(es, k).Some? {
      var i :| 0 <= i < |es| && es[i] == Slot(k, Find(es, k).value);
      assert KeysOf(es)[i] == k;
    }
  }

  lemma LastOfConcat<K>(a: seq<K>, b: seq<K>, n: nat)
    requires a == [] || |b| >= n
    ensures LastOf(a + b, n) == LastOf(b, n)
  {
    if a == [] {
      assert a + b == b;
    }
  }

  lemma TouchInside<K>(stale: seq<K>, w: seq<K>, n: nat, k: K)
    requires k in w && k !in stale && Unique(w) && (stale == [] || |w| >= n)
    requires |w| <= n
    ensures LastOf(Drop(stale + w, k) + [k], n) == Drop(w, k) + [k]
  {
    hide Drop, Unique;
    DropConcat(stale, w, k);
    DropSpec(stale, k);
    DropUnique(w, k);
    assert Drop(stale + w, k) + [k] == stale + (Drop(w, k) + [k]);
    LastOfConcat(stale, Drop(w, k) + [k], n);
  }

  lemma TouchOutside<K>(stale: seq<K>, w: seq<K>, n: nat, k: K)
    requires k !in w && (stale == [] || |w| >= n)
    ensures LastOf(Drop(stale + w, k) + [k], n) == LastOf(w + [k], n)
  {
    DropConcat(stale, w, k);
    DropSpec(w, k);
    assert Drop(stale + w, k) + [k] == Drop(stale, k) + (w + [k]);
    LastOfConcat(Drop(stale, k), w + [k], n);
  }

  /** Touching a key of a window of recent keys: the window afterwards. */
  lemma TouchWindow<K>(r: seq<K>, n: nat, k: K)
    requires Unique(r)
    ensures var w, r' := LastOf(r, n), Drop(r, k) + [k];
      LastOf(r', n) == if k in w then Drop(w, k) + [k] else LastOf(w + [k], n)
  {
    hide Drop, Unique;
    var w := LastOf(r, n);
    var stale := r[..|r| - |w|];
    assert r == stale + w;
    if k in w {
      WindowDisjoint(stale, w, k);
      TouchInside(stale, w, n, k);
    } else {
      TouchOutside(stale, w, n, k);
    }
  }

  lemma WindowDisjoint<K>(a: seq<K>, b: seq<K>, k: K)
    requires Unique(a + b) && k in b
    ensures k !in a && Unique(b)
  {
    var j :| 0 <= j < |b| && b[j] == k;
    assert (a + b)[|a| + j] == k;
    assert forall i | 0 <= i < |a| :: (a + b)[i] == a[i];
    assert forall i | 0 <= i < |b| :: (a + b)[|a| + i] == b[i];
  }

  lemma KeysAfterGet<K>(es: seq<Slot<K>>, k: K)
    ensures KeysOf(AfterGet(es, k)) == if k in KeysOf(es) then Drop(KeysOf(es), k) + [k] else KeysOf(es)
  {
    FindIsMember(es, k);
    KeysWithout(es, k);
  }

  lemma KeysAfterPut<K>(max: nat, es: seq<Slot<K>>, k: K, v: nat)
    requires |es| <= max
    ensures KeysOf(AfterPut(max, es, k, v))
         == if k in KeysOf(es) then Drop(KeysOf(es), k) + [k] else LastOf(KeysOf(es) + [k], max)
  {
    hide Find, Without, Drop;
    FindIsMember(es, k);
    KeysWithout(es, k);
    DropSpec(KeysOf(es), k);
    var t := Without(es, k) + [Slot(k, v)];
    assert KeysOf(t) == Drop(KeysOf(es), k) + [k];
    assert KeysOf(t[1..]) == KeysOf(t)[1..];
  }

  /** LRU exactness: after any run of gets and puts the cache holds exactly the
      last `max` distinct keys touched, least recent first. */
  lemma {:induction false} LruExact<K>(max: nat, ops: seq<Op<K>>)
    ensures KeysOf(RunOps(max, ops)) == LastOf(Recency(Touched(max, ops)), max)
  {
    hide AfterGet, AfterPut, Find, Drop;
    if ops != [] {
      var before, op := ops[..|ops| - 1], ops[|ops| - 1];
      var es, touched := RunOps(max, before), Touched(max, before);
      LruExact(max, before);
      FindIsMember(es, op.key);
      RecencyUnique(touched);
      TouchWindow(Recency(touched), max, op.key);
      TouchedStep(touched, op.key);
      assert touched + [] == touched;
      match op
      case GetOp(k) => KeysAfterGet(es, k);
      case PutOp(k, v) =>
        assert |es| == |KeysOf(es)|;
        KeysAfterPut(max, es, k, v);
    }
  }

  lemma TouchedStep<K>(touched: seq<K>, k: K)
    ensures Recency(touched + [k]) == Drop(Recency(touched), k) + [k]
  {
    assert (touched + [k])[..|touched|] == touched;
  }
}
