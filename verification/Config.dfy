/** Merging configuration tiers (src/config.py:88-96, 172-174, 207-212, 266-289). */
module Config {
  import opened Unicode
  import opened Json

  // Any JSON value but an object.
  type Plain = j: Json | !j.Obj? witness Null

  datatype Value = Leaf(value: Plain) | Table(entries: Dict)

  type Dict = map<Text, Value>

  /** `over` on top of `base`: dicts merge key by key, anything else replaces. */
  function Merge(base: Value, over: Value): (m: Value)
    ensures over.Table? ==> m.Table?
    decreases over
  {
    if base.Leaf? || over.Leaf? then over
    else
      Table(map k | k in base.entries.Keys + over.entries.Keys ::
        if k !in over.entries then base.entries[k]
        else if k !in base.entries then over.entries[k]
        else Merge(base.entries[k], over.entries[k]))
  }

  function MergeDicts(base: Dict, over: Dict): Dict {
    Merge(Table(base), Table(over)).entries
  }

  lemma MergeKeys(base: Dict, over: Dict)
    ensures MergeDicts(base, over).Keys == base.Keys + over.Keys
    ensures forall k <- base.Keys | k !in over :: MergeDicts(base, over)[k] == base[k]
  {
  }

  lemma MergeKey(base: Dict, over: Dict, k: Text)
    requires k in over
    ensures k in MergeDicts(base, over)
    ensures MergeDicts(base, over)[k]
         == if k in base && base[k].Table? && over[k].Table? then Table(MergeDicts(base[k].entries, over[k].entries))
            else over[k]
  {
    if k in base {
      var nested := Merge(base[k], over[k]);
      assert MergeDicts(base, over)[k] == nested;
      if base[k].Table? && over[k].Table? {
        assert base[k] == Table(base[k].entries) && over[k] == Table(over[k].entries);
        assert nested == Table(nested.entries);
      }
    }
  }

  /** `whole` on the keys done, `base` on the others. */
  ghost predicate Partly(merged: Dict, base: Dict, whole: Dict, done: set<Text>) {
    && merged.Keys == base.Keys + done
    && (forall k <- done :: k in whole && merged[k] == whole[k])
    && forall k <- base.Keys | k !in done :: merged[k] == base[k]
  }

  lemma PartlyMore(merged: Dict, base: Dict, whole: Dict, done: set<Text>, k: Text, v: Value)
    requires Partly(merged, base, whole, done) && k in whole && v == whole[k]
    ensures Partly(merged[k := v], base, whole, done + {k})
  {
  }

  lemma PartlyAll(merged: Dict, base: Dict, over: Dict)
    requires Partly(merged, base, MergeDicts(base, over), over.Keys)
    ensures merged == MergeDicts(base, over)
  {
    hide MergeDicts;
    MergeKeys(base, over);
    var whole := MergeDicts(base, over);
    forall k <- merged.Keys
      ensures merged[k] == whole[k]
    {
    }
  }

  method DeepMerge(base: Dict, over: Dict) returns (merged: Dict)
    ensures merged == MergeDicts(base, over)
    decreases Table(over)
  {
    hide MergeDicts, Partly;
    merged := base;
    var todo := over.Keys;
    ghost var done: set<Text> := {};
    NothingDone(base, MergeDicts(base, over));
    while todo != {}
      invariant todo !! done && todo + done == over.Keys
      invariant Partly(merged, base, MergeDicts(base, over), done)
      decreases |todo|
    {
      var key :| key in todo;
      var value := over[key];
      MergeKey(base, over, key);
      Untouched(merged, base, MergeDicts(base, over), done, key);
      var next := value;
      if key in merged && merged[key].Table? && value.Table? {
        assert value == Table(value.entries);
        var nested := DeepMerge(merged[key].entries, value.entries);
        next := Table(nested);
      }
      PartlyMore(merged, base, MergeDicts(base, over), done, key, next);
      merged := merged[key := next];
      todo, done := todo - {key}, done + {key};
    }
    PartlyAll(merged, base, over);
  }

  lemma NothingDone(base: Dict, whole: Dict)
    ensures Partly(base, base, whole, {})
  {
  }

  lemma Untouched(merged: Dict, base: Dict, whole: Dict, done: set<Text>, k: Text)
    requires Partly(merged, base, whole, done) && k !in done
    ensures k in merged <==> k in base
    ensures k in merged && k in base ==> merged[k] == base[k]
  {
  }

  /******* What is found along a path *******/

  type Path = seq<Text>

  datatype Kind = Absent | LeafAt(value: Plain) | TableAt

  function KindAt(v: Value, path: Path): Kind
    decreases |path|
  {
    if path == [] then (if v.Leaf? then LeafAt(v.value) else TableAt)
    else if v.Table? && path[0] in v.entries then KindAt(v.entries[path[0]], path[1..])
    else Absent
  }

  /** A leaf sits on the way to `path`. */
  predicate Blocked(v: Value, path: Path)
    decreases |path|
  {
    path != [] && (v.Leaf? || (path[0] in v.entries && Blocked(v.entries[path[0]], path[1..])))
  }

  lemma {:induction false} BlockedIff(v: Value, path: Path)
    ensures Blocked(v, path) <==> exists n | 0 <= n < |path| :: KindAt(v, path[..n]).LeafAt?
    ensures Blocked(v, path) ==> KindAt(v, path).Absent?
    decreases |path|
  {
    if path != [] {
      assert KindAt(v, path[..0]) == KindAt(v, []);
      if v.Table? && path[0] in v.entries {
        var w, rest := v.entries[path[0]], path[1..];
        BlockedIff(w, rest);
        forall n | 0 <= n < |rest|
          ensures KindAt(v, path[..n + 1]) == KindAt(w, rest[..n])
        {
          assert path[..n + 1][1..] == rest[..n];
        }
        if n :| 0 <= n < |path| && KindAt(v, path[..n]).LeafAt? {
          assert KindAt(w, rest[..n - 1]).LeafAt?;
        }
        if n :| 0 <= n < |rest| && KindAt(w, rest[..n]).LeafAt? {
          assert KindAt(v, path[..n + 1]).LeafAt?;
        }
      }
    }
  }

  /** The law of the merge: along every path the upper tier decides, unless it says
      nothing there and has no leaf on the way. */
  lemma {:induction false} PathLaw(base: Value, over: Value, path: Path)
    ensures KindAt(Merge(base, over), path)
         == if KindAt(over, path).Absent? && !Blocked(over, path) then KindAt(base, path) else KindAt(over, path)
    decreases |path|
  {
    if path != [] && base.Table? && over.Table? {
      var k := path[0];
      if k in base.entries && k in over.entries {
        PathLaw(base.entries[k], over.entries[k], path[1..]);
      }
    }
  }

  lemma KindAtKey(v: Value, k: Text)
    requires v.Table?
    ensures KindAt(v, [k]).Absent? <==> k !in v.entries
  {
    assert [k][1..] == [];
    assert k in v.entries ==> KindAt(v, [k]) == KindAt(v.entries[k], []);
  }

  /** The law leaves no freedom: values that agree along every path are equal. */
  lemma {:induction false} KindsDetermine(u: Value, v: Value)
    requires forall path :: KindAt(u, path) == KindAt(v, path)
    ensures u == v
    decreases u
  {
    assert KindAt(u, []) == KindAt(v, []);
    if u.Table? {
      forall k: Text
        ensures k in u.entries <==> k in v.entries
      {
        assert KindAt(u, [k]) == KindAt(v, [k]);
        KindAtKey(u, k);
        KindAtKey(v, k);
      }
      forall k <- u.entries.Keys
        ensures u.entries[k] == v.entries[k]
      {
        forall path: Path
          ensures KindAt(u.entries[k], path) == KindAt(v.entries[k], path)
        {
          assert KindAt(u, [k] + path) == KindAt(v, [k] + path);
          assert ([k] + path)[1..] == path;
        }
        KindsDetermine(u.entries[k], v.entries[k]);
      }
    }
  }

  const EMPTY := Table(map[])

  lemma EmptyIsIdentity(v: Value)
    requires v.Table?
    ensures Merge(v, EMPTY) == v && Merge(EMPTY, v) == v
  {
  }

  lemma {:induction false} Idempotent(v: Value)
    ensures Merge(v, v) == v
  {
    forall path
      ensures KindAt(Merge(v, v), path) == KindAt(v, path)
    {
      PathLaw(v, v, path);
    }
    KindsDetermine(Merge(v, v), v);
  }

  /** Merging the same base in again changes nothing. */
  lemma Absorbs(base: Value, v: Value)
    ensures Merge(base, Merge(base, v)) == Merge(base, v)
  {
    var once := Merge(base, v);
    forall path
      ensures KindAt(Merge(base, once), path) == KindAt(once, path)
    {
      PathLaw(base, v, path);
      PathLaw(base, once, path);
      BlockedStays(base, v, path);
    }
    KindsDetermine(Merge(base, once), once);
  }

  /** A leaf of the upper tier is a leaf of the merge. */
  lemma BlockedStays(base: Value, v: Value, path: Path)
    ensures Blocked(v, path) ==> Blocked(Merge(base, v), path)
  {
    if Blocked(v, path) {
      BlockedIff(v, path);
      BlockedIff(Merge(base, v), path);
      var n :| 0 <= n < |path| && KindAt(v, path[..n]).LeafAt?;
      PathLaw(base, v, path[..n]);
    }
  }

  /******* Associativity *******/

  /** Everything in table `a` is in `c`, or under a leaf of `c`. */
  predicate Covers(c: Value, a: Value)
    decreases a
  {
    a.Table? && c.Table? ==> forall k <- a.entries.Keys :: k in c.entries && Covers(c.entries[k], a.entries[k])
  }

  lemma {:induction false} CoversIff(c: Value, a: Value)
    ensures Covers(c, a) <==> Merge(a, c) == c
    decreases a
  {
    if a.Table? && c.Table? {
      forall k <- a.entries.Keys | k in c.entries
        ensures Covers(c.entries[k], a.entries[k]) <==> Merge(a.entries[k], c.entries[k]) == c.entries[k]
      {
        CoversIff(c.entries[k], a.entries[k]);
      }
      var m := Merge(a, c);
      if Covers(c, a) {
        assert m.entries == c.entries;
      } else {
        var k :| k in a.entries && !(k in c.entries && Covers(c.entries[k], a.entries[k]));
        assert k in m.entries;
        assert k in c.entries ==> m.entries[k] != c.entries[k];
      }
    }
  }

  /** Wherever `b` replaced a dict of `a` by something else and `c` puts a dict back,
      that dict covers the one of `a`. */
  predicate Stacks(a: Value, b: Value, c: Value)
    decreases a
  {
    if a.Leaf? || c.Leaf? then true
    else if b.Leaf? then Covers(c, a)
    else
      forall k <- a.entries.Keys | k in b.entries && k in c.entries ::
        Stacks(a.entries[k], b.entries[k], c.entries[k])
  }

  /** Merging is associative exactly on the tiers that stack. */
  lemma {:induction false} AssociativeIff(a: Value, b: Value, c: Value)
    ensures Merge(Merge(a, b), c) == Merge(a, Merge(b, c)) <==> Stacks(a, b, c)
    decreases a
  {
    if a.Leaf? || c.Leaf? {
    } else if b.Leaf? {
      CoversIff(c, a);
    } else {
      var left, right := Merge(Merge(a, b), c), Merge(a, Merge(b, c));
      forall k <- a.entries.Keys | k in b.entries && k in c.entries
        ensures left.entries[k] == right.entries[k] <==> Stacks(a.entries[k], b.entries[k], c.entries[k])
      {
        AssociativeIff(a.entries[k], b.entries[k], c.entries[k]);
        TwiceAt(a, b, c, k);
      }
      forall k <- left.entries.Keys | !(k in a.entries && k in b.entries && k in c.entries)
        ensures left.entries[k] == right.entries[k]
      {
      }
      assert left.entries.Keys == right.entries.Keys;
      if Stacks(a, b, c) {
        assert left.entries == right.entries;
      } else {
        var k :| k in a.entries && k in b.entries && k in c.entries
                 && !Stacks(a.entries[k], b.entries[k], c.entries[k]);
        assert left.entries[k] != right.entries[k];
      }
    }
  }

  lemma TwiceAt(a: Value, b: Value, c: Value, k: Text)
    requires a.Table? && b.Table? && c.Table? && k in a.entries && k in b.entries && k in c.entries
    ensures Merge(Merge(a, b), c).entries[k] == Merge(Merge(a.entries[k], b.entries[k]), c.entries[k])
    ensures Merge(a, Merge(b, c)).entries[k] == Merge(a.entries[k], Merge(b.entries[k], c.entries[k]))
  {
  }

  /** No path is a dict, then something else, then a dict again. */
  ghost predicate NoClash(a: Value, b: Value, c: Value) {
    forall path :: !(KindAt(a, path).TableAt? && KindAt(b, path).LeafAt? && KindAt(c, path).TableAt?)
  }

  lemma {:induction false} AssociativeWithoutClash(a: Value, b: Value, c: Value)
    requires NoClash(a, b, c)
    ensures Stacks(a, b, c) && Merge(Merge(a, b), c) == Merge(a, Merge(b, c))
    decreases a
  {
    assert !(KindAt(a, []).TableAt? && KindAt(b, []).LeafAt? && KindAt(c, []).TableAt?);
    if a.Table? && b.Table? && c.Table? {
      forall k <- a.entries.Keys | k in b.entries && k in c.entries
        ensures Stacks(a.entries[k], b.entries[k], c.entries[k])
      {
        forall path: Path
          ensures !(KindAt(a.entries[k], path).TableAt? && KindAt(b.entries[k], path).LeafAt?
                    && KindAt(c.entries[k], path).TableAt?)
        {
          assert ([k] + path)[1..] == path;
          assert !(KindAt(a, [k] + path).TableAt? && KindAt(b, [k] + path).LeafAt? && KindAt(c, [k] + path).TableAt?);
        }
        AssociativeWithoutClash(a.entries[k], b.entries[k], c.entries[k]);
      }
    }
    AssociativeIff(a, b, c);
  }

  /******* Trust *******/

  const BLOCKED_KEYS: set<Text> := {Ascii("env"), Ascii("providers"), Ascii("default_provider")}

  function StripUntrusted(tier: Dict): Dict {
    tier - BLOCKED_KEYS
  }

  /** The tiers in order: global, project, local. */
  function MergedTiers(trusted: bool, g: Dict, p: Dict, l: Dict): Dict {
    if trusted then MergeDicts(MergeDicts(g, p), l)
    else MergeDicts(MergeDicts(g, StripUntrusted(p)), StripUntrusted(l))
  }

  /** Both say the same about `key`. */
  predicate SameAt(a: Dict, b: Dict, key: Text) {
    (key in a <==> key in b) && (key in a && key in b ==> a[key] == b[key])
  }

  /** Without trust the project and local tiers have no say on the blocked keys, and
      all their say on every other key. */
  lemma TrustBoundary(g: Dict, p: Dict, l: Dict, key: Text)
    ensures SameAt(MergedTiers(false, g, p, l), if key in BLOCKED_KEYS then g else MergedTiers(true, g, p, l), key)
  {
    hide StripUntrusted;
    StripsBlocked(p, key);
    StripsBlocked(l, key);
  }

  lemma StripsBlocked(tier: Dict, key: Text)
    ensures key in StripUntrusted(tier) <==> key in tier && key !in BLOCKED_KEYS
    ensures key in StripUntrusted(tier) ==> StripUntrusted(tier)[key] == tier[key]
  {
  }

  /** The keys that an untrusted directory has no say on. */
  lemma BlockedKeysAre(key: Text)
    ensures key in BLOCKED_KEYS <==> key == Ascii("env") || key == Ascii("providers") || key == Ascii("default_provider")
  {
  }

  lemma KindInside(d: Dict, e: Dict, path: Path)
    requires path != [] && SameAt(d, e, path[0])
    ensures KindAt(Table(d), path) == KindAt(Table(e), path) && Blocked(Table(d), path) == Blocked(Table(e), path)
  {
  }

  /** Where a tier has its say: it has something there, or a leaf on the way. */
  predicate Decides(tier: Dict, path: Path) {
    !KindAt(Table(tier), path).Absent? || Blocked(Table(tier), path)
  }

  lemma MergedDicts(base: Dict, over: Dict, path: Path)
    ensures KindAt(Table(MergeDicts(base, over)), path)
         == if Decides(over, path) then KindAt(Table(over), path) else KindAt(Table(base), path)
  {
    var m := Merge(Table(base), Table(over));
    assert m == Table(m.entries);
    PathLaw(Table(base), Table(over), path);
  }

  /** Global below project below local: along every path the highest tier that has a
      say decides, where an untrusted project or local tier has none on the blocked
      keys. */
  lemma Precedence(trusted: bool, g: Dict, p: Dict, l: Dict, path: Path)
    requires path != []
    ensures
      var heard := trusted || (path[0] != Ascii("env") && path[0] != Ascii("providers")
                               && path[0] != Ascii("default_provider"));
      KindAt(Table(MergedTiers(trusted, g, p, l)), path)
      == if heard && Decides(l, path) then KindAt(Table(l), path)
         else if heard && Decides(p, path) then KindAt(Table(p), path)
         else KindAt(Table(g), path)
  {
    hide MergeDicts, StripUntrusted, Decides;
    BlockedKeysAre(path[0]);
    if trusted {
      MergedDicts(MergeDicts(g, p), l, path);
      MergedDicts(g, p, path);
    } else {
      MergedDicts(MergeDicts(g, StripUntrusted(p)), StripUntrusted(l), path);
      MergedDicts(g, StripUntrusted(p), path);
      StrippedDecides(p, path);
      StrippedDecides(l, path);
    }
  }

  lemma StrippedDecides(tier: Dict, path: Path)
    requires path != []
    ensures Decides(StripUntrusted(tier), path) <==> path[0] !in BLOCKED_KEYS && Decides(tier, path)
    ensures path[0] !in BLOCKED_KEYS ==> KindAt(Table(StripUntrusted(tier)), path) == KindAt(Table(tier), path)
  {
    hide StripUntrusted;
    StripsBlocked(tier, path[0]);
    if path[0] !in BLOCKED_KEYS {
      KindInside(StripUntrusted(tier), tier, path);
    }
  }
}
