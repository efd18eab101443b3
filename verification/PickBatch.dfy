/** Picking the next batch, one instance per repository in turn
    (eval/pick_batch.py:58-105). */
module PickBatch {
  import opened Unicode
  import opened Json

  datatype Row = Row(id: Text, repo: Text)

  function Ids(rows: seq<Row>): (ids: seq<Text>)
    ensures |ids| == |rows| && forall i :: 0 <= i < |ids| ==> ids[i] == rows[i].id
  {
    seq(|rows|, i requires 0 <= i < |rows| => rows[i].id)
  }

  function Min(a: int, b: int): int {
    if a < b then a else b
  }

  /******* The order of repositories *******/

  /** Python's order on strings: by code point, a prefix first. */
  predicate Less(a: Text, b: Text) {
    if b == [] then false
    else if a == [] then true
    else a[0] < b[0] || (a[0] == b[0] && Less(a[1..], b[1..]))
  }

  /** Decided at the first difference, or by the end of the shorter one. */
  lemma {:induction false} LessAt(a: Text, b: Text, k: nat)
    requires k <= |a| && k <= |b| && a[..k] == b[..k]
    ensures k < |a| && k < |b| && a[k] < b[k] ==> Less(a, b) && !Less(b, a)
    ensures k == |a| && k < |b| ==> Less(a, b) && !Less(b, a)
  {
    if k > 0 {
      assert a[..k][0] == b[..k][0];
      assert a[1..][..k - 1] == a[..k][1..] && b[1..][..k - 1] == b[..k][1..];
      LessAt(a[1..], b[1..], k - 1);
    }
  }

  lemma {:induction false} LessIsTotal(a: Text, b: Text)
    ensures !Less(a, a) && !(Less(a, b) && Less(b, a))
    ensures a != b ==> Less(a, b) || Less(b, a)
  {
    if a != [] {
      LessIsTotal(a[1..], if b == [] then [] else b[1..]);
      if b != [] {
        assert a == [a[0]] + a[1..] && b == [b[0]] + b[1..];
      }
    }
  }

  lemma {:induction false} LessIsTransitive(a: Text, b: Text, c: Text)
    requires Less(a, b) && Less(b, c)
    ensures Less(a, c)
  {
    if a != [] && a[0] == b[0] && b[0] == c[0] {
      LessIsTransitive(a[1..], b[1..], c[1..]);
    }
  }

  predicate Ascending(s: seq<Text>) {
    forall i, j :: 0 <= i < j < |s| ==> Less(s[i], s[j])
  }

  function Insert(x: Text, s: seq<Text>): seq<Text> {
    if s == [] then [x]
    else if x == s[0] then s
    else if Less(x, s[0]) then [x] + s
    else [s[0]] + Insert(x, s[1..])
  }

  lemma {:induction false} InsertKeepsOrder(x: Text, s: seq<Text>)
    requires Ascending(s)
    ensures Ascending(Insert(x, s)) && forall y :: y in Insert(x, s) <==> y == x || y in s
  {
    hide Less;
    if s != [] && x != s[0] {
      assert s == [s[0]] + s[1..];
      LessIsTotal(x, s[0]);
      if Less(x, s[0]) {
        forall j | 0 <= j < |s|
          ensures Less(x, s[j])
        {
          if j > 0 {
            LessIsTransitive(x, s[0], s[j]);
          }
        }
      } else {
        InsertKeepsOrder(x, s[1..]);
        var rest := Insert(x, s[1..]);
        forall j | 0 <= j < |rest|
          ensures Less(s[0], rest[j])
        {
          assert rest[j] in rest;
        }
      }
    }
  }

  /** Sorting has one answer. */
  lemma {:induction false} AscendingIsUnique(s: seq<Text>, t: seq<Text>)
    requires Ascending(s) && Ascending(t) && forall y :: y in s <==> y in t
    ensures s == t
  {
    hide Less;
    assert t != [] ==> t[0] in t;
    if s != [] {
      assert s[0] in t;
      assert t[0] in s;
      if s[0] != t[0] {
        LessIsTotal(s[0], t[0]);
        assert false;
      }
      LessIsTotal(s[0], s[0]);
      assert s == [s[0]] + s[1..] && t == [t[0]] + t[1..];
      forall y
        ensures y in s[1..] <==> y in t[1..]
      {
        assert y in s[1..] ==> Less(s[0], y);
        assert y in t[1..] ==> Less(t[0], y);
        assert y in s <==> y in t;
      }
      AscendingIsUnique(s[1..], t[1..]);
    }
  }

  method SortKeys(keys: set<Text>) returns (s: seq<Text>)
    ensures Ascending(s) && forall y :: y in s <==> y in keys
  {
    s := [];
    var todo := keys;
    while todo != {}
      invariant todo <= keys && Ascending(s) && forall y :: y in s <==> y in keys && y !in todo
      decreases |todo|
    {
      var k :| k in todo;
      InsertKeepsOrder(k, s);
      s, todo := Insert(k, s), todo - {k};
    }
  }

  /** The repositories of `rows`, in order. */
  function Repos(rows: seq<Row>): seq<Text> {
    if rows == [] then [] else Insert(rows[|rows| - 1].repo, Repos(rows[..|rows| - 1]))
  }

  lemma {:induction false} ReposAreSorted(rows: seq<Row>)
    ensures Ascending(Repos(rows))
    ensures forall y :: y in Repos(rows) <==> exists i :: 0 <= i < |rows| && rows[i].repo == y
  {
    hide Ascending, Insert;
    if rows == [] {
      assert Ascending([]) by { AscendingEmpty(); }
    } else {
      ReposAreSorted(rows[..|rows| - 1]);
      InsertKeepsOrder(rows[|rows| - 1].repo, Repos(rows[..|rows| - 1]));
    }
  }

  lemma AscendingEmpty()
    ensures Ascending([])
  {
  }

  /******* The batch *******/

  /** The rows of one repository, in dataset order. */
  function RowsOf(rows: seq<Row>, repo: Text): seq<Row> {
    if rows == [] then []
    else
      var before := RowsOf(rows[..|rows| - 1], repo);
      if rows[|rows| - 1].repo == repo then before + [rows[|rows| - 1]] else before
  }

  function Queues(rows: seq<Row>): (qs: seq<seq<Row>>)
    ensures |qs| == |Repos(rows)| && forall i :: 0 <= i < |qs| ==> qs[i] == RowsOf(rows, Repos(rows)[i])
  {
    seq(|Repos(rows)|, i requires 0 <= i < |Repos(rows)| => RowsOf(rows, Repos(rows)[i]))
  }

  /** Round `r` over the first `i` queues: the next row of each that has one. */
  function Round(qs: seq<seq<Row>>, r: nat, i: nat): seq<Row>
    requires i <= |qs|
    decreases i
  {
    if i == 0 then []
    else if r < |qs[i - 1]| then Round(qs, r, i - 1) + [qs[i - 1][r]]
    else Round(qs, r, i - 1)
  }

  function Rounds(qs: seq<seq<Row>>, r: nat): seq<Row> {
    if r == 0 then [] else Rounds(qs, r - 1) + Round(qs, r - 1, |qs|)
  }

  function Longest(qs: seq<seq<Row>>): (n: nat)
    ensures forall q <- qs :: |q| <= n
  {
    if qs == [] then 0
    else
      assert qs == qs[..|qs| - 1] + [qs[|qs| - 1]];
      var before := Longest(qs[..|qs| - 1]);
      if |qs[|qs| - 1]| > before then |qs[|qs| - 1]| else before
  }

  /** All the rows, round after round. */
  function FullOrder(rows: seq<Row>): seq<Row> {
    Rounds(Queues(rows), Longest(Queues(rows)))
  }

  function Picked(rows: seq<Row>, n: int): seq<Row> {
    var all := FullOrder(rows);
    if n <= 0 then [] else all[..Min(n, |all|)]
  }

  /** The state of the loop: `r` whole rounds, then the first `i` queues once more. */
  function Taken(qs: seq<seq<Row>>, r: nat, i: nat): seq<Row>
    requires i <= |qs|
  {
    Rounds(qs, r) + Round(qs, r, i)
  }

  lemma TakenNext(qs: seq<seq<Row>>, r: nat, i: nat)
    requires i < |qs|
    ensures Taken(qs, r, i + 1) == if r < |qs[i]| then Taken(qs, r, i) + [qs[i][r]] else Taken(qs, r, i)
    ensures Taken(qs, r, 0) == Rounds(qs, r)
  {
    hide Rounds;
  }

  lemma TakenAll(qs: seq<seq<Row>>, r: nat)
    ensures Taken(qs, r, 0) == Rounds(qs, r) && Taken(qs, r, |qs|) == Rounds(qs, r + 1)
  {
  }

  lemma {:induction false} RoundGrows(qs: seq<seq<Row>>, r: nat, i: nat, j: nat)
    requires i <= j <= |qs|
    ensures Taken(qs, r, i) <= Taken(qs, r, j)
    decreases j - i
  {
    if i < j {
      RoundGrows(qs, r, i, j - 1);
      TakenNext(qs, r, j - 1);
    }
  }

  lemma {:induction false} RoundsGrow(qs: seq<seq<Row>>, r: nat, s: nat)
    requires r <= s
    ensures Rounds(qs, r) <= Rounds(qs, s)
  {
    if r < s {
      RoundsGrow(qs, r, s - 1);
    }
  }

  lemma {:induction false} NothingLeft(qs: seq<seq<Row>>, r: nat, i: nat)
    requires i <= |qs| && forall q <- qs :: |q| <= r
    ensures Round(qs, r, i) == []
    decreases i
  {
    if i > 0 {
      NothingLeft(qs, r, i - 1);
      assert qs[i - 1] in qs;
    }
  }

  lemma {:induction false} RoundsEnd(qs: seq<seq<Row>>, r: nat, s: nat)
    requires (forall q <- qs :: |q| <= r) && r <= s
    ensures Rounds(qs, s) == Rounds(qs, r)
  {
    hide Round;
    if r < s {
      RoundsEnd(qs, r, s - 1);
      NothingLeft(qs, s - 1, |qs|);
    }
  }

  /** Every state of the loop is a prefix of the full order. */
  lemma TakenIsPrefix(rows: seq<Row>, r: nat, i: nat)
    requires i <= |Queues(rows)|
    ensures Taken(Queues(rows), r, i) <= FullOrder(rows)
  {
    hide Queues, Longest, Rounds;
    var qs := Queues(rows);
    RoundGrows(qs, r, i, |qs|);
    TakenAll(qs, r);
    var s := if Longest(qs) < r + 1 then r + 1 else Longest(qs);
    RoundsGrow(qs, r + 1, s);
    RoundsEnd(qs, Longest(qs), s);
  }

  /** And every prefix of the full order is a state of the loop. */
  lemma {:induction false} PrefixIsTaken(qs: seq<seq<Row>>, s: nat, k: nat) returns (r: nat, i: nat)
    requires k <= |Rounds(qs, s)|
    ensures i <= |qs| && Rounds(qs, s)[..k] == Taken(qs, r, i)
  {
    if s == 0 {
      r, i := 0, 0;
      TakenAll(qs, 0);
    } else if k <= |Rounds(qs, s - 1)| {
      r, i := PrefixIsTaken(qs, s - 1, k);
      assert Rounds(qs, s)[..k] == Rounds(qs, s - 1)[..k];
    } else {
      r := s - 1;
      TakenAll(qs, r);
      i := WithinRound(qs, r, k, |qs|);
    }
  }

  lemma {:induction false} WithinRound(qs: seq<seq<Row>>, r: nat, k: nat, upTo: nat) returns (i: nat)
    requires upTo <= |qs| && |Rounds(qs, r)| <= k <= |Taken(qs, r, upTo)|
    ensures i <= |qs| && Taken(qs, r, upTo)[..k] == Taken(qs, r, i)
  {
    hide Taken, Rounds;
    TakenAll(qs, r);
    if k == |Taken(qs, r, upTo)| {
      i := upTo;
      assert Taken(qs, r, upTo)[..k] == Taken(qs, r, upTo);
    } else {
      assert upTo > 0;
      TakenNext(qs, r, upTo - 1);
      i := WithinRound(qs, r, k, upTo - 1);
      assert Taken(qs, r, upTo)[..k] == Taken(qs, r, upTo - 1)[..k];
    }
  }

  /******* What a state of the loop holds *******/

  /** Queue `j` holds rows of repository `repos[j]` only, and no two are for the same. */
  ghost predicate Sorted(qs: seq<seq<Row>>, repos: seq<Text>) {
    && |qs| == |repos| && (forall i, j :: 0 <= i < j < |repos| ==> repos[i] != repos[j])
    && forall j, k :: 0 <= j < |qs| && 0 <= k < |qs[j]| ==> qs[j][k].repo == repos[j]
  }

  lemma {:induction false} RowsOfConcat(a: seq<Row>, b: seq<Row>, repo: Text)
    ensures RowsOf(a + b, repo) == RowsOf(a, repo) + RowsOf(b, repo)
  {
    if b == [] {
      assert a + b == a;
    } else {
      RowsOfConcat(a, b[..|b| - 1], repo);
      assert (a + b)[..|a + b| - 1] == a + b[..|b| - 1];
    }
  }

  lemma {:induction false} RowsOfRound(qs: seq<seq<Row>>, repos: seq<Text>, r: nat, i: nat, j: nat)
    requires Sorted(qs, repos) && i <= |qs| && j < |qs|
    ensures RowsOf(Round(qs, r, i), repos[j]) == if j < i && r < |qs[j]| then [qs[j][r]] else []
    decreases i
  {
    assert |qs| == |repos|;
    hide Sorted, RowsOf;
    RowsOfNone(repos[j]);
    if i > 0 {
      RowsOfRound(qs, repos, r, i - 1, j);
      if r < |qs[i - 1]| {
        RowsOfPushed(Round(qs, r, i - 1), qs[i - 1][r], repos[j]);
        QueueRepo(qs, repos, i - 1, r, j);
      }
    }
  }

  lemma RowsOfPushed(rows: seq<Row>, row: Row, repo: Text)
    ensures RowsOf(rows + [row], repo) == if row.repo == repo then RowsOf(rows, repo) + [row] else RowsOf(rows, repo)
  {
    assert (rows + [row])[..|rows|] == rows;
  }

  lemma QueueRepo(qs: seq<seq<Row>>, repos: seq<Text>, i: nat, r: nat, j: nat)
    requires Sorted(qs, repos) && i < |qs| && j < |qs| && r < |qs[i]|
    ensures qs[i][r].repo == repos[j] <==> i == j
  {
    assert i != j ==> repos[i] != repos[j];
  }

  lemma {:induction false} RowsOfRounds(qs: seq<seq<Row>>, repos: seq<Text>, r: nat, j: nat)
    requires Sorted(qs, repos) && j < |qs|
    ensures RowsOf(Rounds(qs, r), repos[j]) == qs[j][..Min(r, |qs[j]|)]
  {
    hide RowsOf, Round;
    if r == 0 {
      RowsOfNone(repos[j]);
    } else {
      RowsOfRounds(qs, repos, r - 1, j);
      RowsOfConcat(Rounds(qs, r - 1), Round(qs, r - 1, |qs|), repos[j]);
      RowsOfRound(qs, repos, r - 1, |qs|, j);
    }
  }

  lemma RowsOfNone(repo: Text)
    ensures RowsOf([], repo) == []
  {
  }

  /** How far a queue has come: as many rows as rounds it took part in. */
  lemma RowsOfTaken(qs: seq<seq<Row>>, repos: seq<Text>, r: nat, i: nat, j: nat)
    requires Sorted(qs, repos) && i <= |qs| && j < |qs|
    ensures RowsOf(Taken(qs, r, i), repos[j]) == qs[j][..Min(if j < i then r + 1 else r, |qs[j]|)]
  {
    hide RowsOf, Rounds, Round;
    RowsOfRounds(qs, repos, r, j);
    RowsOfRound(qs, repos, r, i, j);
    RowsOfConcat(Rounds(qs, r), Round(qs, r, i), repos[j]);
  }

  lemma {:induction false} RowsOfRepo(rows: seq<Row>, repo: Text)
    ensures forall k :: 0 <= k < |RowsOf(rows, repo)| ==> RowsOf(rows, repo)[k].repo == repo
    ensures forall x: Row :: multiset(RowsOf(rows, repo))[x] == if x.repo == repo then multiset(rows)[x] else 0
  {
    if rows != [] {
      RowsOfRepo(rows[..|rows| - 1], repo);
      assert rows == rows[..|rows| - 1] + [rows[|rows| - 1]];
    }
  }

  lemma QueuesAreSorted(rows: seq<Row>)
    ensures Sorted(Queues(rows), Repos(rows))
  {
    hide RowsOf, Less;
    ReposAreSorted(rows);
    forall i, j | 0 <= i < j < |Repos(rows)|
      ensures Repos(rows)[i] != Repos(rows)[j]
    {
      LessIsTotal(Repos(rows)[i], Repos(rows)[i]);
    }
    forall j | 0 <= j < |Queues(rows)|
      ensures forall k :: 0 <= k < |Queues(rows)[j]| ==> Queues(rows)[j][k].repo == Repos(rows)[j]
    {
      RowsOfRepo(rows, Repos(rows)[j]);
    }
  }

  /******* The promises *******/

  /** Within each repository the batch is a prefix of dataset order, and a
      repository with rows left is at most one behind any other. */
  lemma Fair(rows: seq<Row>, n: int, i: nat, j: nat)
    requires i < |Repos(rows)| && j < |Repos(rows)|
    ensures
      var a, b := Repos(rows)[i], Repos(rows)[j];
      var batch := Picked(rows, n);
      && RowsOf(batch, a) <= RowsOf(rows, a)
      && (|RowsOf(batch, a)| < |RowsOf(rows, a)| ==> |RowsOf(batch, b)| <= |RowsOf(batch, a)| + 1)
  {
    hide RowsOf, Rounds, Repos, Taken, Sorted;
    var qs, repos := Queues(rows), Repos(rows);
    QueuesAreSorted(rows);
    var k := |Picked(rows, n)|;
    assert Picked(rows, n) == FullOrder(rows)[..k];
    var r, m := PrefixIsTaken(qs, Longest(qs), k);
    RowsOfTaken(qs, repos, r, m, i);
    RowsOfTaken(qs, repos, r, m, j);
  }

  /** How many rows of its own repository stand before position `k`. */
  function Turn(order: seq<Row>, k: nat): nat
    requires k < |order|
  {
    |RowsOf(order[..k], order[k].repo)|
  }

  /** Of `k` and `m`, rows `x` and `y`: an earlier turn, or the same turn and an
      earlier repository. */
  predicate Before(k: nat, x: Row, m: nat, y: Row) {
    k < m || (k == m && Less(x.repo, y.repo))
  }

  lemma TurnStays(order: seq<Row>, more: seq<Row>, k: nat)
    requires k < |order|
    ensures Turn(order + more, k) == Turn(order, k)
  {
    assert (order + more)[..k] == order[..k];
  }

  /** A state of the loop: every row's turn is at most `r`, and less than `r` or of
      one of the first `i` repositories. */
  lemma {:induction false} TakenIsOrdered(qs: seq<seq<Row>>, repos: seq<Text>, r: nat, i: nat)
    requires Sorted(qs, repos) && Ascending(repos) && i <= |qs|
    ensures var order := Taken(qs, r, i);
      && (forall k :: 0 <= k < |order| ==> Turn(order, k) < r || (Turn(order, k) == r && i > 0
                                            && (order[k].repo == repos[i - 1] || Less(order[k].repo, repos[i - 1]))))
      && forall k, m :: 0 <= k < m < |order| ==> Before(Turn(order, k), order[k], Turn(order, m), order[m])
    decreases r, i
  {
    hide Taken, RowsOf, Less, Sorted, Ascending, Turn;
    SortedShape(qs, repos);
    if i > 0 {
      TakenIsOrdered(qs, repos, r, i - 1);
      TakenNext(qs, r, i - 1);
      AscendingAt(repos, i - 1);
      if r < |qs[i - 1]| {
        NextIsLast(qs, repos, r, i - 1);
      }
    } else if r > 0 {
      TakenAll(qs, r);
      TakenAll(qs, r - 1);
      TakenIsOrdered(qs, repos, r - 1, |qs|);
    } else {
      TakenNothing(qs);
    }
  }

  lemma SortedShape(qs: seq<seq<Row>>, repos: seq<Text>)
    requires Sorted(qs, repos)
    ensures |qs| == |repos|
  {
  }

  lemma AscendingAt(repos: seq<Text>, i: nat)
    requires Ascending(repos) && i < |repos|
    ensures i > 0 ==> Less(repos[i - 1], repos[i])
    ensures i > 0 ==> forall t: Text :: Less(t, repos[i - 1]) ==> Less(t, repos[i])
  {
    hide Less;
    if i > 0 {
      forall t: Text | Less(t, repos[i - 1])
        ensures Less(t, repos[i])
      {
        LessIsTransitive(t, repos[i - 1], repos[i]);
      }
    }
  }

  lemma TakenNothing(qs: seq<seq<Row>>)
    ensures Taken(qs, 0, 0) == []
  {
  }

  /** The row taken next has the turn `r`, and the turns before it do not change. */
  lemma NextIsLast(qs: seq<seq<Row>>, repos: seq<Text>, r: nat, i: nat)
    requires Sorted(qs, repos) && i < |qs| == |repos| && r < |qs[i]|
    ensures var order, next := Taken(qs, r, i), Taken(qs, r, i) + [qs[i][r]];
      && qs[i][r].repo == repos[i] && Turn(next, |order|) == r
      && forall k :: 0 <= k < |order| ==> Turn(next, k) == Turn(order, k)
  {
    QueueRepo(qs, repos, i, r, i);
    RowsOfTaken(qs, repos, r, i, i);
    hide Taken, RowsOf, Sorted;
    var order := Taken(qs, r, i);
    var next := order + [qs[i][r]];
    assert next[..|order|] == order;
    forall k | 0 <= k < |order|
      ensures Turn(next, k) == Turn(order, k)
    {
      TurnStays(order, [qs[i][r]], k);
    }
  }

  /** The order of the batch: turn by turn, and within a turn by repository. */
  lemma FullOrderIsOrdered(rows: seq<Row>, k: nat, m: nat)
    requires k < m < |FullOrder(rows)|
    ensures var order := FullOrder(rows); Before(Turn(order, k), order[k], Turn(order, m), order[m])
  {
    hide Taken, RowsOf, Less, Sorted, Turn, Before, Rounds, Repos;
    var qs := Queues(rows);
    QueuesAreSorted(rows);
    ReposAreSorted(rows);
    TakenAll(qs, Longest(qs));
    TakenIsOrdered(qs, Repos(rows), Longest(qs), 0);
  }

  /** The whole order holds every row once. */
  lemma FullOrderIsAll(rows: seq<Row>)
    ensures multiset(FullOrder(rows)) == multiset(rows) && |FullOrder(rows)| == |rows|
  {
    hide RowsOf, Rounds, Sorted;
    var qs, repos, all := Queues(rows), Repos(rows), FullOrder(rows);
    QueuesAreSorted(rows);
    forall x: Row
      ensures multiset(all)[x] == multiset(rows)[x]
    {
      CountedAlike(rows, x);
    }
    assert |multiset(all)| == |all| && |multiset(rows)| == |rows|;
  }

  lemma {:induction false} RoundsHoldQueued(qs: seq<seq<Row>>, s: nat, x: Row)
    requires x in Rounds(qs, s)
    ensures exists j :: 0 <= j < |qs| && x in qs[j]
  {
    hide Round;
    if x in Rounds(qs, s - 1) {
      RoundsHoldQueued(qs, s - 1, x);
    } else {
      RoundHoldsQueued(qs, s - 1, |qs|, x);
    }
  }

  lemma {:induction false} RoundHoldsQueued(qs: seq<seq<Row>>, r: nat, i: nat, x: Row)
    requires i <= |qs| && x in Round(qs, r, i)
    ensures exists j :: 0 <= j < |qs| && x in qs[j]
    decreases i
  {
    if x in Round(qs, r, i - 1) {
      RoundHoldsQueued(qs, r, i - 1, x);
    } else {
      assert x in qs[i - 1];
    }
  }

  lemma CountedAlike(rows: seq<Row>, x: Row)
    ensures multiset(FullOrder(rows))[x] == multiset(rows)[x]
  {
    hide RowsOf, Rounds, Longest, Sorted, Repos;
    var qs, repos, all := Queues(rows), Repos(rows), FullOrder(rows);
    QueuesAreSorted(rows);
    ReposAreSorted(rows);
    RowsOfRepo(all, x.repo);
    RowsOfRepo(rows, x.repo);
    if x in all {
      RoundsHoldQueued(qs, Longest(qs), x);
      var j :| 0 <= j < |qs| && x in qs[j];
      RowsOfRepo(rows, repos[j]);
      assert x in multiset(RowsOf(rows, repos[j]));
    }
    assert x in all ==> x in multiset(rows);
    if x.repo in repos {
      var j :| 0 <= j < |repos| && repos[j] == x.repo;
      RowsOfRounds(qs, repos, Longest(qs), j);
      assert qs[j] in qs;
      assert qs[j][..|qs[j]|] == qs[j];
      assert RowsOf(all, x.repo) == RowsOf(rows, x.repo);
    } else {
      assert x !in rows;
    }
  }

  predicate DistinctIds(rows: seq<Row>) {
    forall i, j :: 0 <= i < j < |rows| ==> rows[i].id != rows[j].id
  }

  lemma NoRepeats<T>(s: seq<T>, i: nat, j: nat)
    requires i < j < |s| && multiset(s)[s[j]] <= 1
    ensures s[i] != s[j]
  {
    assert s == s[..j] + [s[j]] + s[j + 1..];
    assert s[i] == s[..j][i];
    assert multiset(s)[s[j]] == multiset(s[..j])[s[j]] + 1 + multiset(s[j + 1..])[s[j]];
  }

  lemma {:induction false} OnceEach(rows: seq<Row>, x: Row)
    requires DistinctIds(rows)
    ensures multiset(rows)[x] <= 1
  {
    if rows != [] {
      var before, last := rows[..|rows| - 1], rows[|rows| - 1];
      OnceEach(before, x);
      assert rows == before + [last];
      assert last !in before;
    }
  }

  lemma DistinctByCount(a: seq<Row>, b: seq<Row>)
    requires multiset(a) <= multiset(b) && DistinctIds(b)
    ensures DistinctIds(a)
  {
    forall i, j | 0 <= i < j < |a|
      ensures a[i].id != a[j].id
    {
      OnceEach(b, a[j]);
      NoRepeats(a, i, j);
      assert a[i] in multiset(a) && a[j] in multiset(a);
      assert a[i] in b && a[j] in b;
    }
  }

  /** The batch has `n` rows, or all there are; their ids are distinct when the
      dataset's are; and a larger batch extends it. */
  lemma PickedCounts(rows: seq<Row>, n: int, m: int)
    requires n <= m
    ensures |Picked(rows, n)| == Min(if n < 0 then 0 else n, |rows|)
    ensures multiset(Picked(rows, n)) <= multiset(rows)
    ensures DistinctIds(rows) ==> DistinctIds(Picked(rows, n))
    ensures Picked(rows, n) <= Picked(rows, m)
  {
    hide FullOrder;
    FullOrderIsAll(rows);
    var all, k := FullOrder(rows), |Picked(rows, n)|;
    assert all == all[..k] + all[k..];
    if DistinctIds(rows) {
      DistinctByCount(Picked(rows, n), rows);
    }
  }

  /******* The loops *******/

  function UnseenRows(rows: seq<Row>, seen: set<Text>): seq<Row> {
    if rows == [] then []
    else
      var before := UnseenRows(rows[..|rows| - 1], seen);
      if rows[|rows| - 1].id !in seen then before + [rows[|rows| - 1]] else before
  }

  /** `byRepo` holds each repository's queue with its first rows popped: `popped(repo)` of them. */
  ghost predicate Holds(byRepo: map<Text, seq<Text>>, rows: seq<Row>, r: nat, i: nat) {
    var qs, repos := Queues(rows), Repos(rows);
    && (forall repo :: repo in byRepo <==> repo in repos)
    && forall j :: 0 <= j < |repos| ==>
         repos[j] in byRepo && byRepo[repos[j]] == Ids(qs[j][Min(if j < i then r + 1 else r, |qs[j]|)..])
  }

  /** Every repository's ids, in dataset order. */
  ghost predicate Groups(byRepo: map<Text, seq<Text>>, rows: seq<Row>) {
    && (forall repo :: repo in byRepo <==> repo in Repos(rows))
    && forall repo <- byRepo.Keys :: byRepo[repo] == Ids(RowsOf(rows, repo))
  }

  lemma GroupOne(byRepo: map<Text, seq<Text>>, rows: seq<Row>, row: Row)
    requires Groups(byRepo, rows)
    ensures Groups(byRepo[row.repo := (if row.repo in byRepo then byRepo[row.repo] else []) + [row.id]], rows + [row])
  {
    hide Repos, RowsOf;
    Grouped(rows, row);
  }

  lemma GroupsHold(byRepo: map<Text, seq<Text>>, rows: seq<Row>)
    requires Groups(byRepo, rows)
    ensures Holds(byRepo, rows, 0, 0)
  {
    hide Repos, RowsOf;
    var qs := Queues(rows);
    forall j | 0 <= j < |qs|
      ensures Min(0, |qs[j]|) == 0 && qs[j][0..] == qs[j] && Repos(rows)[j] in byRepo
    {
    }
  }

  method GroupByRepo(rows: seq<Row>) returns (byRepo: map<Text, seq<Text>>)
    ensures Holds(byRepo, rows, 0, 0)
  {
    byRepo := map[];
    for n := 0 to |rows|
      invariant Groups(byRepo, rows[..n])
    {
      var row := rows[n];
      assert rows[..n + 1] == rows[..n] + [row];
      GroupOne(byRepo, rows[..n], row);
      byRepo := byRepo[row.repo := (if row.repo in byRepo then byRepo[row.repo] else []) + [row.id]];
    }
    assert rows[..|rows|] == rows;
    GroupsHold(byRepo, rows);
  }

  lemma Grouped(rows: seq<Row>, row: Row)
    ensures forall repo :: repo in Repos(rows + [row]) <==> repo == row.repo || repo in Repos(rows)
    ensures forall repo ::
      RowsOf(rows + [row], repo) == if row.repo == repo then RowsOf(rows, repo) + [row] else RowsOf(rows, repo)
    ensures row.repo !in Repos(rows) ==> RowsOf(rows, row.repo) == []
  {
    assert (rows + [row])[..|rows|] == rows;
    ReposAreSorted(rows);
    InsertKeepsOrder(row.repo, Repos(rows));
    RowsOfRepo(rows, row.repo);
    var mine := RowsOf(rows, row.repo);
    assert mine != [] ==> mine[0] in multiset(mine);
  }

  lemma PopOne(byRepo: map<Text, seq<Text>>, rows: seq<Row>, r: nat, i: nat)
    requires Holds(byRepo, rows, r, i) && i < |Repos(rows)|
    ensures
      var queue := byRepo[Repos(rows)[i]];
      && (queue == [] <==> r >= |Queues(rows)[i]|)
      && (queue == [] ==> Holds(byRepo, rows, r, i + 1))
      && (queue != [] ==> queue[0] == Queues(rows)[i][r].id
                          && Holds(byRepo[Repos(rows)[i] := queue[1..]], rows, r, i + 1))
  {
    hide RowsOf, Repos, Ids;
    QueuesAreSorted(rows);
  }

  lemma HoldsKeys(byRepo: map<Text, seq<Text>>, rows: seq<Row>, r: nat, i: nat, repos: seq<Text>)
    requires Holds(byRepo, rows, r, i)
    requires Ascending(repos) && forall y :: y in repos <==> y in byRepo.Keys
    ensures repos == Repos(rows) && |repos| == |Queues(rows)|
  {
    ReposAreSorted(rows);
    AscendingIsUnique(repos, Repos(rows));
  }

  lemma RoundDone(byRepo: map<Text, seq<Text>>, rows: seq<Row>, r: nat)
    requires Holds(byRepo, rows, r, |Repos(rows)|)
    ensures Holds(byRepo, rows, r + 1, 0)
  {
    hide Repos, Queues, Ids;
  }

  /** One pass over the repositories; `i` is how far it came when the batch is full. */
  method PickRound(byRepo: map<Text, seq<Text>>, chosen: seq<Text>, n: int, ghost unseen: seq<Row>, ghost r: nat)
    returns (rest: map<Text, seq<Text>>, longer: seq<Text>, added: bool, ghost i: nat)
    requires Holds(byRepo, unseen, r, 0) && chosen == Ids(Taken(Queues(unseen), r, 0)) && |chosen| < n
    ensures i <= |Queues(unseen)| && longer == Ids(Taken(Queues(unseen), r, i)) && |chosen| <= |longer| <= n
    ensures |longer| < n ==> i == |Queues(unseen)| && Holds(rest, unseen, r + 1, 0)
    ensures added ==> |chosen| < |longer|
    ensures !added ==> |longer| < n && forall q <- Queues(unseen) :: |q| <= r
  {
    hide Repos, Queues, Holds, Taken, Ascending;
    rest, longer, added := byRepo, chosen, false;
    var repos := SortKeys(byRepo.Keys);
    ghost var qs := Queues(unseen);
    HoldsKeys(byRepo, unseen, r, 0, repos);
    for k := 0 to |repos|
      invariant longer == Ids(Taken(qs, r, k)) && |chosen| <= |longer| < n
      invariant Holds(rest, unseen, r, k) && (added ==> |chosen| < |longer|)
      invariant !added ==> forall j :: 0 <= j < k ==> |qs[j]| <= r
    {
      HeldKey(rest, unseen, r, k);
      PopOne(rest, unseen, r, k);
      TakenNext(qs, r, k);
      var queue := rest[repos[k]];
      if queue != [] {
        longer := longer + [queue[0]];
        rest := rest[repos[k] := queue[1..]];
        added := true;
        if |longer| >= n {
          i := k + 1;
          return;
        }
      }
    }
    i := |repos|;
    RoundDone(rest, unseen, r);
  }

  lemma HeldKey(byRepo: map<Text, seq<Text>>, rows: seq<Row>, r: nat, i: nat)
    requires Holds(byRepo, rows, r, i) && i < |Repos(rows)|
    ensures Repos(rows)[i] in byRepo
  {
    hide Repos, Queues, Ids;
  }

  method PickRoundRobin(unseen: seq<Row>, n: int) returns (chosen: seq<Text>)
    ensures chosen == Ids(Picked(unseen, n))
  {
    hide Repos, Queues, Holds, Taken, Rounds, Picked, FullOrder;
    var byRepo := GroupByRepo(unseen);
    ghost var qs, r := Queues(unseen), 0;
    chosen := [];
    RoundsZero(qs);
    PickedNone(unseen);
    while |chosen| < n
      invariant chosen == Ids(Rounds(qs, r)) && (n > 0 ==> |chosen| < n)
      invariant (n <= 0 ==> chosen == []) && Holds(byRepo, unseen, r, 0)
      decreases n - |chosen|
    {
      TakenAll(qs, r);
      ghost var i;
      var added;
      byRepo, chosen, added, i := PickRound(byRepo, chosen, n, unseen, r);
      if !added {
        PickedWhenDry(unseen, n, r);
        return;
      }
      if |chosen| >= n {
        PickedWhenFull(unseen, n, r, i);
        return;
      }
      TakenAll(qs, r);
      r := r + 1;
    }
  }

  lemma PickedNone(rows: seq<Row>)
    ensures forall n | n <= 0 :: Picked(rows, n) == []
  {
  }

  lemma PickedWhenFull(rows: seq<Row>, n: int, r: nat, i: nat)
    requires i <= |Queues(rows)| && |Taken(Queues(rows), r, i)| == n > 0
    ensures Picked(rows, n) == Taken(Queues(rows), r, i)
  {
    hide Taken, Queues, FullOrder;
    TakenIsPrefix(rows, r, i);
  }

  lemma PickedWhenDry(rows: seq<Row>, n: int, r: nat)
    requires (forall q <- Queues(rows) :: |q| <= r) && |Taken(Queues(rows), r, |Queues(rows)|)| < n
    ensures Picked(rows, n) == Taken(Queues(rows), r, |Queues(rows)|)
  {
    hide Taken, Queues, Rounds, Longest;
    var qs := Queues(rows);
    var s := if Longest(qs) < r + 1 then r + 1 else Longest(qs);
    TakenAll(qs, r);
    RoundsEnd(qs, r + 1, s);
    RoundsEnd(qs, Longest(qs), s);
  }

  lemma RoundsZero(qs: seq<seq<Row>>)
    ensures Rounds(qs, 0) == []
  {
  }

  method SelectUnseen(rows: seq<Row>, seen: set<Text>) returns (unseen: seq<Row>)
    ensures unseen == UnseenRows(rows, seen)
  {
    unseen := [];
    for n := 0 to |rows|
      invariant unseen == UnseenRows(rows[..n], seen)
    {
      assert rows[..n + 1][..n] == rows[..n];
      if rows[n].id !in seen {
        unseen := unseen + [rows[n]];
      }
    }
    assert rows[..|rows|] == rows;
  }

  /** The unseen rows, in dataset order. */
  lemma {:induction false} UnseenConcat(a: seq<Row>, b: seq<Row>, seen: set<Text>)
    ensures UnseenRows(a + b, seen) == UnseenRows(a, seen) + UnseenRows(b, seen)
    ensures forall row: Row :: UnseenRows([row], seen) == if row.id in seen then [] else [row]
  {
    forall row: Row
      ensures UnseenRows([row], seen) == if row.id in seen then [] else [row]
    {
      assert [row][..0] == [];
    }
    if b == [] {
      assert a + b == a;
    } else {
      assert (a + b)[..|a + b| - 1] == a + b[..|b| - 1];
      UnseenConcat(a, b[..|b| - 1], seen);
    }
  }

  lemma {:induction false} UnseenKeepsIds(rows: seq<Row>, seen: set<Text>)
    ensures multiset(UnseenRows(rows, seen)) <= multiset(rows)
    ensures forall x: Row :: multiset(UnseenRows(rows, seen))[x] == if x.id in seen then 0 else multiset(rows)[x]
  {
    if rows != [] {
      UnseenKeepsIds(rows[..|rows| - 1], seen);
      assert rows == rows[..|rows| - 1] + [rows[|rows| - 1]];
    }
  }

  /** The stratified branch; None is the exit when everything has been predicted. */
  method NextBatch(rows: seq<Row>, seen: set<Text>, n: int) returns (batch: Option<seq<Text>>)
    ensures batch.None? <==> forall row <- rows :: row.id in seen
    ensures batch.Some? ==> batch.value == Ids(Picked(UnseenRows(rows, seen), n))
  {
    hide Picked;
    var unseen := SelectUnseen(rows, seen);
    UnseenKeepsIds(rows, seen);
    if unseen == [] {
      assert forall x: Row :: multiset(unseen)[x] == 0;
      return None;
    }
    assert unseen[0] in multiset(unseen);
    assert unseen[0] in multiset(rows);
    var chosen := PickRoundRobin(unseen, n);
    return Some(chosen);
  }
}
