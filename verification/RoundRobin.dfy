/**
  The round-robin strategy: sort the member ids, take the one at counter modulo their number,
  increment the counter.
 */
module RoundRobin {
  import opened Tasks

  datatype Member = Member(id: NodeId, grpcAddr: string)

  predicate Ascending(ids: seq<NodeId>) {
    forall i, j :: 0 <= i < j < |ids| ==> ids[i] < ids[j]
  }

  ghost predicate IsLeast(s: set<NodeId>, x: NodeId) {
    x in s && forall y :: y in s ==> x <= y
  }

  lemma {:induction false} LeastExists(s: set<NodeId>)
    requires s != {}
    ensures exists x :: IsLeast(s, x)
    decreases |s|
  {
    var x :| x in s;
    if s - {x} == {} {
      assert s == {x};
      assert IsLeast(s, x);
    } else {
      LeastExists(s - {x});
      var y :| IsLeast(s - {x}, y);
      var least := if x < y then x else y;
      forall z | z in s
        ensures least <= z
      {
        assert z == x || z in s - {x};
      }
      assert IsLeast(s, least);
    }
  }

  ghost predicate IsSorting(s: set<NodeId>, r: seq<NodeId>) {
    && |r| == |s| && Ascending(r)
    && forall x :: x in r <==> x in s
  }

  lemma {:induction false} SortingExists(s: set<NodeId>) returns (r: seq<NodeId>)
    ensures IsSorting(s, r)
    decreases |s|
  {
    if s == {} {
      r := [];
    } else {
      LeastExists(s);
      var x :| IsLeast(s, x);
      var rest := SortingExists(s - {x});
      r := [x] + rest;
      assert forall i :: 0 <= i < |rest| ==> rest[i] in rest && rest[i] in s - {x};
      assert forall y :: y in r <==> y == x || y in rest;
    }
  }

  /** The members in ascending order of id. */
  ghost function Sorted(s: set<NodeId>): (r: seq<NodeId>)
    ensures IsSorting(s, r)
  {
    assert exists r :: IsSorting(s, r) by {
      var r := SortingExists(s);
    }
    var r :| IsSorting(s, r);
    r
  }

  lemma HasMember(q: seq<NodeId>)
    requires |q| > 0
    ensures exists x :: x in q
  {
    assert q[0] in q;
  }

  lemma {:induction false} SortedIsUnique(r: seq<NodeId>, q: seq<NodeId>)
    requires Ascending(r) && Ascending(q)
    requires forall x :: x in r <==> x in q
    ensures r == q
  {
    if r == [] {
      if |q| > 0 {
        HasMember(q);
      }
    } else {
      assert r[0] in q && q[0] in r;
      assert r[0] == q[0];
      forall x
        ensures x in r[1..] <==> x in q[1..]
      {
        assert x in r[1..] <==> x in r && x != r[0];
        assert x in q[1..] <==> x in q && x != q[0];
      }
      SortedIsUnique(r[1..], q[1..]);
    }
  }

  /** `c` modulo `n` by repeated subtraction. */
  function Wrap(n: nat, c: nat): (p: nat)
    requires n > 0
    ensures p < n
  {
    if c < n then c else Wrap(n, c - n)
  }

  /** The member chosen when the counter stands at `c`. */
  ghost function Chosen(s: set<NodeId>, c: nat): (w: NodeId)
    requires s != {}
    ensures w in s
  {
    var r := Sorted(s);
    assert r[Wrap(|r|, c)] in r;
    r[Wrap(|r|, c)]
  }

  lemma {:induction false} WrapIsModulo(n: nat, c: nat)
    requires n > 0
    ensures Wrap(n, c) == c % n
  {
    if c < n {
      QuotientIs(c, n, 0, c);
    } else {
      WrapIsModulo(n, c - n);
      AddDivisor(n, c - n);
    }
  }

  lemma AddDivisor(n: nat, c: nat)
    requires n > 0
    ensures (c + n) / n == c / n + 1 && (c + n) % n == c % n
  {
    Distribute(c / n + 1, 1, n);
    QuotientIs(c + n, n, c / n + 1, c % n);
  }

  lemma Distribute(a: int, b: int, n: int)
    ensures (a - b) * n == a * n - b * n
  {
  }

  lemma MultipleAtLeast(x: int, n: nat)
    requires x >= 1
    ensures x * n >= n
  {
  }

  lemma QuotientIs(a: nat, n: nat, q: nat, r: nat)
    requires n > 0 && r < n && a == q * n + r
    ensures a / n == q && a % n == r
  {
    var d, e := a / n, a % n;
    assert a == d * n + e;
    Distribute(q, d, n);
    Distribute(d, q, n);
    if d < q {
      MultipleAtLeast(q - d, n);
    } else if d > q {
      MultipleAtLeast(d - q, n);
    }
  }

  /** Steps from position `a` forward to position `p` on a circle of `n`. */
  function Gap(n: nat, a: nat, p: nat): nat
    requires a < n && p < n
  {
    if p >= a then p - a else p + n - a
  }

  /** Counter `c + k` lands on position `p` exactly when `k` is the gap from where `c` lands. */
  lemma {:induction false} WrapAhead(n: nat, c: nat, k: nat, p: nat)
    requires k < n && p < n
    ensures Wrap(n, c + k) == p <==> k == Gap(n, Wrap(n, c), p)
  {
    if c >= n {
      WrapAhead(n, c - n, k, p);
      assert c + k - n == c - n + k;
    } else if c + k >= n {
      assert Wrap(n, c + k) == c + k - n;
    }
  }

  /** How often `k` consecutive counters starting at `c` land on position `p`. */
  function Landings(n: nat, c: nat, k: nat, p: nat): nat
    requires n > 0
  {
    if k == 0 then 0
    else Landings(n, c, k - 1, p) + (if Wrap(n, c + k - 1) == p then 1 else 0)
  }

  /** Within one round a position is hit once its gap has been covered, and once only. */
  lemma {:induction false} LandingsWithinRound(n: nat, c: nat, k: nat, p: nat)
    requires p < n && k <= n
    ensures Landings(n, c, k, p) == if Gap(n, Wrap(n, c), p) < k then 1 else 0
    decreases k
  {
    if k > 0 {
      LandingsWithinRound(n, c, k - 1, p);
      WrapAhead(n, c, k - 1, p);
      assert c + (k - 1) == c + k - 1;
    }
  }

  lemma {:induction false} LandingsSplit(n: nat, c: nat, a: nat, b: nat, p: nat)
    requires n > 0
    ensures Landings(n, c, a + b, p) == Landings(n, c, a, p) + Landings(n, c + a, b, p)
    decreases b
  {
    if b > 0 {
      LandingsSplit(n, c, a, b - 1, p);
      assert c + (a + b) - 1 == c + a + b - 1;
      assert a + b - 1 == a + (b - 1);
    }
  }

  lemma {:induction false} LandingsBalanced(n: nat, c: nat, k: nat, p: nat)
    requires p < n
    ensures k / n <= Landings(n, c, k, p) <= k / n + (if k % n == 0 then 0 else 1)
    decreases k
  {
    if k < n {
      LandingsWithinRound(n, c, k, p);
      QuotientIs(k, n, 0, k);
    } else {
      LandingsSplit(n, c, n, k - n, p);
      LandingsWithinRound(n, c, n, p);
      LandingsBalanced(n, c + n, k - n, p);
      AddDivisor(n, k - n);
    }
  }

  /** How often member `x` is chosen by `k` picks starting at counter `c`. */
  ghost function Times(s: set<NodeId>, c: nat, k: nat, x: NodeId): nat
    requires s != {}
  {
    if k == 0 then 0
    else Times(s, c, k - 1, x) + (if Chosen(s, c + k - 1) == x then 1 else 0)
  }

  lemma {:induction false} TimesAreLandings(s: set<NodeId>, c: nat, k: nat, p: nat)
    requires s != {} && p < |s|
    ensures Times(s, c, k, Sorted(s)[p]) == Landings(|s|, c, k, p)
  {
    if k > 0 {
      TimesAreLandings(s, c, k - 1, p);
      var q := Wrap(|s|, c + k - 1);
      assert Sorted(s)[q] == Sorted(s)[p] <==> q == p;
    }
  }

  /** Over any `k` picks each of the `n` members is chosen floor(k/n) or ceil(k/n) times. */
  lemma Balanced(s: set<NodeId>, c: nat, k: nat, x: NodeId)
    requires x in s
    ensures k / |s| <= Times(s, c, k, x) <= k / |s| + (if k % |s| == 0 then 0 else 1)
  {
    var p :| 0 <= p < |s| && Sorted(s)[p] == x;
    TimesAreLandings(s, c, k, p);
    LandingsBalanced(|s|, c, k, p);
  }

  /** Picks fewer than `n` apart choose different members. */
  lemma DistinctWithinRound(s: set<NodeId>, i: nat, j: nat)
    requires s != {} && i < j < i + |s|
    ensures Chosen(s, i) != Chosen(s, j)
  {
    var p := Wrap(|s|, j);
    WrapAhead(|s|, i, 0, p);
    WrapAhead(|s|, i, j - i, p);
    assert i + (j - i) == j && i + 0 == i;
  }

  function IdSet(ids: seq<NodeId>): set<NodeId> {
    set x | x in ids
  }

  /** `x` put in its place in an ascending sequence. */
  function Inserted(r: seq<NodeId>, x: NodeId): seq<NodeId> {
    if r == [] || x < r[0] then [x] + r else [r[0]] + Inserted(r[1..], x)
  }

  lemma {:induction false} InsertedMembers(r: seq<NodeId>, x: NodeId)
    ensures IdSet(Inserted(r, x)) == IdSet(r) + {x}
  {
    if r == [] || x < r[0] {
      assert forall y :: y in [x] + r <==> y == x || y in r;
    } else {
      var q := Inserted(r[1..], x);
      InsertedMembers(r[1..], x);
      assert r == [r[0]] + r[1..];
      assert forall y :: y in [r[0]] + q <==> y == r[0] || y in IdSet(q);
    }
  }

  lemma {:induction false} InsertedAscends(r: seq<NodeId>, x: NodeId)
    requires Ascending(r) && x !in r
    ensures Ascending(Inserted(r, x))
  {
    if r != [] && x >= r[0] {
      var q := Inserted(r[1..], x);
      InsertedAscends(r[1..], x);
      InsertedMembers(r[1..], x);
      forall j | 0 <= j < |q|
        ensures r[0] < q[j]
      {
        assert q[j] in IdSet(q);
        assert r[0] in r;
      }
    }
  }

  /** slices.Sort on the collected ids. */
  method SortIds(ids: seq<NodeId>) returns (r: seq<NodeId>)
    requires forall i, j :: 0 <= i < j < |ids| ==> ids[i] != ids[j]
    ensures r == Sorted(IdSet(ids))
  {
    r := [];
    var i := 0;
    while i < |ids|
      invariant 0 <= i <= |ids| && Ascending(r) && IdSet(r) == IdSet(ids[..i])
    {
      assert ids[i] !in r by {
        assert ids[i] in IdSet(r) <==> ids[i] in ids[..i];
      }
      InsertedAscends(r, ids[i]);
      InsertedMembers(r, ids[i]);
      r := Inserted(r, ids[i]);
      assert ids[..i + 1] == ids[..i] + [ids[i]];
      i := i + 1;
    }
    assert ids[..i] == ids;
    SortedBySet(r, IdSet(ids));
  }

  lemma SortedBySet(r: seq<NodeId>, s: set<NodeId>)
    requires Ascending(r) && IdSet(r) == s
    ensures r == Sorted(s)
  {
    forall x
      ensures x in r <==> x in Sorted(s)
    {
      assert x in r <==> x in IdSet(r);
    }
    SortedIsUnique(r, Sorted(s));
  }

  /** The ids of the map in whatever order its iteration yields them. */
  method CollectIds(members: map<NodeId, Member>) returns (ids: seq<NodeId>)
    ensures forall i, j :: 0 <= i < j < |ids| ==> ids[i] != ids[j]
    ensures IdSet(ids) == members.Keys
  {
    ids := [];
    var rest := members.Keys;
    while rest != {}
      invariant rest <= members.Keys
      invariant forall x :: x in ids <==> x in members.Keys - rest
      invariant forall i, j :: 0 <= i < j < |ids| ==> ids[i] != ids[j]
      decreases |rest|
    {
      var id :| id in rest;
      ids := ids + [id];
      rest := rest - {id};
    }
  }

  lemma ChosenByModulo(s: set<NodeId>, c: nat)
    requires s != {}
    ensures 0 < |Sorted(s)| && Sorted(s)[c % |Sorted(s)|] == Chosen(s, c)
  {
    WrapIsModulo(|s|, c);
  }

  class Strategy {
    var counter: nat

    constructor ()
      ensures counter == 0
    {
      counter := 0;
    }

    /** The outcome does not mention the order in which the map is iterated. */
    method Pick(members: map<NodeId, Member>) returns (r: Option<Member>)
      modifies this
      ensures members == map[] ==> r == None && counter == old(counter)
      ensures members != map[] ==>
                && r == Some(members[Chosen(members.Keys, old(counter))])
                && counter == old(counter) + 1
    {
      if |members| == 0 {
        return None;
      }
      var collected := CollectIds(members);
      var ids := SortIds(collected);
      ChosenByModulo(members.Keys, counter);
      var idx := counter % |ids|;
      counter := counter + 1;
      r := Some(members[ids[idx]]);
    }
  }
}
