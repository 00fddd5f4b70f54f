/**
  The claim query: the eligible tasks in order of (created_at, id), cut off at a limit.
 */
module Claim {
  import opened Tasks

  predicate Older(db: Db, t: TaskId, u: TaskId)
    requires t in db.tasks && u in db.tasks
  {
    || db.tasks[t].createdAt < db.tasks[u].createdAt
    || (db.tasks[t].createdAt == db.tasks[u].createdAt && t < u)
  }

  function EligibleTasks(db: Db): set<TaskId> {
    set t | t in db.tasks && Eligible(db, t)
  }

  ghost predicate IsOldest(db: Db, s: set<TaskId>, t: TaskId)
    requires s <= db.tasks.Keys
  {
    t in s && forall u :: u in s && u != t ==> Older(db, t, u)
  }

  lemma {:induction false} OldestExists(db: Db, s: set<TaskId>)
    requires s <= db.tasks.Keys && s != {}
    ensures exists t :: IsOldest(db, s, t)
    decreases |s|
  {
    var x :| x in s;
    if s - {x} == {} {
      assert s == {x};
      assert IsOldest(db, s, x);
    } else {
      OldestExists(db, s - {x});
      var y :| IsOldest(db, s - {x}, y);
      var oldest := if Older(db, x, y) then x else y;
      forall u | u in s && u != oldest
        ensures Older(db, oldest, u)
      {
        assert u == x || u in s - {x};
      }
      assert IsOldest(db, s, oldest);
    }
  }

  /** ORDER BY created_at ASC, id ASC LIMIT limit. */
  ghost function FirstByAge(db: Db, s: set<TaskId>, limit: nat): seq<TaskId>
    requires s <= db.tasks.Keys
    decreases limit
  {
    if limit == 0 || s == {} then []
    else
      OldestExists(db, s);
      var t :| IsOldest(db, s, t);
      [t] + FirstByAge(db, s - {t}, limit - 1)
  }

  /** The claim query of the store. */
  ghost function SelectQueued(db: Db, limit: nat): seq<TaskId> {
    FirstByAge(db, EligibleTasks(db), limit)
  }

  /** The declarative reading of such a cut: ordered, as many as allowed, nothing older skipped. */
  ghost predicate IsCut(db: Db, s: set<TaskId>, limit: nat, r: seq<TaskId>)
    requires s <= db.tasks.Keys
  {
    && |r| == (if limit <= |s| then limit else |s|)
    && (forall i :: 0 <= i < |r| ==> r[i] in s)
    && (forall i, j :: 0 <= i < j < |r| ==> Older(db, r[i], r[j]))
    && (forall i, u :: 0 <= i < |r| && u in s && u !in r ==> Older(db, r[i], u))
  }

  lemma {:induction false} FirstByAgeIsCut(db: Db, s: set<TaskId>, limit: nat)
    requires s <= db.tasks.Keys
    ensures IsCut(db, s, limit, FirstByAge(db, s, limit))
    decreases limit
  {
    if limit > 0 && s != {} {
      var r := FirstByAge(db, s, limit);
      var t := r[0];
      assert r == [t] + FirstByAge(db, s - {t}, limit - 1) && IsOldest(db, s, t) by {
        OldestExists(db, s);
      }
      FirstByAgeIsCut(db, s - {t}, limit - 1);
      assert forall u :: u in r <==> u == t || u in FirstByAge(db, s - {t}, limit - 1);
    }
  }

  lemma SameHead(db: Db, s: set<TaskId>, limit: nat, r: seq<TaskId>, q: seq<TaskId>)
    requires s <= db.tasks.Keys && r != []
    requires IsCut(db, s, limit, r) && IsCut(db, s, limit, q)
    ensures q[0] == r[0]
  {
    assert q[0] in r || Older(db, r[0], q[0]);
    assert r[0] in q || Older(db, q[0], r[0]);
  }

  /** The declarative reading admits one answer only. */
  lemma {:induction false} CutIsUnique(db: Db, s: set<TaskId>, limit: nat, r: seq<TaskId>, q: seq<TaskId>)
    requires s <= db.tasks.Keys
    requires IsCut(db, s, limit, r) && IsCut(db, s, limit, q)
    ensures r == q
    decreases limit
  {
    if r != [] {
      var t := r[0];
      SameHead(db, s, limit, r, q);
      CutTail(db, s, limit, r);
      CutTail(db, s, limit, q);
      CutIsUnique(db, s - {t}, limit - 1, r[1..], q[1..]);
      assert r == [t] + r[1..] && q == [t] + q[1..];
    }
  }

  lemma CutTail(db: Db, s: set<TaskId>, limit: nat, r: seq<TaskId>)
    requires s <= db.tasks.Keys && IsCut(db, s, limit, r) && r != []
    ensures IsCut(db, s - {r[0]}, limit - 1, r[1..])
  {
    forall i | 0 <= i < |r[1..]|
      ensures r[1..][i] in s - {r[0]}
    {
      assert Older(db, r[0], r[i + 1]);
    }
    forall i, u | 0 <= i < |r[1..]| && u in s - {r[0]} && u !in r[1..]
      ensures Older(db, r[1..][i], u)
    {
      assert u !in r;
    }
  }

  /** A claim takes exactly the oldest eligible tasks, each once. */
  lemma ClaimTakesOldest(db: Db, limit: nat, r: seq<TaskId>)
    ensures r == SelectQueued(db, limit) <==> IsCut(db, EligibleTasks(db), limit, r)
    ensures var q := SelectQueued(db, limit); forall i, j :: 0 <= i < j < |q| ==> q[i] != q[j]
  {
    FirstByAgeIsCut(db, EligibleTasks(db), limit);
    if IsCut(db, EligibleTasks(db), limit, r) {
      CutIsUnique(db, EligibleTasks(db), limit, r, SelectQueued(db, limit));
    }
  }
}
