/** The two orders the dashboard sorts tasks by, and a stable insertion sort
    standing for `Array.prototype.sort` with the dashboard's comparators. */
module Ordering {
  import opened Tasks

  /** `NewestFirst` is the comparator of the task load: `created_at`
      descending. `CompletingLast` is the pending tab's comparator: tasks
      whose id is in `completing` sink below the others, and `created_at`
      descending decides within each group. */
  datatype Order = NewestFirst | CompletingLast(completing: seq<TaskId>)

  /** The comparator returns a value <= 0 for (a, b): `a` may stay in front of `b`. */
  predicate Before(o: Order, a: Task, b: Task) {
    match o
    case NewestFirst => a.createdAt >= b.createdAt
    case CompletingLast(c) =>
      var aCompleting, bCompleting := a.id in c, b.id in c;
      if aCompleting && !bCompleting then false
      else if !aCompleting && bCompleting then true
      else a.createdAt >= b.createdAt
  }

  ghost predicate Sorted(o: Order, s: seq<Task>) {
    forall i, j :: 0 <= i < j < |s| ==> Before(o, s[i], s[j])
  }

  /** Any two tasks are comparable. */
  lemma BeforeTotal(o: Order, a: Task, b: Task)
    ensures Before(o, a, b) || Before(o, b, a)
  {
  }

  lemma BeforeTransitive(o: Order, a: Task, b: Task, c: Task)
    requires Before(o, a, b) && Before(o, b, c)
    ensures Before(o, a, c)
  {
  }

  /** Putting in front of a sorted sequence an element that may precede all of
      it keeps it sorted. */
  lemma SortedCons(o: Order, x: Task, s: seq<Task>)
    requires Sorted(o, s)
    requires forall y :: y in s ==> Before(o, x, y)
    ensures Sorted(o, [x] + s)
  {
    var r := [x] + s;
    forall i, j | 0 <= i < j < |r|
      ensures Before(o, r[i], r[j])
    {
      if i == 0 {
        assert r[j] in s;
      } else {
        assert r[i] == s[i - 1] && r[j] == s[j - 1];
      }
    }
  }

  /** `x` placed in front of the first element it may precede. Ties keep `x`
      in front, which is what makes the sort stable. */
  function Insert(o: Order, x: Task, s: seq<Task>): (r: seq<Task>)
    requires Sorted(o, s)
    ensures multiset(r) == multiset(s) + multiset{x}
    ensures Sorted(o, r)
    decreases |s|
  {
    if s == [] then [x]
    else if Before(o, x, s[0]) then
      assert forall y :: y in s ==> Before(o, x, y) by {
        forall y | y in s
          ensures Before(o, x, y)
        {
          var j :| 0 <= j < |s| && s[j] == y;
          if j > 0 {
            BeforeTransitive(o, x, s[0], y);
          }
        }
      }
      SortedCons(o, x, s);
      [x] + s
    else
      var rest := Insert(o, x, s[1..]);
      BeforeTotal(o, x, s[0]);
      assert forall y :: y in rest ==> Before(o, s[0], y) by {
        forall y | y in rest
          ensures Before(o, s[0], y)
        {
          assert y in multiset(rest);
          if y != x {
            assert y in s[1..];
          }
        }
      }
      SortedCons(o, s[0], rest);
      assert s == [s[0]] + s[1..];
      [s[0]] + rest
  }

  /** Insertion sort: a sorted permutation of `s`. */
  function Sort(o: Order, s: seq<Task>): (r: seq<Task>)
    ensures multiset(r) == multiset(s)
    ensures Sorted(o, r)
    decreases |s|
  {
    if s == [] then []
    else
      assert s == [s[0]] + s[1..];
      Insert(o, s[0], Sort(o, s[1..]))
  }

  /** Sorting a single task leaves it alone. */
  lemma SortSingleton(o: Order, x: Task)
    ensures Sort(o, [x]) == [x]
  {
    assert [x][1..] == [];
  }

  /** A sorted permutation holds the same tasks, so membership is unchanged. */
  lemma SortSameMembers(o: Order, s: seq<Task>)
    ensures forall t :: t in Sort(o, s) <==> t in s
  {
    var r := Sort(o, s);
    forall t
      ensures t in r <==> t in s
    {
      assert t in r <==> t in multiset(r);
      assert t in s <==> t in multiset(s);
    }
  }
}
