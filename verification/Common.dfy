/** The stock result shapes and the list helpers every other module uses. */
module Common {
  datatype Option<+T> = None | Some(value: T)

  datatype Result<+T, +E> = Ok(value: T) | Err(error: E)

  function Max(a: int, b: int): int {
    if a < b then b else a
  }

  /** The members of `s` that satisfy `keep`, in order: JavaScript's and Rust's `filter`. */
  function Filter<T>(s: seq<T>, keep: T -> bool): (r: seq<T>)
    ensures forall x | x in r :: x in s && keep(x)
    ensures forall x | x in s && keep(x) :: x in r
    ensures |r| <= |s|
  {
    if s == [] then []
    else
      var rest := Filter(s[..|s| - 1], keep);
      if keep(s[|s| - 1]) then rest + [s[|s| - 1]] else rest
  }

  lemma {:induction false} FilterConcat<T>(a: seq<T>, b: seq<T>, keep: T -> bool)
    ensures Filter(a + b, keep) == Filter(a, keep) + Filter(b, keep)
  {
    if b == [] {
      assert a + b == a;
    } else {
      assert (a + b)[..|a + b| - 1] == a + b[..|b| - 1];
      FilterConcat(a, b[..|b| - 1], keep);
    }
  }

  /** A filter that keeps everything is the identity, and one that keeps nothing is empty. */
  lemma {:induction false} FilterAllOrNone<T>(s: seq<T>, keep: T -> bool)
    ensures (forall x | x in s :: keep(x)) ==> Filter(s, keep) == s
    ensures (forall x | x in s :: !keep(x)) ==> Filter(s, keep) == []
  {
    if s != [] {
      FilterAllOrNone(s[..|s| - 1], keep);
      assert s == s[..|s| - 1] + [s[|s| - 1]];
    }
  }

  /** Whatever holds between any two members of a list holds between any two that a filter keeps. */
  lemma {:induction false} FilterPairwise<T>(s: seq<T>, keep: T -> bool, related: (T, T) -> bool)
    requires Pairwise(s, related)
    ensures Pairwise(Filter(s, keep), related)
  {
    if s != [] {
      hide Pairwise;
      var front, last := s[..|s| - 1], s[|s| - 1];
      assert s == front + [last];
      PairwiseLast(front, last, related);
      FilterPairwise(front, keep, related);
      if keep(last) { PairwiseMore(Filter(front, keep), last, related); }
    }
  }

  lemma Assoc<T>(a: seq<T>, b: seq<T>, c: seq<T>)
    ensures (a + b) + c == a + (b + c)
  {
  }

  ghost predicate Climbing(s: seq<int>) {
    forall i, j | 0 <= i < j < |s| :: s[i] < s[j]
  }

  ghost predicate Pairwise<T>(s: seq<T>, related: (T, T) -> bool) {
    forall i, j | 0 <= i < j < |s| :: related(s[i], s[j])
  }

  /** `x` put behind everything that comes before it: one round of an insertion sort. */
  function Insert<T>(x: T, s: seq<T>, before: (T, T) -> bool): seq<T> {
    if s == [] || before(s[|s| - 1], x) then s + [x] else Insert(x, s[..|s| - 1], before) + [s[|s| - 1]]
  }

  lemma {:induction false} InsertKeepsOrder<T>(x: T, s: seq<T>, before: (T, T) -> bool)
    requires Pairwise(s, before)
    requires forall a | a in s :: before(a, x) || before(x, a)
    requires forall a, b | a in s && b in s && before(a, b) && before(b, x) :: before(a, x)
    ensures Pairwise(Insert(x, s, before), before)
    ensures multiset(Insert(x, s, before)) == multiset(s) + multiset{x}
  {
    hide Pairwise;
    if s == [] {
      PairwiseMore(s, x, before);
    } else {
      var front, last := s[..|s| - 1], s[|s| - 1];
      assert s == front + [last] && last in s && forall a | a in front :: a in s;
      PairwiseLast(front, last, before);
      if before(last, x) {
        PairwiseMore(s, x, before);
      } else {
        InsertKeepsOrder(x, front, before);
        var r := Insert(x, front, before);
        forall a | a in r ensures before(a, last) {
          assert a in multiset(r);
          assert a in multiset(front) || a == x;
        }
        PairwiseMore(r, last, before);
      }
    }
  }

  lemma PairwiseMore<T>(s: seq<T>, x: T, related: (T, T) -> bool)
    requires Pairwise(s, related) && forall a | a in s :: related(a, x)
    ensures Pairwise(s + [x], related)
  {
    forall i | 0 <= i < |s| ensures related(s[i], x) {
      assert s[i] in s;
    }
  }

  lemma PairwiseLast<T>(front: seq<T>, last: T, related: (T, T) -> bool)
    requires Pairwise(front + [last], related)
    ensures Pairwise(front, related) && forall a | a in front :: related(a, last)
  {
    var s := front + [last];
    forall i, j | 0 <= i < j < |front| ensures related(front[i], front[j]) {
      assert s[i] == front[i] && s[j] == front[j];
    }
    forall a | a in front ensures related(a, last) {
      var i :| 0 <= i < |front| && front[i] == a;
      assert s[i] == a && s[|front|] == last;
    }
  }
}
