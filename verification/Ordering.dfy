/** Python's order on strings (by code point), and `sorted` on sets of them. */
module Ordering {
  import opened Common

  predicate Less(a: string, b: string) {
    if b == "" then false
    else if a == "" then true
    else a[0] < b[0] || (a[0] == b[0] && Less(a[1..], b[1..]))
  }

  /** Less at the first difference, or a proper beginning. */
  lemma {:induction false} LessExactly(a: string, b: string)
    ensures Less(a, b) <==> a < b || exists i | 0 <= i < |a| && i < |b| :: a[i] < b[i] && forall j | 0 <= j < i :: a[j] == b[j]
  {
    if a != "" && b != "" && a[0] == b[0] {
      var x, y := a[1..], b[1..];
      LessExactly(x, y);
      assert a == [a[0]] + x && b == [b[0]] + y;
      if i :| 0 <= i < |x| && i < |y| && x[i] < y[i] && forall j | 0 <= j < i :: x[j] == y[j] {
        assert a[i + 1] < b[i + 1] && forall j | 0 <= j < i + 1 :: j > 0 ==> a[j] == x[j - 1] && b[j] == y[j - 1];
      }
      if i :| 0 <= i < |a| && i < |b| && a[i] < b[i] && forall j | 0 <= j < i :: a[j] == b[j] {
        assert i > 0 && x[i - 1] < y[i - 1] && forall j | 0 <= j < i - 1 :: x[j] == a[j + 1] && y[j] == b[j + 1];
      }
    }
  }

  lemma {:induction false} LessTransitive(a: string, b: string, c: string)
    requires Less(a, b) && Less(b, c)
    ensures Less(a, c)
  {
    if a != "" && a[0] == b[0] == c[0] {
      LessTransitive(a[1..], b[1..], c[1..]);
    }
  }

  lemma {:induction false} LessTotal(a: string, b: string)
    ensures a == b || Less(a, b) || Less(b, a)
    ensures !(Less(a, b) && Less(b, a)) && !Less(a, a)
  {
    if a != "" && b != "" {
      LessTotal(a[1..], b[1..]);
      if a[0] == b[0] && a[1..] == b[1..] {
        assert a == [a[0]] + a[1..] && b == [b[0]] + b[1..];
      }
      LessTotal(a[1..], a[1..]);
    } else if a != "" {
      LessTotal(a[1..], a[1..]);
    }
  }

  ghost predicate Ascending(l: seq<string>) {
    forall i, j | 0 <= i < j < |l| :: Less(l[i], l[j])
  }

  /** `l` is `sorted(s)`. */
  ghost predicate IsSorted(s: set<string>, l: seq<string>) {
    Ascending(l) && forall x :: x in s <==> x in l
  }

  /** There is only one sorted list of a set. */
  lemma {:induction false} SortedUnique(s: set<string>, a: seq<string>, b: seq<string>)
    requires IsSorted(s, a) && IsSorted(s, b)
    ensures a == b
  {
    EmptySorted(s, a);
    EmptySorted(s, b);
    if s != {} {
      assert a[0] in s && a[0] in b && b[0] in b && b[0] in s && b[0] in a;
      HeadIsLeast(s, a, b[0]);
      HeadIsLeast(s, b, a[0]);
      LessTotal(a[0], b[0]);
      TailSorted(s, a);
      TailSorted(s, b);
      SortedUnique(s - {a[0]}, a[1..], b[1..]);
    }
  }

  lemma EmptySorted(s: set<string>, l: seq<string>)
    requires IsSorted(s, l)
    ensures l == [] <==> s == {}
  {
    if l != [] {
      assert l[0] in s;
    } else {
      assert s == {};
    }
  }

  lemma HeadIsLeast(s: set<string>, l: seq<string>, x: string)
    requires IsSorted(s, l) && x in l
    ensures l[0] == x || Less(l[0], x)
  {
  }

  lemma TailSorted(s: set<string>, l: seq<string>)
    requires IsSorted(s, l) && l != []
    ensures IsSorted(s - {l[0]}, l[1..])
  {
    LessTotal(l[0], l[0]);
    forall x ensures x in s - {l[0]} <==> x in l[1..] {
      if x in l[1..] {
        var i :| 0 < i < |l| && l[i] == x;
      }
    }
  }

  lemma InsertSorted(s: set<string>, x: string, l: seq<string>)
    requires IsSorted(s, l) && x !in s
    ensures IsSorted(s + {x}, Insert(x, l, Less))
  {
    forall a | a in l ensures Less(a, x) || Less(x, a) {
      LessTotal(a, x);
    }
    forall a, b | a in l && b in l && Less(a, b) && Less(b, x) ensures Less(a, x) {
      LessTransitive(a, b, x);
    }
    InsertKeepsOrder(x, l, Less);
    var r := Insert(x, l, Less);
    forall y ensures y in s + {x} <==> y in r {
      assert y in r <==> y in multiset(r);
    }
  }

  /** `sorted(s)`. */
  method Sort(s: set<string>) returns (l: seq<string>)
    ensures IsSorted(s, l)
  {
    var left := s;
    l := [];
    while left != {}
      invariant left <= s && IsSorted(s - left, l)
      decreases |left|
    {
      var x :| x in left;
      InsertSorted(s - left, x, l);
      assert (s - left) + {x} == s - (left - {x});
      l := Insert(x, l, Less);
      left := left - {x};
    }
    assert s - left == s;
  }

  lemma {:induction false} SortedExists(s: set<string>)
    ensures exists l :: IsSorted(s, l)
  {
    if s == {} {
      assert IsSorted(s, []);
    } else {
      var x :| x in s;
      SortedExists(s - {x});
      var l :| IsSorted(s - {x}, l);
      InsertSorted(s - {x}, x, l);
      assert (s - {x}) + {x} == s;
      assert IsSorted(s, Insert(x, l, Less));
    }
  }

  /** The sorted list of a set, as a function. */
  ghost function Sorted(s: set<string>): (l: seq<string>)
    ensures IsSorted(s, l)
  {
    SortedExists(s);
    var l :| IsSorted(s, l);
    l
  }
}
