/** Splitting a text at the first or last occurrence of a separator. */
module Splitting {
  import opened Common

  /** `split_once(bar)`. */
  function SplitFirst(s: string, bar: char): Option<(string, string)> {
    if s == "" then None
    else if s[0] == bar then Some(("", s[1..]))
    else
      var rest := SplitFirst(s[1..], bar);
      if rest.None? then None else Some(([s[0]] + rest.value.0, rest.value.1))
  }

  /** `rsplit_once(bar)`. */
  function SplitLast(s: string, bar: char): Option<(string, string)> {
    if s == "" then None
    else if s[|s| - 1] == bar then Some((s[..|s| - 1], ""))
    else
      var rest := SplitLast(s[..|s| - 1], bar);
      if rest.None? then None else Some((rest.value.0, rest.value.1 + [s[|s| - 1]]))
  }

  lemma {:induction false} SplitFirstAt(a: string, b: string, bar: char)
    requires bar !in a
    ensures SplitFirst(a + [bar] + b, bar) == Some((a, b))
  {
    var s := a + [bar] + b;
    if a == "" {
      assert s == [bar] + b;
    } else {
      assert s[1..] == a[1..] + [bar] + b;
      assert forall c | c in a[1..] :: c in a;
      SplitFirstAt(a[1..], b, bar);
      assert a == [a[0]] + a[1..] && a[0] in a;
    }
  }

  lemma {:induction false} SplitLastAt(a: string, b: string, bar: char)
    requires bar !in b
    ensures SplitLast(a + [bar] + b, bar) == Some((a, b))
  {
    var s := a + [bar] + b;
    if b == "" {
      assert s[..|s| - 1] == a;
    } else {
      var front, last := b[..|b| - 1], b[|b| - 1];
      assert s[..|s| - 1] == a + [bar] + front;
      assert forall c | c in front :: c in b;
      SplitLastAt(a, front, bar);
      assert b == front + [last] && last in b;
    }
  }

  lemma {:induction false} NoBar(s: string, bar: char)
    requires bar !in s
    ensures SplitFirst(s, bar).None? && SplitLast(s, bar).None?
  {
    if s != "" {
      assert forall c | c in s[1..] :: c in s;
      assert forall c | c in s[..|s| - 1] :: c in s;
      assert s[0] in s && s[|s| - 1] in s;
      NoBar(s[1..], bar);
      NoBar(s[..|s| - 1], bar);
    }
  }

  /** The pieces put together again are the text. */
  lemma {:induction false} SplitLastJoins(s: string, bar: char)
    requires SplitLast(s, bar).Some?
    ensures s == SplitLast(s, bar).value.0 + [bar] + SplitLast(s, bar).value.1
  {
    if s[|s| - 1] != bar {
      SplitLastJoins(s[..|s| - 1], bar);
    }
    assert s == s[..|s| - 1] + [s[|s| - 1]];
  }

  lemma {:induction false} SplitFirstJoins(s: string, bar: char)
    requires SplitFirst(s, bar).Some?
    ensures s == SplitFirst(s, bar).value.0 + [bar] + SplitFirst(s, bar).value.1
  {
    if s[0] != bar {
      SplitFirstJoins(s[1..], bar);
    }
    assert s == [s[0]] + s[1..];
  }
}
