/** Printing and reading decimal numbers, as `toString`, `format!("{}")` and `parse` do. */
module Decimal {
  import opened Common

  predicate IsDigit(c: char) {
    '0' <= c <= '9'
  }

  predicate AllDigits(s: string) {
    forall c | c in s :: IsDigit(c)
  }

  function DigitChar(d: nat): (c: char)
    requires d < 10
    ensures IsDigit(c) && DigitValue(c) == d
  {
    '0' + d as char
  }

  function DigitValue(c: char): nat
    requires IsDigit(c)
  {
    c as int - '0' as int
  }

  function Print(n: nat): (s: string)
    ensures s != "" && AllDigits(s)
    ensures Value(s) == n
    ensures n != 0 ==> s[0] != '0'
    ensures n == 0 ==> s == "0"
  {
    if n < 10 then [DigitChar(n)]
    else
      var s := Print(n / 10) + [DigitChar(n % 10)];
      assert s[..|s| - 1] == Print(n / 10);
      s
  }

  function Value(s: string): nat
    requires AllDigits(s)
  {
    if s == "" then 0
    else
      assert s[|s| - 1] in s && forall c | c in s[..|s| - 1] :: c in s;
      Value(s[..|s| - 1]) * 10 + DigitValue(s[|s| - 1])
  }

  /** `str::parse` of a signed integer, whatever its width: an optional sign and at least one digit. */
  function Signed(s: string): (n: Option<int>)
    ensures n.Some? ==> forall c | c in s :: IsDigit(c) || c == '+' || c == '-'
  {
    var signed := s != "" && (s[0] == '+' || s[0] == '-');
    var digits := if signed then s[1..] else s;
    if digits == "" || !AllDigits(digits) then None
    else
      assert signed ==> s == [s[0]] + digits;
      Some(if signed && s[0] == '-' then -(Value(digits) as int) else Value(digits))
  }

  lemma PrintInjective(a: nat, b: nat)
    requires Print(a) == Print(b)
    ensures a == b
  {
    assert a == Value(Print(a));
  }

  /** Digits without a leading zero have a positive value. */
  lemma {:induction false} ValuePositive(s: string)
    requires s != "" && AllDigits(s) && s[0] != '0'
    ensures Value(s) > 0
  {
    assert s[0] in s && s[|s| - 1] in s;
    if |s| == 1 {
    } else {
      assert s[..|s| - 1][0] == s[0];
      assert forall c | c in s[..|s| - 1] :: c in s;
      ValuePositive(s[..|s| - 1]);
    }
  }

  lemma Split10(a: nat, d: nat)
    requires d < 10
    ensures (a * 10 + d) / 10 == a && (a * 10 + d) % 10 == d
  {
  }

  lemma PrintMore(a: nat, d: nat)
    requires a > 0 && d < 10
    ensures Print(a * 10 + d) == Print(a) + [DigitChar(d)]
  {
    Split10(a, d);
  }

  lemma CharOfValue(c: char)
    requires IsDigit(c)
    ensures DigitChar(DigitValue(c)) == c && Print(DigitValue(c)) == [c]
  {
  }

  /** A number is printed without leading zeros, and that text is the only such text for it. */
  lemma {:induction false} PrintValue(s: string)
    requires s != "" && AllDigits(s) && (s[0] == '0' ==> s == "0")
    ensures Print(Value(s)) == s
  {
    hide Print;
    var front, last := s[..|s| - 1], s[|s| - 1];
    assert last in s && forall c | c in front :: c in s;
    assert s == front + [last];
    CharOfValue(last);
    if front == "" {
      assert Value(front) == 0;
    } else {
      assert front[0] == s[0];
      ValuePositive(front);
      PrintValue(front);
      PrintMore(Value(front), DigitValue(last));
    }
  }

  /** The most significant digit comes first. */
  lemma PlacesExample()
    ensures Value("1024") == 1024 && Print(1024) == "1024"
  {
    assert "1024"[..3] == "102" && "102"[..2] == "10" && "10"[..1] == "1" && "1"[..0] == "";
    assert Value("1") == 1 && Value("10") == 10 && Value("102") == 102;
    assert Print(1) == "1" && Print(10) == "10" && Print(102) == "102";
  }

  /** Digits after at most one sign are read as a signed number. */
  lemma SignedReads(digits: string)
    requires digits != "" && AllDigits(digits)
    ensures Signed(digits) == Some(Value(digits)) && Signed("+" + digits) == Some(Value(digits))
    ensures Signed("-" + digits) == Some(-(Value(digits) as int))
  {
    hide Value;
    assert digits[0] in digits;
    assert ("+" + digits)[1..] == digits && ("-" + digits)[1..] == digits;
  }

  /** And nothing else is. */
  lemma SignedOnly(s: string)
    requires Signed(s).Some?
    ensures exists d | d != "" && AllDigits(d) :: s == d || s == "+" + d || s == "-" + d
  {
    hide Value;
    var d := if s[0] == '+' || s[0] == '-' then s[1..] else s;
    assert d != "" && AllDigits(d) && (s == d || s == [s[0]] + d);
  }
}
