/**
 * The database keeps instants as text and sorts and compares them as text
 * (crates/db/src/models/activity_item/access.rs). In years 0 to 9999 that is the order of time, and
 * the lists paged by it visit every row.
 */
module DatabaseOrder {
  import opened Common
  import opened Decimal
  import opened Ordering
  import opened Calendar
  import opened Timestamps
  import Cursor
  import opened Pagination

  // ---------------------------------------------------------------------------------------------
  // Text order
  // ---------------------------------------------------------------------------------------------

  /** Texts that begin with parts of one length compare by those parts first. */
  lemma {:induction false} PrefixOrder(a: string, b: string, x: string, y: string)
    requires |a| == |b|
    ensures Less(a, b) ==> Less(a + x, b + y)
    ensures a == b ==> (Less(a + x, b + y) <==> Less(x, y))
  {
    if a == "" {
      assert a + x == x && b + y == y;
    } else {
      assert (a + x)[1..] == a[1..] + x && (b + y)[1..] == b[1..] + y;
      PrefixOrder(a[1..], b[1..], x, y);
    }
  }

  /** Numbers written with the same number of digits compare as numbers. */
  lemma {:induction false} FixedOrder(w: nat, m: nat, n: nat)
    requires m < n < Pow10(w)
    ensures Less(Fixed(w, m), Fixed(w, n))
  {
    if w != 0 {
      var a, b := Fixed(w - 1, m / 10), Fixed(w - 1, n / 10);
      if m / 10 < n / 10 {
        FixedOrder(w - 1, m / 10, n / 10);
      } else {
        var p, q := [DigitChar(m % 10)], [DigitChar(n % 10)];
        assert p[0] < q[0] && Less(p, q);
      }
      PrefixOrder(a, b, [DigitChar(m % 10)], [DigitChar(n % 10)]);
    }
  }

  lemma TwoOrder(m: nat, n: nat, x: string, y: string)
    requires m < 100 && n < 100
    ensures m < n ==> Less(Two(m) + x, Two(n) + y)
    ensures m == n ==> (Less(Two(m) + x, Two(n) + y) <==> Less(x, y))
  {
    assert Pow10(2) == 100 by { assert Pow10(1) == 10; }
    if m < n { FixedOrder(2, m, n); }
    PrefixOrder(Two(m), Two(n), x, y);
  }

  lemma FractionOrder(m: nat, n: nat)
    requires m < n < SECOND_US
    ensures Less(FractionText(m), FractionText(n))
  {
    Million();
    if m != 0 {
      FixedOrder(6, m, n);
      PrefixOrder(".", ".", Fixed(6, m), Fixed(6, n));
    }
  }

  // ---------------------------------------------------------------------------------------------
  // Field order
  // ---------------------------------------------------------------------------------------------

  predicate DateLess(a: Date, b: Date) {
    a.year < b.year || (a.year == b.year && (a.month < b.month || (a.month == b.month && a.day < b.day)))
  }

  function Seconds(f: Fields): int {
    (f.hour * 60 + f.minute) * 60 + f.second
  }

  lemma DatesAscend(a: Date, b: Date)
    requires Valid(a) && Valid(b) && DateLess(a, b)
    ensures DayNumber(a) < DayNumber(b)
  {
    InYear(a);
    InYear(b);
    if a.year < b.year {
      YearsAscend(a.year, b.year);
    } else if a.month < b.month {
      MonthsAscend(IsLeap(a.year), a.month, b.month);
    }
  }

  /** Which of two instants comes first, field by field. */
  predicate FieldsLess(f: Fields, g: Fields) {
    DateLess(f.date, g.date) || (f.date == g.date && (Seconds(f) < Seconds(g) || (Seconds(f) == Seconds(g) && f.micros < g.micros)))
  }

  lemma FieldsAscend(f: Fields, g: Fields)
    requires FieldsOk(f) && FieldsOk(g) && FieldsLess(f, g)
    ensures At(f) < At(g)
  {
    hide DayNumber, MonthStart, IsLeap;
    if DateLess(f.date, g.date) {
      DatesAscend(f.date, g.date);
    }
    var a, b := DayNumber(f.date) - EPOCH_DAY, DayNumber(g.date) - EPOCH_DAY;
    assert 0 <= Seconds(f) < DAY_S && 0 <= Seconds(g) < DAY_S;
    MixedAscends(a, Seconds(f), f.micros, b, Seconds(g), g.micros);
  }

  lemma MixedAscends(a: int, c: int, u: int, b: int, d: int, v: int)
    requires 0 <= c < DAY_S && 0 <= d < DAY_S && 0 <= u < SECOND_US && 0 <= v < SECOND_US
    requires a < b || (a == b && (c < d || (c == d && u < v)))
    ensures (a * DAY_S + c) * SECOND_US + u < (b * DAY_S + d) * SECOND_US + v
  {
  }

  /** From the hour on. */
  function TimeText(f: Fields): string
    requires FieldsOk(f)
  {
    Two(f.hour) + (":" + (Two(f.minute) + (":" + (Two(f.second) + FractionText(f.micros)))))
  }

  lemma TimeAscends(f: Fields, g: Fields)
    requires FieldsOk(f) && FieldsOk(g)
    requires Seconds(f) < Seconds(g) || (Seconds(f) == Seconds(g) && f.micros < g.micros)
    ensures Less(TimeText(f), TimeText(g))
  {
    hide Two, FractionText, Less, Valid;
    assert f.hour <= g.hour && (f.hour == g.hour ==> f.minute <= g.minute);
    assert f.hour == g.hour && f.minute == g.minute ==> f.second <= g.second;
    if f.micros < g.micros { FractionOrder(f.micros, g.micros); }
    var u, v := Two(f.second) + FractionText(f.micros), Two(g.second) + FractionText(g.micros);
    TwoOrder(f.second, g.second, FractionText(f.micros), FractionText(g.micros));
    PrefixOrder(":", ":", u, v);
    var x, w := Two(f.minute) + (":" + u), Two(g.minute) + (":" + v);
    TwoOrder(f.minute, g.minute, ":" + u, ":" + v);
    PrefixOrder(":", ":", x, w);
    TwoOrder(f.hour, g.hour, ":" + x, ":" + w);
  }

  lemma ClockAscends(f: Fields, g: Fields)
    requires FieldsOk(f) && FieldsOk(g) && f.date.year == g.date.year && FieldsLess(f, g)
    ensures Less(ClockText(f) + FractionText(f.micros), ClockText(g) + FractionText(g.micros))
  {
    hide Two, FractionText, Less, ClockText, TimeText, MonthStart, IsLeap, Seconds;
    ClockParts(f);
    ClockParts(g);
    if f.date == g.date { TimeAscends(f, g); }
    DayAscends(f.date.month, f.date.day, TimeText(f), g.date.month, g.date.day, TimeText(g));
  }

  lemma DayAscends(m: nat, d: nat, u: string, n: nat, e: nat, v: string)
    requires m < 100 && d < 100 && n < 100 && e < 100
    requires m < n || (m == n && (d < e || (d == e && Less(u, v))))
    ensures Less(Two(m) + ("-" + (Two(d) + (" " + u))), Two(n) + ("-" + (Two(e) + (" " + v))))
  {
    hide Two, Less;
    PrefixOrder(" ", " ", u, v);
    TwoOrder(d, e, " " + u, " " + v);
    PrefixOrder("-", "-", Two(d) + (" " + u), Two(e) + (" " + v));
    TwoOrder(m, n, "-" + (Two(d) + (" " + u)), "-" + (Two(e) + (" " + v)));
  }

  lemma ClockParts(f: Fields)
    requires FieldsOk(f)
    ensures f.date.day < 100
    ensures ClockText(f) + FractionText(f.micros) ==
            Two(f.date.month) + ("-" + (Two(f.date.day) + (" " + TimeText(f))))
  {
    hide Two, FractionText;
  }

  lemma FieldsTotal(f: Fields, g: Fields)
    requires FieldsOk(f) && FieldsOk(g)
    ensures f == g || FieldsLess(f, g) || FieldsLess(g, f)
  {
    hide Valid;
    if Seconds(f) == Seconds(g) {
      assert f.hour == g.hour && f.minute == g.minute && f.second == g.second;
    }
  }

  // ---------------------------------------------------------------------------------------------
  // When text order is time order
  // ---------------------------------------------------------------------------------------------

  /** A dash sorts before every digit, so a number that ends comes before one that goes on. */
  lemma {:induction false} DigitsBeforeDash(a: string, b: string, p: string, q: string)
    requires AllDigits(a) && AllDigits(b) && a != b
    ensures Less(a + ("-" + p), b + ("-" + q)) <==> Less(a, b)
  {
    var x, y := a + ("-" + p), b + ("-" + q);
    assert a != "" ==> a[0] in a && x[0] == a[0];
    assert b != "" ==> b[0] in b && y[0] == b[0];
    if a != "" && b != "" {
      assert a == [a[0]] + a[1..] && b == [b[0]] + b[1..];
      assert x[1..] == a[1..] + ("-" + p) && y[1..] == b[1..] + ("-" + q);
      assert (forall c | c in a[1..] :: c in a) && (forall c | c in b[1..] :: c in b);
      if a[0] == b[0] { DigitsBeforeDash(a[1..], b[1..], p, q); }
    }
  }

  /** Texts of different years compare as the years are written. */
  lemma YearsDecide(y: int, z: int, p: string, q: string)
    requires y != z
    ensures Less(YearText(y) + ("-" + p), YearText(z) + ("-" + q)) <==> Less(YearText(y), YearText(z))
  {
    hide YearDigits, Value;
    var a, b := YearDigits(if y < 0 then -y else y), YearDigits(if z < 0 then -z else z);
    var u, v := "-" + p, "-" + q;
    assert a[0] in a && b[0] in b;
    if (y < 0) == (z < 0) {
      DigitsBeforeDash(a, b, p, q);
    }
    if y < 0 && z < 0 {
      PrefixOrder("-", "-", a, b);
      PrefixOrder("-", "-", a + u, b + v);
      assert ("-" + a) + u == "-" + (a + u) && ("-" + b) + v == "-" + (b + v);
    }
  }

  /** The whole order of the texts: within a year that of time, between years that of the years' texts. */
  lemma TextOrderExactly(s: int, t: int)
    ensures var y, z := YearOf(s), YearOf(t);
            Less(ToDb(s), ToDb(t)) <==> if y == z then s < t else Less(YearText(y), YearText(z))
  {
    hide FieldsOf, ClockText, FractionText, YearText, Less, MonthStart, IsLeap, At;
    var f, g := FieldsOf(s), FieldsOf(t);
    var p, q := ClockText(f) + FractionText(f.micros), ClockText(g) + FractionText(g.micros);
    var y, z := YearText(f.date.year), YearText(g.date.year);
    Assoc(y, "-", p);
    Assoc(z, "-", q);
    if f.date.year != g.date.year {
      YearsDecide(f.date.year, g.date.year, p, q);
    } else {
      PrefixOrder("-", "-", p, q);
      PrefixOrder(y, z, "-" + p, "-" + q);
      SameYearOrder(f, g);
    }
  }

  lemma SameYearOrder(f: Fields, g: Fields)
    requires FieldsOk(f) && FieldsOk(g) && f.date.year == g.date.year
    ensures Less(ClockText(f) + FractionText(f.micros), ClockText(g) + FractionText(g.micros)) <==> At(f) < At(g)
  {
    hide ClockText, FractionText, Less, FieldsLess, Valid, At;
    LessTotal(ClockText(f) + FractionText(f.micros), ClockText(g) + FractionText(g.micros));
    FieldsTotal(f, g);
    if FieldsLess(f, g) {
      FieldsAscend(f, g);
      ClockAscends(f, g);
    } else if FieldsLess(g, f) {
      FieldsAscend(g, f);
      ClockAscends(g, f);
    }
  }

  function YearOf(t: int): int {
    FieldsOf(t).date.year
  }

  lemma YearsInOrder(s: int, t: int)
    requires YearOf(s) < YearOf(t)
    ensures s < t
  {
    hide FieldsOf, FieldsOk, At;
    FieldsAscend(FieldsOf(s), FieldsOf(t));
  }

  /** The texts of two years sort as the years do. */
  predicate YearsAgree(y: int, z: int) {
    y == z || (Less(YearText(y), YearText(z)) <==> y < z)
  }

  /** The database's order of two instants is their order in time exactly when their years' texts sort as
      the years do. */
  lemma TextOrderIsTimeOrder(s: int, t: int)
    ensures (Less(ToDb(s), ToDb(t)) <==> s < t) <==> YearsAgree(YearOf(s), YearOf(t))
  {
    hide ToDb, Less, YearText, YearOf;
    TextOrderExactly(s, t);
    if YearOf(s) < YearOf(t) {
      YearsInOrder(s, t);
    } else if YearOf(t) < YearOf(s) {
      YearsInOrder(t, s);
    }
  }

  lemma YearOrder(m: nat, n: nat)
    requires m <= 9999 && n <= 9999
    ensures |YearText(m)| == |YearText(n)| && (m < n ==> Less(YearText(m), YearText(n)))
  {
    TenThousand();
    if m < n { FixedOrder(4, m, n); }
  }

  /** With at most four digits that is unless both years lie before year 0 and differ. */
  lemma FourDigitYears(y: int, z: int)
    requires -9999 <= y <= 9999 && -9999 <= z <= 9999
    ensures YearsAgree(y, z) <==> y == z || y >= 0 || z >= 0
  {
    hide YearDigits;
    var a, b := YearDigits(if y < 0 then -y else y), YearDigits(if z < 0 then -z else z);
    assert a[0] in a && b[0] in b;
    YearOrder(if y < 0 then -y else y, if z < 0 then -z else z);
    YearOrder(if z < 0 then -z else z, if y < 0 then -y else y);
    LessTotal(a, b);
    if y < 0 && z < 0 { PrefixOrder("-", "-", a, b); }
  }

  // --- the same in numbers ----------------------------------------------------------------------

  /** How many digits a year is written with, its sign aside. */
  function Width(n: nat): nat {
    if n < 10_000 then 4 else 1 + Width(n / 10)
  }

  /** `n` with zeros put after it until it is as wide as `m`. */
  function Padded(n: nat, m: nat): nat {
    if Width(n) < Width(m) then n * Pow10(Width(m) - Width(n)) else n
  }

  /** Whether the text of year `y` sorts before that of year `z`, in numbers: a negative year before any
      other, and otherwise the one that is smaller, sign aside, once both are padded to one width, or is as
      large and shorter. */
  predicate YearSortsBefore(y: int, z: int) {
    if (y < 0) != (z < 0) then y < 0
    else
      var a, b := if y < 0 then -y else y, if z < 0 then -z else z;
      Padded(a, b) < Padded(b, a) || (Padded(a, b) == Padded(b, a) && Width(a) < Width(b))
  }

  lemma {:induction false} PrintWidth(n: nat)
    requires n >= 1000
    ensures |Print(n)| == Width(n)
  {
    if n >= 10_000 {
      PrintWidth(n / 10);
    } else {
      assert |Print(n / 100 / 10)| == 1 && |Print(n / 100)| == 2 && |Print(n / 10)| == 3 by {
        assert n / 10 / 10 == n / 100;
      }
    }
  }

  lemma DigitsWidth(n: nat)
    ensures |YearDigits(n)| == Width(n)
  {
    if n >= 10_000 { PrintWidth(n); }
  }

  /** The value of a text in two parts. */
  lemma {:induction false} ValueConcat(a: string, b: string)
    requires AllDigits(a) && AllDigits(b)
    ensures AllDigits(a + b) && Value(a + b) == Value(a) * Pow10(|b|) + Value(b)
  {
    if b == "" {
      assert a + b == a;
    } else {
      var front, last := b[..|b| - 1], b[|b| - 1];
      assert last in b && forall c | c in front :: c in b;
      ValueConcat(a, front);
      assert (a + b)[..|a + b| - 1] == a + front && (a + b)[|a + b| - 1] == last;
      ValueMore(a + front, last);
      ValueMore(front, last);
      assert a + b == (a + front) + [last] && b == front + [last];
      hide Value, Pow10;
      PowMore(|front|);
      ShiftOne(Value(a), Pow10(|front|), Value(front), DigitValue(last));
    }
  }

  lemma ShiftOne(v: nat, p: nat, f: nat, d: nat)
    ensures (v * p + f) * 10 + d == v * (10 * p) + (f * 10 + d)
  {
  }

  /** Digits of one length sort as their values. */
  lemma SameWidthOrder(a: string, b: string)
    requires AllDigits(a) && AllDigits(b) && |a| == |b|
    ensures Less(a, b) <==> Value(a) < Value(b)
  {
    hide Less, Value, Fixed;
    FixedOfValue(a);
    FixedOfValue(b);
    LessTotal(a, b);
    if Value(a) < Value(b) {
      FixedOrder(|a|, Value(a), Value(b));
    } else if Value(b) < Value(a) {
      FixedOrder(|a|, Value(b), Value(a));
    }
  }

  /** Shorter digits sort before longer ones exactly when, padded to their length, they are worth no more. */
  lemma ShorterOrder(a: string, b: string)
    requires AllDigits(a) && AllDigits(b) && |a| < |b|
    ensures Less(a, b) <==> Value(a) * Pow10(|b| - |a|) <= Value(b)
    ensures Less(b, a) <==> Value(b) < Value(a) * Pow10(|b| - |a|)
  {
    hide Less, Value;
    var head, tail := b[..|a|], b[|a|..];
    assert b == head + tail && a + "" == a;
    assert (forall c | c in head :: c in b) && (forall c | c in tail :: c in b);
    SameWidthOrder(a, head);
    SameWidthOrder(head, a);
    PrefixOrder(a, head, "", tail);
    PrefixOrder(head, a, tail, "");
    LessTotal(a, b);
    LessTotal(a, head);
    EmptyFirst(tail);
    ValueConcat(head, tail);
    FixedOfValue(tail);
    Leading(Value(a), Value(head), Value(tail), Pow10(|tail|));
  }

  lemma EmptyFirst(s: string)
    ensures s != "" ==> Less("", s) && !Less(s, "")
  {
  }

  lemma Leading(a: nat, h: nat, t: nat, p: nat)
    requires t < p
    ensures a <= h <==> a * p <= h * p + t
  {
    if a <= h {
      assert a * p <= h * p;
    } else {
      assert a * p >= (h + 1) * p == h * p + p;
    }
  }

  lemma DigitsSort(m: nat, n: nat)
    ensures Less(YearDigits(m), YearDigits(n)) <==>
            Padded(m, n) < Padded(n, m) || (Padded(m, n) == Padded(n, m) && Width(m) < Width(n))
  {
    hide Less, Value, YearDigits, Width;
    var a, b := YearDigits(m), YearDigits(n);
    DigitsWidth(m);
    DigitsWidth(n);
    if |a| == |b| {
      SameWidthOrder(a, b);
    } else if |a| < |b| {
      ShorterOrder(a, b);
    } else {
      ShorterOrder(b, a);
    }
  }

  /** The order of any two years' texts, in numbers; so `YearsAgree` is a matter of numbers too. */
  lemma YearsSortExactly(y: int, z: int)
    ensures Less(YearText(y), YearText(z)) <==> YearSortsBefore(y, z)
    ensures YearsAgree(y, z) <==> y == z || (YearSortsBefore(y, z) <==> y < z)
  {
    hide YearDigits, Padded, Width;
    var m, n := if y < 0 then -y else y, if z < 0 then -z else z;
    var a, b := YearDigits(m), YearDigits(n);
    assert a[0] in a && b[0] in b;
    DigitsSort(m, n);
    if y < 0 && z < 0 { PrefixOrder("-", "-", a, b); }
  }

  /** Two pairs of instants that sort the wrong way round: the starts of the years -2 and -1, and the last
      microsecond of year 9999 with the next. */
  lemma WrongWayRound()
    ensures Less(ToDb(-62_198_755_200_000_000), ToDb(-62_230_291_200_000_000))
    ensures Less(ToDb(253_402_300_800_000_000), ToDb(253_402_300_799_999_999))
  {
    hide ToDb, Less, YearText, FieldsOf;
    var f, g := Fields(Date(-2, 1, 1), 0, 0, 0, 0), Fields(Date(-1, 1, 1), 0, 0, 0, 0);
    var l, m := Fields(Date(9999, 12, 31), 23, 59, 59, 999_999), Fields(Date(10_000, 1, 1), 0, 0, 0, 0);
    Names(-62_230_291_200_000_000, f);
    Names(-62_198_755_200_000_000, g);
    Names(253_402_300_799_999_999, l);
    Names(253_402_300_800_000_000, m);
    TextOrderExactly(-62_198_755_200_000_000, -62_230_291_200_000_000);
    TextOrderExactly(253_402_300_800_000_000, 253_402_300_799_999_999);
    OddYears();
  }

  lemma Names(t: int, f: Fields)
    requires FieldsOk(f) && At(f) == t
    ensures YearOf(t) == f.date.year
  {
    hide FieldsOf, At, FieldsOk;
    FieldsUnique(FieldsOf(t), f);
  }

  lemma OddYears()
    ensures Less(YearText(-1), YearText(-2)) && Less(YearText(10_000), YearText(9999))
  {
    hide YearText;
    FourDigitYears(-1, -2);
    LessTotal(YearText(-1), YearText(-2));
    TenThousandSorts();
  }

  lemma TenThousandSorts()
    ensures Less(YearText(10_000), YearText(9999))
  {
    assert Value("9999") == 9999 by { assert "9999"[..3] == "999" && "999"[..2] == "99" && "99"[..1] == "9" && "9"[..0] == ""; }
    assert Value("10000") == 10_000 by { assert "10000"[..4] == "1000" && "1000"[..3] == "100" && "100"[..2] == "10" && "10"[..1] == "1" && "1"[..0] == ""; }
    YearDigitsOfValue("9999");
    YearDigitsOfValue("10000");
    assert Less("10000", "9999");
  }

  // ---------------------------------------------------------------------------------------------
  // The lists
  // ---------------------------------------------------------------------------------------------

  /** The order the activity and ledger queries sort by and page by: latest text first, then highest id. */
  predicate NewestFirst(a: (Instant, int), b: (Instant, int)) {
    Less(ToDb(b.0), ToDb(a.0)) || (ToDb(a.0) == ToDb(b.0) && b.1 < a.1)
  }

  predicate HighestFirst(a: int, b: int) {
    b < a
  }

  /** The lists order two keys by time and then by id exactly when the texts of their years sort as the
      years do: always from year 0 to year 9999. */
  lemma NewestFirstIsLatest(a: (Instant, int), b: (Instant, int))
    ensures (NewestFirst(a, b) <==> b.0 < a.0 || (a.0 == b.0 && b.1 < a.1)) <==> YearsAgree(YearOf(b.0), YearOf(a.0))
    ensures 0 <= YearOf(a.0) <= 9999 && 0 <= YearOf(b.0) <= 9999 ==> YearsAgree(YearOf(b.0), YearOf(a.0))
  {
    hide ToDb, YearOf, Less, ParseDb, YearsAgree;
    TextOrderIsTimeOrder(b.0, a.0);
    DbRoundTrip(a.0);
    DbRoundTrip(b.0);
    SameYearAgrees(a.0, b.0);
    if 0 <= YearOf(a.0) <= 9999 && 0 <= YearOf(b.0) <= 9999 { FourDigitYears(YearOf(b.0), YearOf(a.0)); }
  }

  lemma SameYearAgrees(s: int, t: int)
    ensures s == t ==> YearsAgree(YearOf(t), YearOf(s))
  {
  }

  /** Whether the query finds a row with text `y` and id `n` after the key with text `x` and that id. */
  predicate After(x: string, id: int, y: string, n: int) {
    Less(y, x) || (y == x && n < id)
  }

  /** A cursor holds the text of the parsed instant, not the stored text. It stands for its row, in every
      table there could be, exactly when the stored text is canonical; with any other the row is found
      again or the next of the same time is skipped. */
  lemma KeysetExactly(stored: string, id: int)
    requires ParseDb(stored).Some?
    ensures (forall y: string, n: int :: After(ToDb(ParseDb(stored).value), id, y, n) <==> After(stored, id, y, n)) <==> CanonicalTime(stored)
  {
    hide ToDb, ParseDb, Less, CanonicalTime;
    TimeTextExactly(stored);
    var written := ToDb(ParseDb(stored).value);
    LessTotal(stored, stored);
    LessTotal(stored, written);
    if stored != written {
      assert After(written, id, stored, id) != After(stored, id, stored, id) || After(written, id, stored, id - 1) != After(stored, id, stored, id - 1);
    }
  }

  lemma NewestFirstIsStrict(a: (Instant, int), b: (Instant, int))
    ensures !NewestFirst(a, a) && !(NewestFirst(a, b) && NewestFirst(b, a))
  {
    hide ToDb, Less;
    LessTotal(ToDb(a.0), ToDb(b.0));
  }

  ghost predicate Descends<K, R>(before: (K, K) -> bool, table: seq<Row<K, R>>) {
    forall i, j | 0 <= i < j < |table| :: before(table[i].key, table[j].key)
  }

  /** The activity list and the agents' ledger, followed from the first page to the last, with the
      cursors they really write: every row is visited once, and exactly the surviving ones are listed. */
  lemma PairListsVisitAll<R, I>(show: Row<(Instant, int), R> -> Shown<I>, table: seq<Row<(Instant, int), R>>, size: nat)
    requires Descends(NewestFirst, table) && size > 0
    requires forall row | row in table :: Cursor.IsI64(row.key.1)
    ensures Ordered(NewestFirst, table) && Faithful(PairCodec(DB_CLOCK), table)
    ensures table[0..] == table && RowsAfter(NewestFirst, table, None) == table[0..]
    ensures var walk := Follow(NewestFirst, PairCodec(DB_CLOCK), show, table, None, size, 0);
            && (walk.Some? <==> NoneFails(show, table))
            && (walk.Some? ==> walk.value == Walk(table, ListedOf(show, table)))
  {
    hide NewestFirst, PairCodec;
    forall i, j | 0 <= i <= j < |table|
      ensures !NewestFirst(table[i].key, table[i].key)
      ensures !(NewestFirst(table[i].key, table[j].key) && NewestFirst(table[j].key, table[i].key))
    {
      NewestFirstIsStrict(table[i].key, table[j].key);
    }
    DbClockSound();
    PairCodecFaithful(DB_CLOCK, table);
    FollowVisitsAll(NewestFirst, PairCodec(DB_CLOCK), show, table, size);
  }

  /** Likewise the approval history, by id. */
  lemma ApprovalsVisitAll<R, I>(show: Row<int, R> -> Shown<I>, table: seq<Row<int, R>>, size: nat)
    requires Descends(HighestFirst, table) && size > 0
    requires forall row | row in table :: Cursor.IsI64(row.key) && row.key > 0
    ensures Ordered(HighestFirst, table) && Faithful(IdCodec, table)
    ensures table[0..] == table && RowsAfter(HighestFirst, table, None) == table[0..]
    ensures var walk := Follow(HighestFirst, IdCodec, show, table, None, size, 0);
            && (walk.Some? <==> NoneFails(show, table))
            && (walk.Some? ==> walk.value == Walk(table, ListedOf(show, table)))
  {
    IdCodecFaithful(table);
    FollowVisitsAll(HighestFirst, IdCodec, show, table, size);
  }
}
