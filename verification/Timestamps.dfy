/**
 * How the database writes and reads instants (crates/db/src/time.rs): microseconds since 1970 as
 * UTC text, with a signed year of four digits or more and six more digits for a broken second.
 *
 * The calendar library covers the years around ±9999, so other years go through a year of the same
 * 400-year cycle. Where the source refuses an intermediate value too wide for its 512-bit integers,
 * the instant would be beyond `WIDE_LIMIT` too, so one check at the end stands for all of them.
 */
module Timestamps {
  import opened Common
  import opened Decimal
  import opened Calendar
  import opened Splitting
  import Cursor

  const SECOND_US := 1_000_000
  const DAY_S := 86_400
  const CYCLE_US := DAYS_PER_CYCLE * DAY_S * SECOND_US

  /** Day number of 1 January 1970. */
  const EPOCH_DAY := 719_528

  /** The widest instant: 2^511 - 1 - 2^100. */
  const WIDE_LIMIT: int :=
    0x7FFF_FFFF_FFFF_FFFF_FFFF_FFFF_FFFF_FFFF_FFFF_FFFF_FFFF_FFFF_FFFF_FFFF_FFFF_FFFF_FFFF_FFFF_FFFF_FFFF_FFFF_FFFF_FFFF_FFFF_FFFF_FFEF_FFFF_FFFF_FFFF_FFFF_FFFF_FFFF

  type Instant = t: int | -WIDE_LIMIT <= t <= WIDE_LIMIT witness 0

  /** The instants the calendar library represents itself. */
  const JIFF_MIN := -377_705_023_201_000_000
  const JIFF_MAX := 253_402_207_200_999_999

  // ---------------------------------------------------------------------------------------------
  // Writing
  // ---------------------------------------------------------------------------------------------

  datatype Fields = Fields(date: Date, hour: int, minute: int, second: int, micros: int)

  predicate FieldsOk(f: Fields) {
    && Valid(f.date) && 0 <= f.hour < 24 && 0 <= f.minute < 60 && 0 <= f.second < 60 && 0 <= f.micros < SECOND_US
  }

  /** The instant some fields name. */
  function At(f: Fields): int
    requires 1 <= f.date.month <= 12
  {
    ((DayNumber(f.date) - EPOCH_DAY) * DAY_S + (f.hour * 60 + f.minute) * 60 + f.second) * SECOND_US + f.micros
  }

  /** The fields of an instant, as the calendar library reads them. */
  function Civil(t: int): (f: Fields)
    ensures FieldsOk(f)
  {
    var seconds := t / SECOND_US;
    var clock := seconds % DAY_S;
    DateOfDay(seconds / DAY_S + EPOCH_DAY);
    Fields(DateOf(seconds / DAY_S + EPOCH_DAY), clock / 60 / 60, clock / 60 % 60, clock % 60, t % SECOND_US)
  }

  function YearBase(y: int): int {
    (YearStart(y) - EPOCH_DAY) * DAY_S * SECOND_US
  }

  /** `calendar_proxy`: an instant in the library's range and the years between the two. */
  function CalendarProxy(t: int): (int, int) {
    if JIFF_MIN <= t <= JIFF_MAX then (t, 0)
    else
      var cycles := (t - YearBase(if t < 0 then -9600 else 9200)) / CYCLE_US;
      (t - cycles * CYCLE_US, cycles * 400)
  }

  function Pow10(w: nat): nat {
    if w == 0 then 1 else 10 * Pow10(w - 1)
  }

  /** `w` digits, with leading zeros. */
  function Fixed(w: nat, n: nat): (s: string)
    requires n < Pow10(w)
    ensures |s| == w && AllDigits(s) && Value(s) == n
  {
    if w == 0 then ""
    else
      var front := Fixed(w - 1, n / 10);
      var s := front + [DigitChar(n % 10)];
      assert s[..|s| - 1] == front;
      s
  }

  function Two(n: nat): (s: string)
    requires n < 100
    ensures |s| == 2 && AllDigits(s) && Value(s) == n
  {
    assert Pow10(2) == 100 by { assert Pow10(1) == 10; }
    Fixed(2, n)
  }

  function YearDigits(n: nat): (s: string)
    ensures s != "" && AllDigits(s) && Value(s) == n
  {
    TenThousand();
    if n < 10_000 then Fixed(4, n) else Print(n)
  }

  predicate Ascii(s: string) {
    forall c | c in s :: c as int < 128
  }

  function YearText(y: int): (s: string)
    ensures Ascii(s)
  {
    if y < 0 then "-" + YearDigits(-y) else YearDigits(y)
  }

  /** Month to second: fourteen characters. */
  function ClockText(f: Fields): (s: string)
    requires FieldsOk(f)
    ensures |s| == 14 && Ascii(s)
  {
    Two(f.date.month) + "-" + Two(f.date.day) + " " + Two(f.hour) + ":" + Two(f.minute) + ":" + Two(f.second)
  }

  function FractionText(micros: nat): (s: string)
    requires micros < SECOND_US
    ensures Ascii(s)
  {
    Million();
    if micros == 0 then "" else "." + Fixed(6, micros)
  }

  function FieldsText(f: Fields): string
    requires FieldsOk(f)
  {
    YearText(f.date.year) + "-" + (ClockText(f) + FractionText(f.micros))
  }

  /** The fields `to_db` writes: the proxy's, with the year moved back. */
  function FieldsOf(t: int): (f: Fields)
    ensures FieldsOk(f) && At(f) == t
  {
    var (proxy, shift) := CalendarProxy(t);
    var f := Civil(proxy);
    ProxyFields(t);
    f.(date := f.date.(year := f.date.year + shift), micros := t % SECOND_US)
  }

  function ToDb(t: int): string {
    FieldsText(FieldsOf(t))
  }

  lemma CivilAt(t: int)
    ensures At(Civil(t)) == t && Civil(t).micros == t % SECOND_US
  {
    var seconds := t / SECOND_US;
    var clock := seconds % DAY_S;
    var minutes := clock / 60;
    assert clock == minutes * 60 + clock % 60 && minutes == minutes / 60 * 60 + minutes % 60;
    assert seconds == seconds / DAY_S * DAY_S + clock;
    assert t == seconds * SECOND_US + t % SECOND_US;
    DateOfDay(seconds / DAY_S + EPOCH_DAY);
  }

  /** Going through the proxy loses nothing. */
  lemma ProxyFields(t: int)
    ensures var (proxy, shift) := CalendarProxy(t);
            var f := Civil(proxy);
            var moved := f.(date := f.date.(year := f.date.year + shift), micros := t % SECOND_US);
            FieldsOk(moved) && At(moved) == t
  {
    var (proxy, shift) := CalendarProxy(t);
    var k := ProxyCycles(t);
    hide CalendarProxy, Civil, At, Valid;
    var f := Civil(proxy);
    CivilAt(proxy);
    MovedAt(f, k);
    SameFraction(proxy, k);
    var moved := f.(date := f.date.(year := f.date.year + shift), micros := t % SECOND_US);
    assert moved == f.(date := f.date.(year := f.date.year + 400 * k));
  }

  lemma ProxyCycles(t: int) returns (k: int)
    ensures CalendarProxy(t).1 == 400 * k && t == CalendarProxy(t).0 + k * CYCLE_US
  {
    k := if JIFF_MIN <= t <= JIFF_MAX then 0 else (t - YearBase(if t < 0 then -9600 else 9200)) / CYCLE_US;
  }

  lemma SameFraction(t: int, k: int)
    ensures (t + k * CYCLE_US) % SECOND_US == t % SECOND_US
  {
    var m := k * DAYS_PER_CYCLE * DAY_S;
    assert k * CYCLE_US == m * SECOND_US;
  }

  lemma MovedAt(f: Fields, k: int)
    requires Valid(f.date)
    ensures Valid(f.date.(year := f.date.year + 400 * k))
    ensures At(f.(date := f.date.(year := f.date.year + 400 * k))) == At(f) + k * CYCLE_US
  {
    DateRepeats(f.date, k);
    hide DayNumber;
  }

  /** An instant has one calendar reading only, so `FieldsOf` is the one the calendar gives. */
  lemma FieldsUnique(f: Fields, g: Fields)
    requires FieldsOk(f) && FieldsOk(g) && At(f) == At(g)
    ensures f == g
  {
    hide DayNumber, MonthStart, IsLeap;
    var day, other := DayNumber(f.date) - EPOCH_DAY, DayNumber(g.date) - EPOCH_DAY;
    var clock, tick := (f.hour * 60 + f.minute) * 60 + f.second, (g.hour * 60 + g.minute) * 60 + g.second;
    assert 0 <= clock < DAY_S && 0 <= tick < DAY_S;
    SplitSeconds(day * DAY_S + clock, f.micros, other * DAY_S + tick, g.micros);
    SplitDays(day, clock, other, tick);
    DateUnique(f.date, g.date);
  }

  lemma SplitSeconds(a: int, b: int, c: int, d: int)
    requires a * SECOND_US + b == c * SECOND_US + d && 0 <= b < SECOND_US && 0 <= d < SECOND_US
    ensures a == c && b == d
  {
  }

  lemma SplitDays(a: int, b: int, c: int, d: int)
    requires a * DAY_S + b == c * DAY_S + d && 0 <= b < DAY_S && 0 <= d < DAY_S
    ensures a == c && b == d
  {
  }

  /** Instant 0 is the start of 1970. */
  lemma EpochFields()
    ensures FieldsOf(0) == Fields(Date(1970, 1, 1), 0, 0, 0, 0)
  {
    var f := Fields(Date(1970, 1, 1), 0, 0, 0, 0);
    assert FieldsOk(f) && At(f) == 0;
    hide FieldsOf, At, FieldsOk;
    FieldsUnique(FieldsOf(0), f);
  }

  // ---------------------------------------------------------------------------------------------
  // Reading
  // ---------------------------------------------------------------------------------------------

  predicate IsWhite(c: char) {
    c == ' ' || '\t' <= c <= '\r'
  }

  function TrimStart(s: string): string {
    if s != "" && IsWhite(s[0]) then TrimStart(s[1..]) else s
  }

  function TrimEnd(s: string): string {
    if s != "" && IsWhite(s[|s| - 1]) then TrimEnd(s[..|s| - 1]) else s
  }

  function StripZone(s: string): string {
    if |s| >= 4 && s[|s| - 4..] == " UTC" then s[..|s| - 4]
    else if |s| >= 1 && s[|s| - 1] == 'Z' then s[..|s| - 1]
    else s
  }

  function FindDash(s: string): (i: Option<nat>)
    ensures i.Some? ==> i.value < |s| && s[i.value] == '-'
  {
    if s == "" then None
    else if s[0] == '-' then Some(0)
    else
      var rest := FindDash(s[1..]);
      if rest.None? then None else Some(rest.value + 1)
  }

  function Zeros(n: nat): (s: string)
    ensures |s| == n && AllDigits(s)
  {
    if n == 0 then "" else Zeros(n - 1) + "0"
  }

  /** A fraction's first six digits, as microseconds. */
  function FractionOf(s: string): Option<nat> {
    if s == "" then Some(0)
    else if s[0] == '.' && |s| > 1 && AllDigits(s[1..]) then
      Some(Value(SixDigits(s[1..])))
    else None
  }

  function SixDigits(digits: string): (s: string)
    requires AllDigits(digits)
    ensures AllDigits(s) && |s| == 6
    ensures |digits| == 6 ==> s == digits
  {
    if |digits| >= 6 then
      assert forall c | c in digits[..6] :: c in digits;
      digits[..6]
    else digits + Zeros(6 - |digits|)
  }

  function ProxyYear(year: int): int {
    if -9998 <= year <= 9998 then year else 2000 + year % 400
  }

  function Number(s: string, i: nat): Option<int>
    requires i + 2 <= |s|
  {
    Signed(s[i..i + 2])
  }

  function Within(t: int): Option<Instant> {
    if -WIDE_LIMIT <= t <= WIDE_LIMIT then Some(t) else None
  }

  /** Everything after the year. */
  function ParseRest(year: int, s: string): Option<Instant> {
    if |s| < 14 || s[2] != '-' || (s[5] != ' ' && s[5] != 'T') || s[8] != ':' || s[11] != ':' then None
    else
      var month, day := Number(s, 0), Number(s, 3);
      var hour, minute, second := Number(s, 6), Number(s, 9), Number(s, 12);
      var micros := FractionOf(s[14..]);
      if month.None? || day.None? || hour.None? || minute.None? || second.None? || micros.None? then None
      else
        var proxy := ProxyYear(year);
        Assemble(year - proxy, Fields(Date(proxy, month.value, day.value), hour.value, minute.value, second.value, micros.value))
  }

  /** `from_wide_shifted_jiff`, after the calendar library has accepted the fields. */
  function Assemble(shift: int, f: Fields): Option<Instant> {
    if !FieldsOk(f) || shift % 400 != 0 then None else Within(At(f) + shift / 400 * CYCLE_US)
  }

  function ParseDb(raw: string): Option<Instant> {
    var text := StripZone(TrimEnd(TrimStart(raw)));
    var sign := if text != "" && text[0] == '-' then 1 else 0;
    match FindDash(text[sign..])
    case None => None
    case Some(i) =>
      match Signed(text[..sign + i])
      case None => None
      case Some(year) => ParseRest(year, text[sign + i + 1..])
  }

  // ---------------------------------------------------------------------------------------------
  // What is written reads back
  // ---------------------------------------------------------------------------------------------

  lemma SignedDigits(s: string)
    requires s != "" && AllDigits(s)
    ensures Signed(s) == Some(Value(s)) && Signed("-" + s) == Some(-(Value(s) as int))
  {
    assert s[0] in s && ("-" + s)[1..] == s;
  }

  lemma ClockReads(f: Fields, fraction: string)
    requires FieldsOk(f)
    ensures var s := ClockText(f) + fraction;
            && s[2] == '-' && s[5] == ' ' && s[8] == ':' && s[11] == ':' && s[14..] == fraction
            && Number(s, 0) == Some(f.date.month) && Number(s, 3) == Some(f.date.day)
            && Number(s, 6) == Some(f.hour) && Number(s, 9) == Some(f.minute) && Number(s, 12) == Some(f.second)
  {
    hide Two, Signed;
    var s := ClockText(f) + fraction;
    assert s[0..2] == Two(f.date.month) && s[3..5] == Two(f.date.day);
    assert s[6..8] == Two(f.hour) && s[9..11] == Two(f.minute) && s[12..14] == Two(f.second);
    SignedDigits(Two(f.date.month));
    SignedDigits(Two(f.date.day));
    SignedDigits(Two(f.hour));
    SignedDigits(Two(f.minute));
    SignedDigits(Two(f.second));
  }

  lemma FractionReads(micros: nat)
    requires micros < SECOND_US
    ensures FractionOf(FractionText(micros)) == Some(micros)
  {
    if micros != 0 {
      assert FractionText(micros)[1..] == Fixed(6, micros);
    }
  }

  /** Any field list is read back, through whatever proxy year. */
  lemma RestReads(f: Fields)
    requires FieldsOk(f)
    ensures ParseRest(f.date.year, ClockText(f) + FractionText(f.micros)) == Within(At(f))
  {
    hide ClockText, FractionText, FractionOf, Number, At, MonthStart;
    ClockReads(f, FractionText(f.micros));
    FractionReads(f.micros);
    var year := f.date.year;
    var proxy := ProxyYear(year);
    var k := (proxy - year) / 400;
    ProxyYearCycles(year);
    MovedAt(f, k);
    var moved := f.(date := f.date.(year := proxy));
    assert (year - proxy) / 400 == -k;
    assert At(moved) + -k * CYCLE_US == At(f);
  }

  lemma ProxyYearCycles(year: int)
    ensures var k := (ProxyYear(year) - year) / 400;
            ProxyYear(year) == year + 400 * k && (year - ProxyYear(year)) % 400 == 0 && (year - ProxyYear(year)) / 400 == -k
  {
  }

  lemma {:induction false} DashAfterDigits(s: string, rest: string)
    requires AllDigits(s)
    ensures FindDash(s + "-" + rest) == Some(|s|)
  {
    var text := s + "-" + rest;
    if s != "" {
      assert text[1..] == s[1..] + "-" + rest && text[0] == s[0] && s[0] in s;
      assert forall c | c in s[1..] :: c in s;
      DashAfterDigits(s[1..], rest);
    }
  }

  lemma YearReads(y: int, rest: string)
    ensures var text := YearText(y) + "-" + rest;
            var sign := if text != "" && text[0] == '-' then 1 else 0;
            && FindDash(text[sign..]) == Some(|YearText(y)| - sign)
            && Signed(YearText(y)) == Some(y)
            && text[..|YearText(y)|] == YearText(y) && text[|YearText(y)| + 1..] == rest
            && !IsWhite(text[0])
  {
    hide FindDash, Signed, YearDigits, Value;
    var digits := YearDigits(if y < 0 then -y else y);
    SignedDigits(digits);
    DashAfterDigits(digits, rest);
    assert digits[0] in digits && IsDigit(digits[0]);
    if y < 0 { SplitText("-", digits, rest); } else { SplitText("", digits, rest); }
  }

  lemma SplitText(sign: string, digits: string, rest: string)
    ensures var text := sign + digits + "-" + rest;
            && text[|sign|..] == digits + "-" + rest
            && text[..|sign + digits|] == sign + digits && text[|sign + digits| + 1..] == rest
    ensures "" + digits == digits
  {
  }

  lemma EndsInDigit(f: Fields)
    requires FieldsOk(f)
    ensures var s := FieldsText(f); s != "" && IsDigit(s[|s| - 1])
  {
    var second, s := Two(f.second), FieldsText(f);
    if f.micros == 0 {
      assert s[|s| - 1] == second[1] && second[1] in second;
    } else {
      var fraction := FractionText(f.micros);
      assert s[|s| - 1] == fraction[|fraction| - 1] && fraction[|fraction| - 1] in fraction[1..];
    }
  }

  /** There is nothing to trim or strip. */
  lemma Untrimmed(text: string)
    requires text != "" && !IsWhite(text[0]) && IsDigit(text[|text| - 1])
    ensures StripZone(TrimEnd(TrimStart(text))) == text
  {
    assert TrimStart(text) == text && TrimEnd(text) == text;
    hide TrimStart, TrimEnd;
    var last := text[|text| - 1];
    assert last != 'C' && last != 'Z';
    if |text| >= 4 { assert text[|text| - 4..][3] == last; }
  }

  /** Every instant reads back from the text the database holds for it, whatever its year. */
  lemma DbRoundTrip(t: Instant)
    ensures ParseDb(ToDb(t)) == Some(t)
  {
    hide ClockText, FractionText, YearText, FindDash, Signed, ParseRest, FieldsOf, StripZone, TrimStart, TrimEnd, Valid, At, IsWhite;
    var f := FieldsOf(t);
    var rest := ClockText(f) + FractionText(f.micros);
    EndsInDigit(f);
    YearReads(f.date.year, rest);
    RestReads(f);
    Untrimmed(ToDb(t));
  }

  // ---------------------------------------------------------------------------------------------
  // Which texts are the database's own
  // ---------------------------------------------------------------------------------------------

  /** A year as `to_db` writes it: four digits or more, no zero in front of more than four, no minus zero. */
  predicate CanonicalYear(s: string) {
    var digits := if s != "" && s[0] == '-' then s[1..] else s;
    && |digits| >= 4 && AllDigits(digits)
    && (|digits| > 4 ==> digits[0] != '0')
    && s != "-0000"
  }

  /** Two plain digits at `i`: the number parser would also take a sign. */
  predicate TwoDigits(s: string, i: nat)
    requires i + 2 <= |s|
  {
    IsDigit(s[i]) && IsDigit(s[i + 1])
  }

  /** Month to second, two digits each, with a space and not a `T` before the hour. */
  predicate CanonicalClock(s: string) {
    && |s| == 14 && s[2] == '-' && s[5] == ' ' && s[8] == ':' && s[11] == ':'
    && TwoDigits(s, 0) && TwoDigits(s, 3) && TwoDigits(s, 6) && TwoDigits(s, 9) && TwoDigits(s, 12)
  }

  /** No fraction, or six digits that are not all zero. */
  predicate CanonicalFraction(s: string) {
    s == "" || (|s| == 7 && s[0] == '.' && AllDigits(s[1..]) && s != ".000000")
  }

  /** The texts `to_db` writes, by their letters alone: nothing to trim, no zone, no sign but a year's. */
  predicate CanonicalTime(text: string) {
    var sign := if text != "" && text[0] == '-' then 1 else 0;
    match FindDash(text[sign..])
    case None => false
    case Some(i) =>
      var rest := text[sign + i + 1..];
      CanonicalYear(text[..sign + i]) && |rest| >= 14 && CanonicalClock(rest[..14]) && CanonicalFraction(rest[14..])
  }

  lemma {:induction false} FixedOfValue(s: string)
    requires AllDigits(s)
    ensures Value(s) < Pow10(|s|) && Fixed(|s|, Value(s)) == s
  {
    if s != "" {
      hide Value, Fixed, Pow10;
      var front, last := s[..|s| - 1], s[|s| - 1];
      assert last in s && forall c | c in front :: c in s;
      assert s == front + [last];
      FixedOfValue(front);
      ValueMore(front, last);
      FixedMore(|front|, Value(front), DigitValue(last));
      CharOfValue(last);
    } else {
      EmptyValue();
    }
  }

  lemma EmptyValue()
    ensures Value("") == 0 && Pow10(0) == 1 && Fixed(0, 0) == ""
  {
  }

  lemma FixedMore(w: nat, n: nat, d: nat)
    requires n < Pow10(w) && d < 10
    ensures n * 10 + d < Pow10(w + 1) && Fixed(w + 1, n * 10 + d) == Fixed(w, n) + [DigitChar(d)]
  {
    Split10(n, d);
  }

  lemma ValueMore(s: string, c: char)
    requires AllDigits(s) && IsDigit(c)
    ensures AllDigits(s + [c]) && Value(s + [c]) == Value(s) * 10 + DigitValue(c)
  {
    assert (s + [c])[..|s|] == s;
  }

  lemma PowMore(w: nat)
    ensures Pow10(w + 1) == 10 * Pow10(w)
  {
  }

  lemma {:induction false} ValueAtLeast(s: string)
    requires s != "" && AllDigits(s) && s[0] != '0'
    ensures Value(s) >= Pow10(|s| - 1)
  {
    assert s[0] in s && s[|s| - 1] in s;
    if |s| > 1 {
      var front := s[..|s| - 1];
      assert front[0] == s[0] && forall c | c in front :: c in s;
      ValueAtLeast(front);
    }
  }

  lemma {:induction false} Pow10Grows(a: nat, b: nat)
    requires a <= b
    ensures Pow10(a) <= Pow10(b)
  {
    if a < b { Pow10Grows(a, b - 1); }
  }

  lemma TenThousand()
    ensures Pow10(4) == 10_000
  {
    assert Pow10(1) == 10 && Pow10(2) == 100 && Pow10(3) == 1000;
  }

  lemma YearDigitsOfValue(digits: string)
    requires |digits| >= 4 && AllDigits(digits) && (|digits| > 4 ==> digits[0] != '0')
    ensures YearDigits(Value(digits)) == digits
  {
    hide Value, Fixed, Print;
    TenThousand();
    if |digits| == 4 {
      FixedOfValue(digits);
    } else {
      ValueAtLeast(digits);
      Pow10Grows(4, |digits| - 1);
      PrintValue(digits);
    }
  }

  lemma YearDigitsShape(n: nat)
    ensures var digits := YearDigits(n); |digits| >= 4 && (|digits| > 4 ==> digits[0] != '0')
  {
    hide Value, Fixed;
    TenThousand();
    if n >= 10_000 {
      var digits := Print(n);
      FixedOfValue(digits);
      if |digits| < 4 { Pow10Grows(|digits|, 4); }
    }
  }

  /** A canonical year is exactly what its value is written as. */
  lemma YearTextExactly(s: string)
    requires Signed(s).Some?
    ensures YearText(Signed(s).value) == s <==> CanonicalYear(s)
  {
    hide Value, YearDigits;
    var y := Signed(s).value;
    var digits := YearDigits(if y < 0 then -y else y);
    YearDigitsShape(if y < 0 then -y else y);
    assert digits[0] in digits;
    if CanonicalYear(s) {
      var given := if s[0] == '-' then s[1..] else s;
      assert given[0] in given;
      YearDigitsOfValue(given);
      assert s[0] == '-' ==> s == "-" + given;
      ZeroDigits(given);
    }
    if YearText(y) == s {
      assert y < 0 ==> s[1..] == digits;
      ZeroIsZero();
    }
  }

  lemma ZeroIsZero()
    ensures Value("0000") == 0
  {
    assert "0000"[..3] == "000" && "000"[..2] == "00" && "00"[..1] == "0" && "0"[..0] == "";
  }

  /** Four or more canonical digits that are worth nothing are four zeros. */
  lemma ZeroDigits(digits: string)
    requires |digits| >= 4 && AllDigits(digits) && (|digits| > 4 ==> digits[0] != '0')
    ensures Value(digits) == 0 ==> digits == "0000"
  {
    hide Value, Fixed;
    if |digits| > 4 { ValuePositive(digits); }
    FixedOfValue(digits);
    ZeroIsZero();
    FixedOfValue("0000");
  }

  lemma TwoExactly(s: string, i: nat, n: nat)
    requires i + 2 <= |s| && n < 100 && Number(s, i) == Some(n)
    ensures Two(n) == s[i..i + 2] <==> TwoDigits(s, i)
  {
    hide Value, Fixed;
    var pair, digits := s[i..i + 2], Two(n);
    assert pair[0] == s[i] && pair[1] == s[i + 1] && pair == [s[i], s[i + 1]];
    assert digits[0] in digits && digits[1] in digits;
    if TwoDigits(s, i) {
      assert AllDigits(pair);
      SignedDigits(pair);
      FixedOfValue(pair);
    }
  }

  /** Fourteen characters are what their own fields are written as exactly when they are canonical. */
  lemma ClockExactly(s: string, f: Fields)
    requires |s| == 14 && FieldsOk(f)
    requires Number(s, 0) == Some(f.date.month) && Number(s, 3) == Some(f.date.day)
    requires Number(s, 6) == Some(f.hour) && Number(s, 9) == Some(f.minute) && Number(s, 12) == Some(f.second)
    ensures ClockText(f) == s <==> CanonicalClock(s)
  {
    hide Number, Two, MonthStart, IsLeap;
    SmallDay(f);
    TwoExactly(s, 0, f.date.month);
    TwoExactly(s, 3, f.date.day);
    TwoExactly(s, 6, f.hour);
    TwoExactly(s, 9, f.minute);
    TwoExactly(s, 12, f.second);
    ClockPieces(f);
    hide ClockText;
    var t := ClockText(f);
    if CanonicalClock(s) {
      SamePieces(s, t);
    }
  }

  lemma SmallDay(f: Fields)
    requires FieldsOk(f)
    ensures 1 <= f.date.day < 100
  {
  }

  lemma ClockPieces(f: Fields)
    requires FieldsOk(f)
    ensures var t := ClockText(f);
            && t[0..2] == Two(f.date.month) && t[3..5] == Two(f.date.day)
            && t[6..8] == Two(f.hour) && t[9..11] == Two(f.minute) && t[12..14] == Two(f.second)
            && t[2] == '-' && t[5] == ' ' && t[8] == ':' && t[11] == ':'
  {
    hide Two;
  }

  lemma SamePieces(s: string, t: string)
    requires |s| == |t| == 14 && s[0..2] == t[0..2] && s[3..5] == t[3..5] && s[6..8] == t[6..8]
    requires s[9..11] == t[9..11] && s[12..14] == t[12..14] && s[2] == t[2] && s[5] == t[5] && s[8] == t[8] && s[11] == t[11]
    ensures s == t
  {
    forall i | 0 <= i < 14 ensures s[i] == t[i] {
      if i < 2 { assert s[i] == s[0..2][i] && t[i] == t[0..2][i]; }
      else if 3 <= i < 5 { assert s[i] == s[3..5][i - 3] && t[i] == t[3..5][i - 3]; }
      else if 6 <= i < 8 { assert s[i] == s[6..8][i - 6] && t[i] == t[6..8][i - 6]; }
      else if 9 <= i < 11 { assert s[i] == s[9..11][i - 9] && t[i] == t[9..11][i - 9]; }
      else if 12 <= i { assert s[i] == s[12..14][i - 12] && t[i] == t[12..14][i - 12]; }
    }
  }

  lemma Million()
    ensures Pow10(6) == SECOND_US
  {
    assert Pow10(1) == 10 && Pow10(2) == 100 && Pow10(3) == 1000 && Pow10(4) == 10_000 && Pow10(5) == 100_000;
  }

  lemma FractionExactly(s: string)
    requires FractionOf(s).Some?
    ensures FractionOf(s).value < SECOND_US
    ensures FractionText(FractionOf(s).value) == s <==> CanonicalFraction(s)
  {
    hide Value, Fixed;
    Million();
    ZeroFraction();
    if s != "" {
      var digits := SixDigits(s[1..]);
      FixedOfValue(digits);
      assert s == "." + s[1..];
      if |s| == 7 && s[1..] != "000000" { FixedOfValue("000000"); }
    }
  }

  lemma ZeroFraction()
    ensures Value("000000") == 0
  {
    assert "000000"[..5] == "00000" && "00000"[..4] == "0000";
    ZeroIsZero();
  }

  /** What the parser makes of everything after a year: the fields it read, with that year. */
  lemma RestFields(year: int, s: string) returns (f: Fields)
    requires ParseRest(year, s).Some?
    ensures |s| >= 14 && FieldsOk(f) && f.date.year == year && Some(At(f)) == ParseRest(year, s)
    ensures Number(s, 0) == Some(f.date.month) && Number(s, 3) == Some(f.date.day)
    ensures Number(s, 6) == Some(f.hour) && Number(s, 9) == Some(f.minute) && Number(s, 12) == Some(f.second)
    ensures FractionOf(s[14..]) == Some(f.micros)
  {
    hide Number, FractionOf, At, MonthStart, IsLeap;
    var proxy := ProxyYear(year);
    var g := Fields(Date(proxy, Number(s, 0).value, Number(s, 3).value),
                    Number(s, 6).value, Number(s, 9).value, Number(s, 12).value, FractionOf(s[14..]).value);
    ProxyYearCycles(year);
    var k := (year - proxy) / 400;
    MovedAt(g, k);
    f := g.(date := g.date.(year := year));
    assert f == g.(date := g.date.(year := g.date.year + 400 * k));
  }

  /** The rest of a text is what its fields are written as exactly when it is canonical. */
  lemma RestExactly(s: string, f: Fields)
    requires |s| >= 14 && FieldsOk(f)
    requires Number(s, 0) == Some(f.date.month) && Number(s, 3) == Some(f.date.day)
    requires Number(s, 6) == Some(f.hour) && Number(s, 9) == Some(f.minute) && Number(s, 12) == Some(f.second)
    requires FractionOf(s[14..]) == Some(f.micros)
    ensures ClockText(f) + FractionText(f.micros) == s <==> CanonicalClock(s[..14]) && CanonicalFraction(s[14..])
  {
    hide ClockText, FractionText, CanonicalClock, CanonicalFraction, FractionOf, Signed, MonthStart;
    var whole, fraction := s[..14], s[14..];
    assert whole[0..2] == s[0..2] && whole[3..5] == s[3..5] && whole[6..8] == s[6..8];
    assert whole[9..11] == s[9..11] && whole[12..14] == s[12..14];
    ClockExactly(whole, f);
    FractionExactly(fraction);
    assert s == whole + fraction;
    var t := ClockText(f) + FractionText(f.micros);
    assert t[..14] == ClockText(f) && t[14..] == FractionText(f.micros);
  }

  /** A canonical text has nothing to trim or strip. */
  lemma CanonicalUntrimmed(text: string)
    requires CanonicalTime(text)
    ensures StripZone(TrimEnd(TrimStart(text))) == text
  {
    var sign := if text != "" && text[0] == '-' then 1 else 0;
    var i := FindDash(text[sign..]).value;
    var year, rest := text[..sign + i], text[sign + i + 1..];
    hide StripZone, TrimEnd, TrimStart, FindDash;
    assert text[0] == year[0];
    assert year[0] != '-' ==> year[0] in year && IsDigit(year[0]);
    if |rest| == 14 {
      assert text[|text| - 1] == rest[13] == rest[..14][13];
    } else {
      var fraction := rest[14..];
      assert text[|text| - 1] == fraction[|fraction| - 1] == fraction[1..][|fraction| - 2];
      assert fraction[1..][|fraction| - 2] in fraction[1..];
    }
    Untrimmed(text);
  }

  /** What `to_db` writes is canonical. */
  lemma WrittenIsCanonical(f: Fields)
    requires FieldsOk(f)
    ensures CanonicalTime(FieldsText(f))
  {
    hide ClockText, FractionText, YearText, FindDash, Signed, CanonicalYear, CanonicalClock, CanonicalFraction, FractionOf, Number, MonthStart, IsWhite;
    var rest := ClockText(f) + FractionText(f.micros);
    YearReads(f.date.year, rest);
    YearTextExactly(YearText(f.date.year));
    ClockReads(f, FractionText(f.micros));
    FractionReads(f.micros);
    RestExactly(rest, f);
  }

  /** An accepted text is the one the database writes for its instant exactly when it is canonical. */
  lemma TimeTextExactly(text: string)
    requires ParseDb(text).Some?
    ensures ToDb(ParseDb(text).value) == text <==> CanonicalTime(text)
  {
    hide FieldsOf, FieldsText, ParseRest, FindDash, Signed, StripZone, TrimStart, TrimEnd, CanonicalYear, CanonicalClock, CanonicalFraction, MonthStart, At, YearText, Number, FractionOf;
    var t := ParseDb(text).value;
    WrittenIsCanonical(FieldsOf(t));
    if CanonicalTime(text) {
      CanonicalUntrimmed(text);
      CanonicalIsWritten(text);
    }
  }

  lemma CanonicalIsWritten(text: string)
    requires ParseDb(text).Some? && CanonicalTime(text) && StripZone(TrimEnd(TrimStart(text))) == text
    ensures ToDb(ParseDb(text).value) == text
  {
    hide FieldsOf, ParseRest, FindDash, Signed, StripZone, TrimStart, TrimEnd, CanonicalYear, CanonicalClock, CanonicalFraction, MonthStart, At, YearText, ClockText, FractionText, Number, FractionOf;
    var sign := if text != "" && text[0] == '-' then 1 else 0;
    var i := FindDash(text[sign..]).value;
    var year, rest := text[..sign + i], text[sign + i + 1..];
    assert text[sign..][i] == text[sign + i];
    assert text == year + "-" + rest;
    var f := RestFields(Signed(year).value, rest);
    RestExactly(rest, f);
    YearTextExactly(year);
    FieldsUnique(FieldsOf(ParseDb(text).value), f);
  }

  // ---------------------------------------------------------------------------------------------
  // The cursors' clock
  // ---------------------------------------------------------------------------------------------

  lemma {:induction false} TrimmedBar(s: string, bar: char)
    requires !IsWhite(bar) && bar in s
    ensures bar in TrimStart(s) && bar in TrimEnd(s)
  {
    assert s == [s[0]] + s[1..] && s == s[..|s| - 1] + [s[|s| - 1]];
    if IsWhite(s[0]) { TrimmedBar(s[1..], bar); }
    if IsWhite(s[|s| - 1]) { TrimmedBar(s[..|s| - 1], bar); }
  }

  lemma StrippedBar(s: string)
    requires '|' in s
    ensures '|' in StripZone(s)
  {
    if |s| >= 4 && s[|s| - 4..] == " UTC" {
      assert s == s[..|s| - 4] + " UTC";
    } else if s[|s| - 1] == 'Z' {
      assert s == s[..|s| - 1] + "Z";
    }
  }

  lemma NoBarInRest(year: int, s: string)
    requires ParseRest(year, s).Some?
    ensures '|' !in s
  {
    hide Number, FractionOf, Assemble;
    NoBarInNumber(s, 0);
    NoBarInNumber(s, 3);
    NoBarInNumber(s, 6);
    NoBarInNumber(s, 9);
    NoBarInNumber(s, 12);
    NoBarInFraction(s[14..]);
    forall i | 14 <= i < |s| ensures s[i] != '|' {
      assert s[14..][i - 14] == s[i];
    }
  }

  lemma NoBarInNumber(s: string, i: nat)
    requires i + 2 <= |s| && Number(s, i).Some?
    ensures s[i] != '|' && s[i + 1] != '|'
  {
    var pair := s[i..i + 2];
    assert pair[0] == s[i] && pair[1] == s[i + 1] && pair[0] in pair && pair[1] in pair;
  }

  lemma NoBarInFraction(s: string)
    requires FractionOf(s).Some?
    ensures '|' !in s
  {
    if s != "" { assert s == ['.'] + s[1..]; }
  }

  lemma KeptBar(raw: string)
    ensures '|' in raw ==> '|' in StripZone(TrimEnd(TrimStart(raw)))
  {
    if '|' in raw {
      TrimmedBar(raw, '|');
      TrimmedBar(TrimStart(raw), '|');
      StrippedBar(TrimEnd(TrimStart(raw)));
    }
  }

  /** No text with a bar in it is an instant. */
  lemma NoBarParses(raw: string)
    requires ParseDb(raw).Some?
    ensures '|' !in raw
  {
    hide ParseRest, Signed, TrimStart, TrimEnd, StripZone, FindDash;
    KeptBar(raw);
    var text := StripZone(TrimEnd(TrimStart(raw)));
    var sign := if text != "" && text[0] == '-' then 1 else 0;
    var i := FindDash(text[sign..]).value;
    var year, rest := text[..sign + i], text[sign + i + 1..];
    assert text[sign..][i] == text[sign + i];
    NoBarInRest(Signed(year).value, rest);
    assert text == year + "-" + rest;
  }

  lemma DbBytes(t: int)
    ensures forall c | c in ToDb(t) :: c as int < 256
  {
    hide YearText, ClockText, FractionText, FieldsOf, Valid;
  }

  function DbText(t: Instant): Cursor.Bytes {
    DbBytes(t);
    ToDb(t)
  }

  /** The clock of the cursors. */
  const DB_CLOCK: Cursor.Clock<Instant> := Cursor.Clock(DbText, ParseDb)

  /** The two things the cursors rely on hold of the database's own text. */
  lemma DbClockSound()
    ensures Cursor.Sound(DB_CLOCK)
  {
    hide ToDb, ParseDb;
    forall t: Instant ensures DB_CLOCK.parse(DB_CLOCK.render(t)) == Some(t) {
      DbRoundTrip(t);
    }
    forall text: string | '|' in text ensures DB_CLOCK.parse(text).None? {
      if ParseDb(text).Some? {
        NoBarParses(text);
      }
    }
  }

  /** Every cursor over database instants decodes to its own parts, and to nothing of another shape. */
  lemma DbCursors(rank: int, at: Instant, id: int)
    requires Cursor.IsI64(rank) && Cursor.IsI64(id)
    ensures Cursor.Decode(DB_CLOCK, Cursor.Encode(DB_CLOCK, at, id)) == Some((at, id))
    ensures Cursor.DecodeRanked(DB_CLOCK, Cursor.EncodeRanked(DB_CLOCK, rank, at, id)) == Some((rank, at, id))
    ensures Cursor.DecodeRanked(DB_CLOCK, Cursor.Encode(DB_CLOCK, at, id)).None?
    ensures Cursor.Decode(DB_CLOCK, Cursor.EncodeRanked(DB_CLOCK, rank, at, id)).None?
  {
    hide *;
    DbClockSound();
    Cursor.RoundTrip(DB_CLOCK, at, id);
    Cursor.RoundTripRanked(DB_CLOCK, rank, at, id);
    Cursor.PairIsNoOther(DB_CLOCK, at, id);
    Cursor.RankedIsNoOther(DB_CLOCK, rank, at, id);
  }

  /** An accepted two-part cursor is the encoder's own exactly when both its parts are written canonically,
      which its text alone decides. */
  lemma DbPairExactly(raw: string)
    requires Cursor.Decode(DB_CLOCK, raw).Some?
    ensures var (at, id) := Cursor.Decode(DB_CLOCK, raw).value;
            var (time, number) := SplitLast(Cursor.Decode64(raw).value, '|').value;
            raw == Cursor.Encode(DB_CLOCK, at, id) <==> CanonicalTime(time) && Cursor.Canonical(number)
  {
    hide ToDb, ParseDb, CanonicalTime, Cursor.Encode64, Cursor.Decode64, Cursor.Canonical, SplitLast;
    DbClockSound();
    Cursor.DecodedPairIsEncoded(DB_CLOCK, raw);
    TimeTextExactly(SplitLast(Cursor.Decode64(raw).value, '|').value.0);
  }

  /** And a ranked one when its rank is too. */
  lemma DbRankedExactly(raw: string)
    requires Cursor.DecodeRanked(DB_CLOCK, raw).Some?
    ensures var (rank, at, id) := Cursor.DecodeRanked(DB_CLOCK, raw).value;
            var (first, rest) := SplitFirst(Cursor.Decode64(raw).value, '|').value;
            var (time, number) := SplitLast(rest, '|').value;
            raw == Cursor.EncodeRanked(DB_CLOCK, rank, at, id) <==>
              Cursor.Canonical(first) && CanonicalTime(time) && Cursor.Canonical(number)
  {
    hide ToDb, ParseDb, CanonicalTime, Cursor.Encode64, Cursor.Decode64, Cursor.Canonical, SplitLast, SplitFirst;
    DbClockSound();
    Cursor.DecodedRankedIsEncoded(DB_CLOCK, raw);
    TimeTextExactly(SplitLast(SplitFirst(Cursor.Decode64(raw).value, '|').value.1, '|').value.0);
  }

  const LOOSE_TIME := "1970-01-01T00:00:00Z"

  /** The parser takes a `T` and a zone that `to_db` never writes. */
  lemma LooseTimeParses()
    ensures ParseDb(LOOSE_TIME) == Some(0)
  {
    hide StripZone, TrimStart, TrimEnd, FindDash, Signed, ParseRest;
    var text, rest := "1970-01-01T00:00:00", "01-01T00:00:00";
    LooseStripped();
    DashAfterDigits("1970", rest);
    assert text[0..] == text && text[..4] == "1970" && text[5..] == rest && text == "1970" + "-" + rest;
    SmallNumbers();
    LooseRest();
  }

  lemma LooseStripped()
    ensures StripZone(TrimEnd(TrimStart(LOOSE_TIME))) == "1970-01-01T00:00:00"
  {
    assert TrimStart(LOOSE_TIME) == LOOSE_TIME && TrimEnd(LOOSE_TIME) == LOOSE_TIME;
    assert LOOSE_TIME[|LOOSE_TIME| - 4..][0] == ':';
  }

  lemma SmallNumbers()
    ensures Signed("1970") == Some(1970) && Signed("01") == Some(1) && Signed("00") == Some(0)
  {
    assert "1970"[..3] == "197" && "197"[..2] == "19" && "19"[..1] == "1" && "1"[..0] == "";
    assert "01"[..1] == "0" && "00"[..1] == "0" && "0"[..0] == "";
  }

  lemma LooseRest()
    ensures ParseRest(1970, "01-01T00:00:00") == Some(0)
  {
    SmallNumbers();
    var s := "01-01T00:00:00";
    assert s[0..2] == "01" && s[3..5] == "01" && s[6..8] == "00" && s[9..11] == "00" && s[12..14] == "00" && s[14..] == "";
    hide Signed;
    var f := Fields(Date(1970, 1, 1), 0, 0, 0, 0);
    assert FieldsOk(f) && At(f) == 0;
  }

  /** A two-part cursor no encoder makes decodes as the cursor of 42 at the start of 1970 does. */
  lemma LoosePairDecodes()
    ensures var raw := Cursor.Encode64(LOOSE_TIME + "|+42");
            Cursor.Decode(DB_CLOCK, raw) == Some((0, 42)) && raw != Cursor.Encode(DB_CLOCK, 0, 42)
  {
    hide ToDb, ParseDb, CanonicalTime, Cursor.Encode64, Cursor.Decode64, Cursor.Canonical, Cursor.ParseInt, Signed, SplitLast;
    LooseTimeParses();
    Cursor.PlusSign();
    LooseNotCanonical();
    var text := LOOSE_TIME + "|+42";
    Cursor.Decode64Encode64(text);
    SplitLastAt(LOOSE_TIME, "+42", '|');
    assert text == LOOSE_TIME + ['|'] + "+42";
    DbPairExactly(Cursor.Encode64(text));
  }

  /** So does a ranked one. */
  lemma LooseRankedDecodes()
    ensures var raw := Cursor.Encode64("3|" + LOOSE_TIME + "|+42");
            Cursor.DecodeRanked(DB_CLOCK, raw) == Some((3, 0, 42)) && raw != Cursor.EncodeRanked(DB_CLOCK, 3, 0, 42)
  {
    hide ToDb, ParseDb, CanonicalTime, Cursor.Encode64, Cursor.Decode64, Cursor.Canonical, Cursor.ParseInt, Signed, SplitLast, SplitFirst;
    LooseTimeParses();
    Cursor.PlusSign();
    LooseNotCanonical();
    var text, rest := "3|" + LOOSE_TIME + "|+42", LOOSE_TIME + "|+42";
    Cursor.Decode64Encode64(text);
    SplitFirstAt("3", rest, '|');
    SplitLastAt(LOOSE_TIME, "+42", '|');
    assert text == "3" + ['|'] + rest && rest == LOOSE_TIME + ['|'] + "+42";
    DbRankedExactly(Cursor.Encode64(text));
  }

  lemma LooseNotCanonical()
    ensures !CanonicalTime(LOOSE_TIME)
  {
    hide CanonicalYear, CanonicalFraction, FindDash;
    var rest := "01-01T00:00:00Z";
    assert rest[..14][5] == 'T';
    DashAfterDigits("1970", rest);
    assert LOOSE_TIME == "1970" + "-" + rest && LOOSE_TIME[0..] == LOOSE_TIME && LOOSE_TIME[5..] == rest;
  }
}
