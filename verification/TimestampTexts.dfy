/**
 * Exactly which texts the database reads as an instant, and which instant (crates/db/src/time.rs), said of
 * the pieces of the text: white space, zone, year, clock and fraction.
 */
module TimestampTexts {
  import opened Common
  import opened Decimal
  import opened Timestamps
  import Calendar

  // ---------------------------------------------------------------------------------------------
  // What is around the text
  // ---------------------------------------------------------------------------------------------

  predicate Blank(c: char) {
    c == ' ' || c == '\t' || c == '\n' || c == '\U{000B}' || c == '\U{000C}' || c == '\r'
  }

  predicate White(s: string) {
    forall c | c in s :: Blank(c)
  }

  ghost predicate EndsWith(s: string, tail: string) {
    exists front :: s == front + tail
  }

  /** `raw` is `core` with white space around it, none of it at the ends of `core`. */
  ghost predicate Around(raw: string, core: string) {
    && (exists lead, trail :: White(lead) && White(trail) && raw == lead + core + trail)
    && (core != "" ==> !Blank(core[0]) && !Blank(core[|core| - 1]))
  }

  /** `core` is `text` with one zone, or without any. */
  ghost predicate Zoned(core: string, text: string) {
    || core == text + " UTC"
    || core == text + "Z"
    || (core == text && !EndsWith(core, " UTC") && !EndsWith(core, "Z"))
  }

  lemma {:induction false} TrimStartAround(s: string) returns (lead: string)
    ensures White(lead) && s == lead + TrimStart(s)
    ensures TrimStart(s) != "" ==> !Blank(TrimStart(s)[0])
  {
    lead := "";
    if s != "" && IsWhite(s[0]) {
      var rest := TrimStartAround(s[1..]);
      assert TrimStart(s) == TrimStart(s[1..]) && Blank(s[0]);
      lead := [s[0]] + rest;
      hide TrimStart, Blank;
      assert s == [s[0]] + s[1..];
    }
  }

  lemma {:induction false} TrimEndAround(s: string) returns (trail: string)
    ensures White(trail) && s == TrimEnd(s) + trail
    ensures TrimEnd(s) != "" ==> !Blank(TrimEnd(s)[|TrimEnd(s)| - 1]) && TrimEnd(s)[0] == s[0]
  {
    trail := "";
    if s != "" && IsWhite(s[|s| - 1]) {
      var front, last := s[..|s| - 1], s[|s| - 1];
      var rest := TrimEndAround(front);
      assert TrimEnd(s) == TrimEnd(front) && Blank(last);
      trail := rest + [last];
      hide TrimEnd, Blank;
      assert s == front + [last];
    }
  }

  /** Trimming finds such a core. */
  lemma TrimAround(raw: string)
    ensures Around(raw, TrimEnd(TrimStart(raw)))
  {
    hide TrimStart, TrimEnd, White, Blank;
    var lead := TrimStartAround(raw);
    var trail := TrimEndAround(TrimStart(raw));
    assert raw == lead + TrimEnd(TrimStart(raw)) + trail;
  }

  /** And there is only one. */
  lemma {:induction false} TrimLead(lead: string, s: string)
    requires White(lead)
    ensures TrimStart(lead + s) == TrimStart(s)
  {
    if lead == "" {
      assert lead + s == s;
    } else {
      assert lead[0] in lead && forall c | c in lead[1..] :: c in lead;
      assert (lead + s)[1..] == lead[1..] + s;
      TrimLead(lead[1..], s);
    }
  }

  lemma {:induction false} TrimTrail(s: string, trail: string)
    requires White(trail)
    ensures TrimEnd(s + trail) == TrimEnd(s)
  {
    if trail == "" {
      assert s + trail == s;
    } else {
      var front, last := trail[..|trail| - 1], trail[|trail| - 1];
      assert last in trail && forall c | c in front :: c in trail;
      assert (s + trail)[..|s + trail| - 1] == s + front;
      TrimTrail(s, front);
    }
  }

  lemma {:induction false} TrimAllWhite(s: string)
    requires White(s)
    ensures TrimStart(s) == "" && TrimEnd("") == ""
  {
    if s != "" {
      assert s[0] in s && forall c | c in s[1..] :: c in s;
      TrimAllWhite(s[1..]);
    }
  }

  lemma TrimExactly(raw: string, core: string)
    ensures Around(raw, core) <==> core == TrimEnd(TrimStart(raw))
  {
    hide TrimStart, TrimEnd;
    TrimAround(raw);
    if Around(raw, core) {
      var lead, trail :| White(lead) && White(trail) && raw == lead + core + trail;
      assert raw == lead + (core + trail);
      TrimLead(lead, core + trail);
      if core == "" {
        assert core + trail == trail;
        TrimAllWhite(trail);
      } else {
        NoTrim(core, trail);
        TrimTrail(core, trail);
      }
    }
  }

  lemma NoTrim(core: string, trail: string)
    requires core != "" && !Blank(core[0]) && !Blank(core[|core| - 1])
    ensures TrimStart(core + trail) == core + trail && TrimEnd(core) == core
  {
  }

  lemma ZoneExactly(core: string, text: string)
    ensures Zoned(core, text) <==> text == StripZone(core)
  {
    Suffix(core, " UTC");
    Suffix(core, "Z");
    assert |text| >= 0 && (text + " UTC")[|text|..] == " UTC" && (text + " UTC")[..|text|] == text;
    assert (text + "Z")[..|text|] == text && (text + "Z")[|text|] == 'Z';
    if |core| >= 4 && core[|core| - 4..] == " UTC" {
      assert core == core[..|core| - 4] + " UTC" && core[|core| - 1] == 'C';
    } else if |core| >= 1 && core[|core| - 1] == 'Z' {
      assert core == core[..|core| - 1] + "Z";
    }
  }

  lemma Suffix(s: string, tail: string)
    ensures EndsWith(s, tail) <==> |s| >= |tail| && s[|s| - |tail|..] == tail
  {
    if |s| >= |tail| && s[|s| - |tail|..] == tail {
      assert s == s[..|s| - |tail|] + tail;
    }
    if front :| s == front + tail {
      assert s[|s| - |tail|..] == tail;
    }
  }

  // ---------------------------------------------------------------------------------------------
  // Fractions
  // ---------------------------------------------------------------------------------------------

  /** Nothing, or a point and digits: the microseconds are the fraction cut off after the sixth digit. */
  ghost predicate Fraction(s: string, micros: nat) {
    || (s == "" && micros == 0)
    || exists digits | digits != "" && AllDigits(digits) && s == "." + digits :: Cut(digits, micros)
  }

  /** `micros` is the whole part of a million times `0.digits`. */
  predicate Cut(digits: string, micros: nat)
    requires AllDigits(digits)
  {
    micros * Pow10(|digits|) <= Value(digits) * 1_000_000 < (micros + 1) * Pow10(|digits|)
  }

  lemma {:induction false} ValueConcat(a: string, b: string)
    requires AllDigits(a) && AllDigits(b)
    ensures AllDigits(a + b) && Value(a + b) == Value(a) * Pow10(|b|) + Value(b) && Value(b) < Pow10(|b|)
  {
    if b == "" {
      assert a + b == a;
    } else {
      hide Value;
      var front, last := b[..|b| - 1], b[|b| - 1];
      assert last in b && forall c | c in front :: c in b;
      assert a + b == (a + front) + [last] && b == front + [last];
      ValueConcat(a, front);
      ValueMore(a + front, last);
      ValueMore(front, last);
      ConcatStep(Value(a), Pow10(|front|), Value(front), DigitValue(last));
    }
  }

  lemma ConcatStep(a: nat, p: nat, b: nat, d: nat)
    ensures (a * p + b) * 10 + d == a * (10 * p) + (b * 10 + d)
  {
  }

  lemma {:induction false} PowSplit(a: nat, b: nat)
    ensures Pow10(a + b) == Pow10(a) * Pow10(b) && Pow10(b) > 0
  {
    if b > 0 { PowSplit(a, b - 1); }
  }

  lemma {:induction false} ZerosAreZero(n: nat)
    ensures Value(Zeros(n)) == 0
  {
    if n > 0 {
      ZerosAreZero(n - 1);
      assert Zeros(n)[..n - 1] == Zeros(n - 1);
    }
  }

  /** The first six digits, filled up with zeros, are the fraction cut off. */
  lemma SixDigitsCut(digits: string)
    requires AllDigits(digits)
    ensures Cut(digits, Value(SixDigits(digits)))
  {
    Million();
    hide Value, Pow10;
    var n := |digits|;
    if n >= 6 {
      var front, rest := digits[..6], digits[6..];
      assert digits == front + rest && (forall c | c in front :: c in digits) && forall c | c in rest :: c in digits;
      ValueConcat(front, rest);
      PowSplit(6, n - 6);
      CutLong(Value(front), Value(rest), Pow10(n - 6));
    } else {
      ValueConcat(digits, Zeros(6 - n));
      ZerosAreZero(6 - n);
      PowSplit(n, 6 - n);
      CutShort(Value(digits), Pow10(n), Pow10(6 - n));
    }
  }

  lemma CutLong(m: nat, rest: nat, p: nat)
    requires rest < p
    ensures m * (1_000_000 * p) <= (m * p + rest) * 1_000_000 < (m + 1) * (1_000_000 * p)
  {
    assert m * (1_000_000 * p) == m * p * 1_000_000 && (m + 1) * (1_000_000 * p) == (m * p + p) * 1_000_000;
  }

  lemma CutShort(v: nat, p: nat, q: nat)
    requires p * q == 1_000_000
    ensures (v * q) * p <= v * 1_000_000 < (v * q + 1) * p
  {
    assert (v * q) * p == v * (p * q) && (v * q + 1) * p == v * (p * q) + p;
    assert p > 0;
  }

  lemma CutUnique(digits: string, a: nat, b: nat)
    requires AllDigits(digits) && Cut(digits, a) && Cut(digits, b)
    ensures a == b
  {
    MulGrows(a, b, Pow10(|digits|));
    MulGrows(b, a, Pow10(|digits|));
  }

  lemma MulGrows(a: nat, b: nat, p: nat)
    ensures a < b ==> (a + 1) * p <= b * p
  {
    if a < b {
      var k := b - (a + 1);
      assert b * p == (a + 1) * p + k * p;
    }
  }

  lemma FractionOfExactly(s: string, micros: nat)
    ensures Fraction(s, micros) <==> FractionOf(s) == Some(micros)
  {
    hide Cut, SixDigits, Value;
    if s != "" && s[0] == '.' && |s| > 1 && AllDigits(s[1..]) {
      SixDigitsCut(s[1..]);
      assert s == "." + s[1..];
    }
    if digits :| digits != "" && AllDigits(digits) && s == "." + digits && Cut(digits, micros) {
      assert s[1..] == digits;
      CutUnique(digits, micros, Value(SixDigits(digits)));
    }
  }

  /** An instant counts the microseconds since the start of 1970. */
  lemma AtExactly(f: Fields)
    requires FieldsOk(f)
    ensures At(f) == (Calendar.DayNumber(f.date) - 719_528) * 86_400_000_000
                     + f.hour * 3_600_000_000 + f.minute * 60_000_000 + f.second * 1_000_000 + f.micros
    ensures Calendar.DayNumber(Calendar.Date(1970, 1, 1)) == 719_528
  {
    Calendar.EpochDay();
    hide Calendar.DayNumber, Calendar.MonthStart, Calendar.IsLeap;
  }

  // ---------------------------------------------------------------------------------------------
  // The whole text
  // ---------------------------------------------------------------------------------------------

  /** Two characters spell the number, with a sign if they like. */
  predicate Pair(s: string, n: int) {
    |s| == 2 && Signed(s) == Some(n)
  }

  /** Month to second, with a space or a `T` before the hour. */
  ghost predicate Clock(s: string, f: Fields) {
    exists month, day, sep, hour, minute, second ::
      && Pair(month, f.date.month) && Pair(day, f.date.day) && (sep == ' ' || sep == 'T')
      && Pair(hour, f.hour) && Pair(minute, f.minute) && Pair(second, f.second)
      && s == month + "-" + day + [sep] + hour + ":" + minute + ":" + second
  }

  /** `text` names the fields: a year of any length, a clock and a fraction. */
  ghost predicate Spells(text: string, f: Fields) {
    f.micros >= 0 &&
    exists year, clock, fraction ::
      && Signed(year) == Some(f.date.year) && Clock(clock, f) && Fraction(fraction, f.micros)
      && text == year + "-" + (clock + fraction)
  }

  /** The shape of a clock, by position. */
  predicate ClockAt(s: string, f: Fields) {
    && |s| == 14 && s[2] == '-' && (s[5] == ' ' || s[5] == 'T') && s[8] == ':' && s[11] == ':'
    && Pair(s[0..2], f.date.month) && Pair(s[3..5], f.date.day)
    && Pair(s[6..8], f.hour) && Pair(s[9..11], f.minute) && Pair(s[12..14], f.second)
  }

  lemma ClockPieces(s: string, f: Fields)
    ensures Clock(s, f) <==> ClockAt(s, f)
  {
    hide Pair;
    if ClockAt(s, f) { JoinPieces(s); }
    if month, day, sep, hour, minute, second :|
      && Pair(month, f.date.month) && Pair(day, f.date.day) && (sep == ' ' || sep == 'T')
      && Pair(hour, f.hour) && Pair(minute, f.minute) && Pair(second, f.second)
      && s == month + "-" + day + [sep] + hour + ":" + minute + ":" + second
    {
      PairSize(month, f.date.month);
      PairSize(day, f.date.day);
      PairSize(hour, f.hour);
      PairSize(minute, f.minute);
      PairSize(second, f.second);
      PiecesBack(month, day, sep, hour, minute, second);
    }
  }

  lemma PairSize(s: string, n: int)
    requires Pair(s, n)
    ensures |s| == 2
  {
  }

  lemma JoinPieces(s: string)
    requires |s| == 14 && s[2] == '-' && s[8] == ':' && s[11] == ':'
    ensures s == s[0..2] + "-" + s[3..5] + [s[5]] + s[6..8] + ":" + s[9..11] + ":" + s[12..14]
  {
  }

  lemma PiecesBack(month: string, day: string, sep: char, hour: string, minute: string, second: string)
    requires |month| == |day| == |hour| == |minute| == |second| == 2
    ensures var s := month + "-" + day + [sep] + hour + ":" + minute + ":" + second;
            && |s| == 14 && s[2] == '-' && s[5] == sep && s[8] == ':' && s[11] == ':'
            && s[0..2] == month && s[3..5] == day && s[6..8] == hour && s[9..11] == minute && s[12..14] == second
  {
  }

  lemma RestPieces(s: string, f: Fields)
    requires f.micros >= 0
    ensures (exists clock, fraction :: Clock(clock, f) && Fraction(fraction, f.micros) && s == clock + fraction) <==>
              && |s| >= 14 && s[2] == '-' && (s[5] == ' ' || s[5] == 'T') && s[8] == ':' && s[11] == ':'
              && Number(s, 0) == Some(f.date.month) && Number(s, 3) == Some(f.date.day)
              && Number(s, 6) == Some(f.hour) && Number(s, 9) == Some(f.minute) && Number(s, 12) == Some(f.second)
              && FractionOf(s[14..]) == Some(f.micros)
  {
    hide Signed, FractionOf, Clock, Fraction;
    if |s| >= 14 {
      var clock, fraction := s[..14], s[14..];
      assert s == clock + fraction;
      SameNumbers(s);
      ClockPieces(clock, f);
      FractionOfExactly(fraction, f.micros);
    }
    if clock, fraction :| Clock(clock, f) && Fraction(fraction, f.micros) && s == clock + fraction {
      ClockPieces(clock, f);
      assert s[..14] == clock && s[14..] == fraction;
    }
  }

  lemma SameNumbers(s: string)
    requires |s| >= 14
    ensures forall i: nat | i <= 12 :: Number(s[..14], i) == Number(s, i)
  {
    hide Signed;
    forall i: nat | i <= 12 ensures Number(s[..14], i) == Number(s, i) {
      assert s[..14][i..i + 2] == s[i..i + 2];
    }
  }

  /** After a year, a text is read as the instant that the fields it spells name. */
  lemma RestIs(year: int, s: string, f: Fields)
    requires FieldsOk(f) && f.date.year == year
    requires |s| >= 14 && s[2] == '-' && (s[5] == ' ' || s[5] == 'T') && s[8] == ':' && s[11] == ':'
    requires Number(s, 0) == Some(f.date.month) && Number(s, 3) == Some(f.date.day)
    requires Number(s, 6) == Some(f.hour) && Number(s, 9) == Some(f.minute) && Number(s, 12) == Some(f.second)
    requires FractionOf(s[14..]) == Some(f.micros)
    ensures ParseRest(year, s) == Within(At(f))
  {
    hide Number, FractionOf, At, Calendar.MonthStart, Signed;
    var proxy := ProxyYear(year);
    var k := (proxy - year) / 400;
    ProxyYearCycles(year);
    MovedAt(f, k);
    var moved := f.(date := f.date.(year := proxy));
    assert moved == f.(date := f.date.(year := f.date.year + 400 * k));
    assert At(moved) + -k * CYCLE_US == At(f);
  }

  lemma {:induction false} FindDashFirst(s: string, rest: string)
    requires '-' !in s
    ensures FindDash(s + "-" + rest) == Some(|s|)
  {
    var text := s + "-" + rest;
    if s != "" {
      assert text[1..] == s[1..] + "-" + rest && text[0] == s[0] && s[0] in s;
      assert forall c | c in s[1..] :: c in s;
      FindDashFirst(s[1..], rest);
    }
  }

  /** A year's text ends at the first dash that is not its sign. */
  lemma YearEnds(year: string, rest: string)
    requires Signed(year).Some?
    ensures var text := year + "-" + rest;
            var sign := if text != "" && text[0] == '-' then 1 else 0;
            && FindDash(text[sign..]) == Some(|year| - sign) && |year| >= sign
            && text[..|year|] == year && text[|year| + 1..] == rest
  {
    hide FindDash, Value;
    var text := year + "-" + rest;
    var signed := year[0] == '+' || year[0] == '-';
    assert '-' !in year[1..] by {
      if signed { assert AllDigits(year[1..]); } else { assert AllDigits(year) && forall c | c in year[1..] :: c in year; }
    }
    assert text[0] == year[0];
    if year[0] == '-' {
      assert text[1..] == year[1..] + "-" + rest;
      FindDashFirst(year[1..], rest);
    } else {
      assert year == [year[0]] + year[1..] && '-' !in year;
      FindDashFirst(year, rest);
      assert text[0..] == text;
    }
  }

  /** What `parse_db` makes of a text once it is bare. */
  function Inner(text: string): Option<Instant> {
    var sign := if text != "" && text[0] == '-' then 1 else 0;
    match FindDash(text[sign..])
    case None => None
    case Some(i) =>
      match Signed(text[..sign + i])
      case None => None
      case Some(year) => ParseRest(year, text[sign + i + 1..])
  }

  lemma SpellsIsRead(text: string, f: Fields)
    requires FieldsOk(f) && Spells(text, f)
    ensures Inner(text) == Within(At(f))
  {
    hide Signed, FindDash, FractionOf, Number, Clock, Fraction, ParseRest, FieldsOk;
    var year, clock, fraction :|
      && Signed(year) == Some(f.date.year) && Clock(clock, f) && Fraction(fraction, f.micros)
      && text == year + "-" + (clock + fraction);
    YearEnds(year, clock + fraction);
    RestPieces(clock + fraction, f);
    RestIs(f.date.year, clock + fraction, f);
  }

  lemma ReadIsSpelled(text: string) returns (f: Fields)
    requires Inner(text).Some?
    ensures FieldsOk(f) && Spells(text, f) && Some(At(f)) == Inner(text)
  {
    hide Signed, FindDash, FractionOf, Number, Clock, Fraction, At;
    var sign := if text != "" && text[0] == '-' then 1 else 0;
    var i := FindDash(text[sign..]).value;
    var year, rest := text[..sign + i], text[sign + i + 1..];
    f := RestFields(Signed(year).value, rest);
    RestPieces(rest, f);
    var clock, fraction :| Clock(clock, f) && Fraction(fraction, f.micros) && rest == clock + fraction;
    assert text[sign..][i] == text[sign + i];
    assert text == year + "-" + (clock + fraction);
  }

  /**
   * A text is read as an instant exactly when, without the white space around it and one zone, it spells
   * valid fields that name the instant.
   */
  lemma ParseExactly(raw: string, t: Instant)
    ensures ParseDb(raw) == Some(t) <==>
            exists core, text, f :: Around(raw, core) && Zoned(core, text) && FieldsOk(f) && At(f) == t && Spells(text, f)
  {
    hide TrimStart, TrimEnd, StripZone, Around, Zoned, FindDash, Signed, ParseRest, Spells, At, Calendar.MonthStart, Calendar.IsLeap;
    var core := TrimEnd(TrimStart(raw));
    var text := StripZone(core);
    TrimExactly(raw, core);
    ZoneExactly(core, text);
    assert ParseDb(raw) == Inner(text);
    hide Inner;
    if ParseDb(raw) == Some(t) {
      var f := ReadIsSpelled(text);
      assert Around(raw, core) && Zoned(core, text) && FieldsOk(f) && At(f) == t && Spells(text, f);
    }
    if core', text', f :| Around(raw, core') && Zoned(core', text') && FieldsOk(f) && At(f) == t && Spells(text', f) {
      TrimExactly(raw, core');
      ZoneExactly(core', text');
      SpellsIsRead(text, f);
    }
  }
}
