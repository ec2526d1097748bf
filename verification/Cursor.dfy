/**
 * The opaque keyset cursors of crates/api/src/cursor.rs: base64url without padding (section 5 of
 * RFC 4648) of `<timestamp>|<id>`, `<id>` or `<rank>|<timestamp>|<id>`. Bytes are characters below 256.
 */
module Cursor {
  import opened Common
  import opened Decimal
  import opened Splitting

  type Bytes = s: string | forall c | c in s :: c as int < 256

  // ---------------------------------------------------------------------------------------------
  // base64url, no padding
  // ---------------------------------------------------------------------------------------------

  function Symbol(v: nat): (c: char)
    requires v < 64
    ensures SymbolValue(c) == Some(v)
  {
    if v < 26 then 'A' + v as char
    else if v < 52 then 'a' + (v - 26) as char
    else if v < 62 then '0' + (v - 52) as char
    else if v == 62 then '-'
    else '_'
  }

  function SymbolValue(c: char): (v: Option<nat>)
    ensures v.Some? ==> v.value < 64
  {
    if 'A' <= c <= 'Z' then Some(c as int - 'A' as int)
    else if 'a' <= c <= 'z' then Some(c as int - 'a' as int + 26)
    else if '0' <= c <= '9' then Some(c as int - '0' as int + 52)
    else if c == '-' then Some(62)
    else if c == '_' then Some(63)
    else None
  }

  lemma SymbolOf(c: char)
    ensures SymbolValue(c).Some? ==> Symbol(SymbolValue(c).value) == c
  {
  }

  // The four sextets of three bytes x, y, z and the three bytes of four sextets p, q, r, t.

  function Sextet1(x: nat): (v: nat)
    requires x < 256
    ensures v < 64
  {
    x / 4
  }

  function Sextet2(x: nat, y: nat): (v: nat)
    requires x < 256 && y < 256
    ensures v < 64
  {
    x % 4 * 16 + y / 16
  }

  function Sextet3(y: nat, z: nat): (v: nat)
    requires y < 256 && z < 256
    ensures v < 64
  {
    y % 16 * 4 + z / 64
  }

  function Sextet4(z: nat): (v: nat)
    requires z < 256
    ensures v < 64
  {
    z % 64
  }

  function Byte1(p: nat, q: nat): (v: nat)
    requires p < 64 && q < 64
    ensures v < 256
  {
    p * 4 + q / 16
  }

  function Byte2(q: nat, r: nat): (v: nat)
    requires q < 64 && r < 64
    ensures v < 256
  {
    q % 16 * 16 + r / 4
  }

  function Byte3(r: nat, t: nat): (v: nat)
    requires r < 64 && t < 64
    ensures v < 256
  {
    r % 4 * 64 + t
  }

  lemma BytesOfSextets(x: nat, y: nat, z: nat)
    requires x < 256 && y < 256 && z < 256
    ensures Byte1(Sextet1(x), Sextet2(x, y)) == x
    ensures Byte2(Sextet2(x, y), Sextet3(y, z)) == y
    ensures Byte3(Sextet3(y, z), Sextet4(z)) == z
    ensures Sextet2(x, 0) % 16 == 0 && Sextet3(y, 0) % 4 == 0
  {
  }

  lemma SextetsOfBytes(p: nat, q: nat, r: nat, t: nat)
    requires p < 64 && q < 64 && r < 64 && t < 64
    ensures Sextet1(Byte1(p, q)) == p
    ensures Sextet2(Byte1(p, q), Byte2(q, r)) == q
    ensures Sextet3(Byte2(q, r), Byte3(r, t)) == r
    ensures Sextet4(Byte3(r, t)) == t
    ensures q % 16 == 0 ==> Sextet2(Byte1(p, q), 0) == q
    ensures r % 4 == 0 ==> Sextet3(Byte2(q, r), 0) == r
  {
  }

  /** The group a text starts with: two, three or four symbols for one, two or three bytes. */
  function EncodeGroup(b: Bytes): string
    requires 1 <= |b| <= 3
  {
    assert b[0] in b && (|b| > 1 ==> b[1] in b) && (|b| > 2 ==> b[2] in b);
    var x := b[0] as int;
    var y := if |b| > 1 then b[1] as int else 0;
    var z := if |b| > 2 then b[2] as int else 0;
    [Symbol(Sextet1(x)), Symbol(Sextet2(x, y)), Symbol(Sextet3(y, z)), Symbol(Sextet4(z))][..|b| + 1]
  }

  function Encode64(b: Bytes): string
    decreases |b|
  {
    if b == "" then ""
    else if |b| <= 3 then EncodeGroup(b)
    else
      assert forall c | c in b[..3] || c in b[3..] :: c in b;
      EncodeGroup(b[..3]) + Encode64(b[3..])
  }

  function SextetAt(s: string, i: nat): Option<nat> {
    if i < |s| then SymbolValue(s[i]) else Some(0)
  }

  /** Refuses a lone symbol, unknown characters, and bits left over after the last byte. */
  function DecodeGroup(s: string): (b: Option<Bytes>)
    requires 1 <= |s| <= 4
    ensures b.Some? ==> |b.value| == |s| - 1
  {
    if |s| == 1 || SextetAt(s, 0).None? || SextetAt(s, 1).None? || SextetAt(s, 2).None? || SextetAt(s, 3).None? then None
    else
      var p, q, r, t := SextetAt(s, 0).value, SextetAt(s, 1).value, SextetAt(s, 2).value, SextetAt(s, 3).value;
      if (|s| == 2 && q % 16 != 0) || (|s| == 3 && r % 4 != 0) then None
      else Some([Byte1(p, q) as char, Byte2(q, r) as char, Byte3(r, t) as char][..|s| - 1])
  }

  function Decode64(s: string): Option<Bytes>
    decreases |s|
  {
    if s == "" then Some("")
    else if |s| <= 4 then DecodeGroup(s)
    else
      var group, rest := DecodeGroup(s[..4]), Decode64(s[4..]);
      if group.None? || rest.None? then None else Some(group.value + rest.value)
  }

  lemma DecodeEncodeGroup(b: Bytes)
    requires 1 <= |b| <= 3
    ensures |EncodeGroup(b)| == |b| + 1 && DecodeGroup(EncodeGroup(b)) == Some(b)
  {
    hide Symbol, SymbolValue, Sextet1, Sextet2, Sextet3, Sextet4, Byte1, Byte2, Byte3;
    assert b[0] in b && (|b| > 1 ==> b[1] in b) && (|b| > 2 ==> b[2] in b);
    var x := b[0] as int;
    var y := if |b| > 1 then b[1] as int else 0;
    var z := if |b| > 2 then b[2] as int else 0;
    BytesOfSextets(x, y, z);
    ShortGroups(x, y, z);
    assert b == [x as char, y as char, z as char][..|b|];
  }

  /** The symbols that are left out of a short group would stand for zero. */
  lemma ShortGroups(x: nat, y: nat, z: nat)
    requires x < 256 && y < 256 && z < 256
    ensures Byte1(Sextet1(x), Sextet2(x, 0)) == x && Byte2(Sextet2(x, y), Sextet3(y, 0)) == y
    ensures Sextet3(0, 0) == 0 && Sextet4(0) == 0
  {
    hide Sextet1, Sextet2, Sextet3, Sextet4, Byte1, Byte2, Byte3;
    ZeroSextets();
    BytesOfSextets(x, 0, 0);
    BytesOfSextets(x, y, 0);
  }

  lemma ZeroSextets()
    ensures Sextet3(0, 0) == 0 && Sextet4(0) == 0
  {
  }

  lemma EncodeDecodeGroup(s: string)
    requires 1 <= |s| <= 4 && DecodeGroup(s).Some?
    ensures EncodeGroup(DecodeGroup(s).value) == s
  {
    hide Symbol, SymbolValue, Sextet1, Sextet2, Sextet3, Sextet4, Byte1, Byte2, Byte3;
    var p, q, r, t := SextetAt(s, 0).value, SextetAt(s, 1).value, SextetAt(s, 2).value, SextetAt(s, 3).value;
    SextetsOfBytes(p, q, r, t);
    SymbolOf(s[0]);
    SymbolOf(s[1]);
    if |s| > 2 { SymbolOf(s[2]); }
    if |s| > 3 { SymbolOf(s[3]); }
    assert s == [Symbol(p), Symbol(q), Symbol(r), Symbol(t)][..|s|];
  }

  /** Decoding gives back what was encoded. */
  lemma {:induction false} Decode64Encode64(b: Bytes)
    ensures Decode64(Encode64(b)) == Some(b) && (b != "" ==> |Encode64(b)| >= 2)
    decreases |b|
  {
    hide EncodeGroup, DecodeGroup;
    if 0 < |b| <= 3 {
      DecodeEncodeGroup(b);
    } else if |b| > 3 {
      assert forall c | c in b[..3] || c in b[3..] :: c in b;
      DecodeEncodeGroup(b[..3]);
      Decode64Encode64(b[3..]);
      var s := Encode64(b);
      assert s[..4] == EncodeGroup(b[..3]) && s[4..] == Encode64(b[3..]);
      assert b == b[..3] + b[3..];
    }
  }

  /** And only one text decodes to it. */
  lemma {:induction false} Encode64Decode64(s: string)
    requires Decode64(s).Some?
    ensures Encode64(Decode64(s).value) == s && (s != "" ==> Decode64(s).value != "")
    decreases |s|
  {
    hide EncodeGroup, DecodeGroup;
    if 0 < |s| <= 4 {
      EncodeDecodeGroup(s);
      LoneSymbol(s);
    } else if |s| > 4 {
      EncodeDecodeGroup(s[..4]);
      Encode64Decode64(s[4..]);
      var b := Decode64(s).value;
      assert b[..3] == DecodeGroup(s[..4]).value && b[3..] == Decode64(s[4..]).value;
      assert s == s[..4] + s[4..];
    }
  }

  lemma LoneSymbol(s: string)
    requires 1 <= |s| <= 4 && DecodeGroup(s).Some?
    ensures |s| > 1
  {
  }

  /** The symbols are, in order, the capital letters, the small ones, the digits, a dash and an underscore, and
      no other character is one. */
  lemma SymbolExactly(v: nat, c: char)
    requires v < 63
    ensures Symbol(0) == 'A' && Symbol(25) == 'Z' && Symbol(26) == 'a' && Symbol(51) == 'z'
    ensures Symbol(52) == '0' && Symbol(61) == '9' && Symbol(62) == '-' && Symbol(63) == '_'
    ensures v !in {25, 51, 61, 62} ==> Symbol(v + 1) as int == Symbol(v) as int + 1
    ensures SymbolValue(c).Some? <==> 'A' <= c <= 'Z' || 'a' <= c <= 'z' || '0' <= c <= '9' || c == '-' || c == '_'
  {
  }

  /** Three bytes and their four sextets, first things first, are one number. */
  lemma GroupExactly(x: nat, y: nat, z: nat)
    requires x < 256 && y < 256 && z < 256
    ensures x * 65_536 + y * 256 + z == Sextet1(x) * 262_144 + Sextet2(x, y) * 4096 + Sextet3(y, z) * 64 + Sextet4(z)
    ensures EncodeGroup([x as char, y as char, z as char]) == [Symbol(Sextet1(x)), Symbol(Sextet2(x, y)), Symbol(Sextet3(y, z)), Symbol(Sextet4(z))]
    ensures EncodeGroup([x as char, y as char]) == [Symbol(Sextet1(x)), Symbol(Sextet2(x, y)), Symbol(Sextet3(y, 0))]
    ensures EncodeGroup([x as char]) == [Symbol(Sextet1(x)), Symbol(Sextet2(x, 0))]
  {
    hide Symbol;
  }

  // ---------------------------------------------------------------------------------------------
  // 64-bit integers
  // ---------------------------------------------------------------------------------------------

  const I64_LIMIT: int := 0x8000_0000_0000_0000

  predicate IsI64(n: int) {
    -I64_LIMIT <= n < I64_LIMIT
  }

  function PrintInt(n: int): (s: string)
    ensures s != "" && (s[0] == '-' <==> n < 0) && s[0] != '+'
    ensures '|' !in s
  {
    if n < 0 then
      assert '|' !in Print(-n);
      "-" + Print(-n)
    else
      assert Print(n)[0] in Print(n);
      assert '|' !in Print(n);
      Print(n)
  }

  /** `str::parse::<i64>`: an optional sign, at least one digit, and in range. */
  function ParseInt(s: string): (n: Option<int>)
    ensures n.Some? ==> IsI64(n.value) && '|' !in s
  {
    var n := Signed(s);
    if n.Some? && IsI64(n.value) then n else None
  }

  lemma ParsePrint(n: int)
    requires IsI64(n)
    ensures ParseInt(PrintInt(n)) == Some(n)
  {
    if n >= 0 {
      assert Print(n)[0] in Print(n);
    } else {
      assert PrintInt(n)[1..] == Print(-n);
    }
  }

  /** How `PrintInt` writes numbers: no `+`, no leading zero, no negative zero. */
  predicate Canonical(s: string) {
    var negative := s != "" && s[0] == '-';
    var digits := if negative then s[1..] else s;
    digits != "" && s[0] != '+' && (digits[0] == '0' ==> s == "0")
  }

  lemma PrintParse(s: string)
    requires ParseInt(s).Some?
    ensures PrintInt(ParseInt(s).value) == s <==> Canonical(s)
  {
    var signed := s[0] == '+' || s[0] == '-';
    var digits := if signed then s[1..] else s;
    DigitsText(digits);
    hide Print, Value;
    assert signed ==> s == [s[0]] + digits;
  }

  lemma DigitsText(digits: string)
    requires digits != "" && AllDigits(digits)
    ensures Print(Value(digits)) == digits <==> (digits[0] == '0' ==> digits == "0")
    ensures digits == "0" ==> Value(digits) == 0
    ensures digits[0] != '0' ==> Value(digits) > 0
  {
    if digits == "0" {
      assert "0"[..0] == "";
    } else if digits[0] == '0' {
      LeadingZero(digits);
    } else {
      PrintValue(digits);
      ValuePositive(digits);
    }
  }

  /** No number prints with a leading zero, except zero. */
  lemma LeadingZero(digits: string)
    requires AllDigits(digits) && |digits| > 1 && digits[0] == '0'
    ensures Print(Value(digits)) != digits
  {
    var v := Value(digits);
    assert v == 0 ==> Print(v) == "0";
  }

  // ---------------------------------------------------------------------------------------------
  // Cursors
  // ---------------------------------------------------------------------------------------------

  /** The database's timestamps: `to_db` and `parse_db`. */
  datatype Clock<!T> = Clock(render: T -> Bytes, parse: string -> Option<T>)

  /** A rendered time parses to itself, and no text with a bar parses. */
  ghost predicate Sound<T(!new)>(clock: Clock<T>) {
    && (forall t: T {:trigger clock.render(t)} :: clock.parse(clock.render(t)) == Some(t))
    && (forall text: string {:trigger clock.parse(text)} | '|' in text :: clock.parse(text).None?)
  }

  lemma IntBytes(n: int)
    ensures forall c | c in PrintInt(n) :: c as int < 256
  {
    forall c | c in PrintInt(n) ensures c as int < 256 {
      if n < 0 {
        assert c == '-' || c in Print(-n);
      } else {
        assert c in Print(n);
      }
    }
  }

  function Text<T>(clock: Clock<T>, at: T, id: int): Bytes {
    IntBytes(id);
    clock.render(at) + "|" + PrintInt(id)
  }

  function Encode<T>(clock: Clock<T>, at: T, id: int): string {
    Encode64(Text(clock, at, id))
  }

  function Decode<T>(clock: Clock<T>, raw: string): Option<(T, int)> {
    match Decode64(raw)
    case None => None
    case Some(text) =>
      match SplitLast(text, '|')
      case None => None
      case Some((at, id)) =>
        var t, n := clock.parse(at), ParseInt(id);
        if t.None? || n.None? then None else Some((t.value, n.value))
  }

  function EncodeId(id: int): string {
    IntBytes(id);
    Encode64(PrintInt(id))
  }

  function DecodeId(raw: string): Option<int> {
    match Decode64(raw)
    case None => None
    case Some(text) =>
      var n := ParseInt(text);
      if n.Some? && n.value > 0 then n else None
  }

  function RankedText<T>(clock: Clock<T>, rank: int, at: T, id: int): Bytes {
    IntBytes(rank);
    PrintInt(rank) + "|" + Text(clock, at, id)
  }

  function EncodeRanked<T>(clock: Clock<T>, rank: int, at: T, id: int): string {
    Encode64(RankedText(clock, rank, at, id))
  }

  function DecodeRanked<T>(clock: Clock<T>, raw: string): Option<(int, T, int)> {
    match Decode64(raw)
    case None => None
    case Some(text) =>
      match SplitFirst(text, '|')
      case None => None
      case Some((rank, rest)) =>
        match SplitLast(rest, '|')
        case None => None
        case Some((at, id)) =>
          var r, t, n := ParseInt(rank), clock.parse(at), ParseInt(id);
          if r.None? || t.None? || n.None? then None else Some((r.value, t.value, n.value))
  }

  /** The text inside each kind of cursor. */
  lemma CursorTexts<T(!new)>(clock: Clock<T>, rank: int, at: T, id: int)
    ensures forall n: nat :: PrintInt(n) == Print(n)
    ensures forall n: int | n < 0 :: PrintInt(n) == "-" + Print(-n)
    ensures Decode64(EncodeId(id)) == Some(PrintInt(id))
    ensures Decode64(Encode(clock, at, id)) == Some(clock.render(at) + "|" + PrintInt(id))
    ensures Decode64(EncodeRanked(clock, rank, at, id)) == Some(PrintInt(rank) + "|" + (clock.render(at) + "|" + PrintInt(id)))
  {
    hide Encode64, Decode64;
    IntBytes(id);
    IntBytes(rank);
    Decode64Encode64(PrintInt(id));
    Decode64Encode64(Text(clock, at, id));
    Decode64Encode64(RankedText(clock, rank, at, id));
  }

  // --- exactly what decodes ---------------------------------------------------------------------

  /** `s` is digits after at most one sign and spells a 64-bit number. */
  predicate Reads(s: string, n: int) {
    Signed(s) == Some(n) && -9_223_372_036_854_775_808 <= n <= 9_223_372_036_854_775_807
  }

  lemma ParsesExactly(s: string, n: int)
    ensures ParseInt(s) == Some(n) <==> Reads(s, n)
    ensures Reads(s, n) ==> '|' !in s
  {
  }

  lemma DecodesIdExactly(raw: string, id: int)
    ensures DecodeId(raw) == Some(id) <==> Decode64(raw).Some? && Reads(Decode64(raw).value, id) && id > 0
  {
    if Decode64(raw).Some? { ParsesExactly(Decode64(raw).value, id); }
  }

  /** A two-part cursor decodes to a time and a number exactly when its text is those two around a bar. */
  lemma DecodesExactly<T(!new)>(clock: Clock<T>, raw: string, at: T, id: int)
    ensures Decode(clock, raw) == Some((at, id)) <==>
            exists front, last :: Decode64(raw) == Some(front + "|" + last) && clock.parse(front) == Some(at) && Reads(last, id)
  {
    hide Decode64, ParseInt, Reads;
    if Decode(clock, raw) == Some((at, id)) {
      var text := Decode64(raw).value;
      var (front, last) := SplitLast(text, '|').value;
      SplitLastJoins(text, '|');
      ParsesExactly(last, id);
      assert Decode64(raw) == Some(front + "|" + last);
    }
    if front, last :| Decode64(raw) == Some(front + "|" + last) && clock.parse(front) == Some(at) && Reads(last, id) {
      ParsesExactly(last, id);
      SplitLastAt(front, last, '|');
    }
  }

  /** A ranked one exactly when its text is a number, a time and a number. */
  lemma DecodesRankedExactly<T(!new)>(clock: Clock<T>, raw: string, rank: int, at: T, id: int)
    ensures DecodeRanked(clock, raw) == Some((rank, at, id)) <==>
            exists first, front, last ::
              && Decode64(raw) == Some(first + "|" + (front + "|" + last))
              && Reads(first, rank) && clock.parse(front) == Some(at) && Reads(last, id)
  {
    hide Decode64, ParseInt, Reads, SplitFirst, SplitLast;
    if DecodeRanked(clock, raw) == Some((rank, at, id)) {
      var text := Decode64(raw).value;
      var (first, rest) := SplitFirst(text, '|').value;
      var (front, last) := SplitLast(rest, '|').value;
      SplitFirstJoins(text, '|');
      SplitLastJoins(rest, '|');
      ParsesExactly(first, rank);
      ParsesExactly(last, id);
      assert Decode64(raw) == Some(first + "|" + (front + "|" + last));
    }
    if first, front, last :|
      && Decode64(raw) == Some(first + "|" + (front + "|" + last))
      && Reads(first, rank) && clock.parse(front) == Some(at) && Reads(last, id)
    {
      ParsesExactly(first, rank);
      ParsesExactly(last, id);
      SplitFirstAt(first, front + "|" + last, '|');
      SplitLastAt(front, last, '|');
    }
  }

  // --- every cursor decodes to what it was made of ----------------------------------------------

  lemma RoundTrip<T(!new)>(clock: Clock<T>, at: T, id: int)
    requires Sound(clock) && IsI64(id)
    ensures Decode(clock, Encode(clock, at, id)) == Some((at, id))
  {
    Decode64Encode64(Text(clock, at, id));
    SplitLastAt(clock.render(at), PrintInt(id), '|');
    ParsePrint(id);
  }

  /** Ids are positive; the cursor of any other number is refused. */
  lemma RoundTripId(id: int)
    requires IsI64(id)
    ensures DecodeId(EncodeId(id)) == if id > 0 then Some(id) else None
  {
    IntBytes(id);
    Decode64Encode64(PrintInt(id));
    ParsePrint(id);
  }

  lemma RoundTripRanked<T(!new)>(clock: Clock<T>, rank: int, at: T, id: int)
    requires Sound(clock) && IsI64(rank) && IsI64(id)
    ensures DecodeRanked(clock, EncodeRanked(clock, rank, at, id)) == Some((rank, at, id))
  {
    Decode64Encode64(RankedText(clock, rank, at, id));
    SplitFirstAt(PrintInt(rank), Text(clock, at, id), '|');
    SplitLastAt(clock.render(at), PrintInt(id), '|');
    ParsePrint(rank);
    ParsePrint(id);
  }

  // --- and never as a cursor of another shape ---------------------------------------------------

  lemma RenderedHasNoBar<T(!new)>(clock: Clock<T>, at: T)
    requires Sound(clock)
    ensures '|' !in clock.render(at)
  {
    assert clock.parse(clock.render(at)).Some?;
  }

  /** A two-part cursor is neither an id cursor nor a ranked one. */
  lemma PairIsNoOther<T(!new)>(clock: Clock<T>, at: T, id: int)
    requires Sound(clock)
    ensures DecodeId(Encode(clock, at, id)).None?
    ensures DecodeRanked(clock, Encode(clock, at, id)).None?
  {
    var text := Text(clock, at, id);
    Decode64Encode64(text);
    RenderedHasNoBar(clock, at);
    assert text[|clock.render(at)|] == '|' && '|' in text;
    SplitFirstAt(clock.render(at), PrintInt(id), '|');
    NoBar(PrintInt(id), '|');
  }

  /** An id cursor is neither a two-part one nor a ranked one. */
  lemma IdIsNoOther<T(!new)>(clock: Clock<T>, id: int)
    requires Sound(clock)
    ensures Decode(clock, EncodeId(id)).None? && DecodeRanked(clock, EncodeId(id)).None?
  {
    IntBytes(id);
    Decode64Encode64(PrintInt(id));
    NoBar(PrintInt(id), '|');
  }

  /** A ranked cursor is neither an id cursor nor a two-part one. */
  lemma RankedIsNoOther<T(!new)>(clock: Clock<T>, rank: int, at: T, id: int)
    requires Sound(clock)
    ensures DecodeId(EncodeRanked(clock, rank, at, id)).None? && Decode(clock, EncodeRanked(clock, rank, at, id)).None?
  {
    hide Encode64, Decode64, PrintInt, SplitLast;
    var text := RankedText(clock, rank, at, id);
    Decode64Encode64(text);
    var front := PrintInt(rank) + "|" + clock.render(at);
    assert text == front + "|" + PrintInt(id);
    assert front[|PrintInt(rank)|] == '|' && '|' in front;
    assert text[|PrintInt(rank)|] == '|' && '|' in text;
    SplitLastAt(front, PrintInt(id), '|');
  }

  // --- what else decodes ------------------------------------------------------------------------

  /** The comment on `decode_id` says that only its own cursors decode, which is not so: the number
      parser takes a leading plus sign, so the encoding of `+42` decodes as the cursor of 42 does. */
  lemma PlusSignDecodes()
    ensures DecodeId(Encode64("+42")) == Some(42) && Encode64("+42") != EncodeId(42)
  {
    hide Encode64, Decode64;
    Decode64Encode64("+42");
    PlusSign();
    IntBytes(42);
    Decode64Encode64(PrintInt(42));
    assert PrintInt(42)[0] != '+' && "+42"[0] == '+';
  }

  lemma PlusSign()
    ensures ParseInt("+42") == Some(42) && ParseInt("3") == Some(3) && !Canonical("+42")
  {
    assert "+42"[1..] == "42";
    assert Value("42") == 42 by { assert "42"[..1] == "4" && "4"[..0] == ""; }
    assert Value("3") == 3 by { assert "3"[..0] == ""; }
  }

  /** An accepted id cursor is the one `encode_id` makes exactly when its text is written canonically. */
  lemma DecodedIdIsEncoded(raw: string)
    requires DecodeId(raw).Some?
    ensures raw == EncodeId(DecodeId(raw).value) <==> Canonical(Decode64(raw).value)
  {
    var text, id := Decode64(raw).value, DecodeId(raw).value;
    PrintParse(text);
    Encode64Decode64(raw);
    IntBytes(id);
    Decode64Encode64(PrintInt(id));
  }

  /** Likewise for a two-part cursor, when also its time is written as the clock renders it. */
  lemma DecodedPairIsEncoded<T(!new)>(clock: Clock<T>, raw: string)
    requires Sound(clock) && Decode(clock, raw).Some?
    ensures var (at, id) := Decode(clock, raw).value;
            var (time, number) := SplitLast(Decode64(raw).value, '|').value;
            raw == Encode(clock, at, id) <==> clock.render(at) == time && Canonical(number)
  {
    var text := Decode64(raw).value;
    var (at, id) := Decode(clock, raw).value;
    var (time, number) := SplitLast(text, '|').value;
    PrintParse(number);
    Encode64Decode64(raw);
    SplitLastJoins(text, '|');
    if raw == Encode(clock, at, id) {
      Decode64Encode64(Text(clock, at, id));
      SplitLastAt(clock.render(at), PrintInt(id), '|');
    }
  }

  /** And for a ranked cursor, when also its rank is written canonically. */
  lemma DecodedRankedIsEncoded<T(!new)>(clock: Clock<T>, raw: string)
    requires Sound(clock) && DecodeRanked(clock, raw).Some?
    ensures var (rank, at, id) := DecodeRanked(clock, raw).value;
            var (first, rest) := SplitFirst(Decode64(raw).value, '|').value;
            var (time, number) := SplitLast(rest, '|').value;
            raw == EncodeRanked(clock, rank, at, id) <==> Canonical(first) && clock.render(at) == time && Canonical(number)
  {
    hide Encode64, Decode64, PrintInt, SplitLast, SplitFirst, ParseInt, Canonical;
    var text := Decode64(raw).value;
    var (rank, at, id) := DecodeRanked(clock, raw).value;
    var (first, rest) := SplitFirst(text, '|').value;
    var (time, number) := SplitLast(rest, '|').value;
    PrintParse(first);
    PrintParse(number);
    Encode64Decode64(raw);
    SplitFirstJoins(text, '|');
    SplitLastJoins(rest, '|');
    if raw == EncodeRanked(clock, rank, at, id) {
      Decode64Encode64(RankedText(clock, rank, at, id));
      SplitFirstAt(PrintInt(rank), Text(clock, at, id), '|');
      SplitLastAt(clock.render(at), PrintInt(id), '|');
    }
  }
}
