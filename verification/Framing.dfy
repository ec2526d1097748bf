/**
 * The bytes ci/toolchain-inputs.py feeds to the hash: `json.dumps` of the recipe, then for each file a
 * JSON header, a zero byte and the content. Bytes are characters below 256. Equal streams come only
 * from equal inputs.
 */
module Framing {
  import opened Common
  import opened Ordering
  import opened Toolchain
  import Decimal

  // ---------------------------------------------------------------------------------------------
  // json.dumps
  // ---------------------------------------------------------------------------------------------

  datatype Json = Null | Bool(b: bool) | Num(n: nat) | Str(s: string) | Arr(items: seq<Json>) | Obj(members: seq<Member>)

  datatype Member = Member(key: string, value: Json)

  predicate Printable(c: char) {
    ' ' <= c <= '~'
  }

  function HexDigit(d: nat): (c: char)
    requires d < 16
    ensures Printable(c) && c != '"' && c != '\\'
  {
    if d < 10 then '0' + d as char else 'a' + (d - 10) as char
  }

  function Hex4(n: nat): (s: string)
    requires n < 0x10000
    ensures |s| == 4 && forall c | c in s :: Printable(c)
  {
    var (a, b, c) := (n / 16, n / 16 / 16, n / 16 / 16 / 16);
    [HexDigit(c), HexDigit(b % 16), HexDigit(a % 16), HexDigit(n % 16)]
  }

  /** The two-character escapes. */
  function ShortEscape(c: char): Option<char> {
    if c == '"' then Some('"')
    else if c == '\\' then Some('\\')
    else if c == '\n' then Some('n')
    else if c == '\r' then Some('r')
    else if c == '\t' then Some('t')
    else if c == '\U{000C}' then Some('f')
    else if c == '\U{0008}' then Some('b')
    else None
  }

  function High(n: nat): (r: nat)
    requires 0x10000 <= n < 0x110000
    ensures 0xD800 <= r < 0xDC00
  {
    0xD800 + (n - 0x10000) / 0x400
  }

  function Low(n: nat): (r: nat)
    requires 0x10000 <= n < 0x110000
    ensures 0xDC00 <= r < 0xE000
  {
    0xDC00 + (n - 0x10000) % 0x400
  }

  /** One character, with everything outside printable ASCII escaped (`ensure_ascii`). */
  function Escape(c: char): (s: string)
    ensures |s| > 0 && forall x | x in s :: Printable(x)
    ensures s[0] != '"'
  {
    if ShortEscape(c).Some? then ['\\', ShortEscape(c).value]
    else if Printable(c) then [c]
    else if c as int < 0x10000 then "\\u" + Hex4(c as int)
    else "\\u" + Hex4(High(c as int)) + "\\u" + Hex4(Low(c as int))
  }

  function Escapes(s: string): (r: string)
    ensures forall x | x in r :: Printable(x)
  {
    if s == "" then "" else Escape(s[0]) + Escapes(s[1..])
  }

  /** What follows an item or member: the closing bracket, or a comma and the rest. */
  function Rest(last: bool, close: char, rest: string): (r: string)
    requires Printable(close) && forall x | x in rest :: Printable(x)
    ensures forall x | x in r :: Printable(x)
    ensures |r| > 0 && r[0] == if last then close else ','
  {
    if last then [close] else ", " + rest
  }

  function Dump(j: Json): (r: string)
    ensures |r| > 0 && forall x | x in r :: Printable(x)
    decreases j
  {
    match j
    case Null => "null"
    case Bool(b) => if b then "true" else "false"
    case Num(n) =>
      assert forall x | x in Decimal.Print(n) :: Decimal.IsDigit(x);
      Decimal.Print(n)
    case Str(s) => "\"" + (Escapes(s) + "\"")
    case Arr(items) => "[" + DumpItems(items)
    case Obj(members) => "{" + DumpMembers(members)
  }

  function DumpItems(items: seq<Json>): (r: string)
    ensures |r| > 0 && forall x | x in r :: Printable(x)
    decreases items
  {
    if items == [] then "]"
    else Dump(items[0]) + if |items| == 1 then Rest(true, ']', "") else Rest(false, ']', DumpItems(items[1..]))
  }

  function DumpMembers(members: seq<Member>): (r: string)
    ensures |r| > 0 && forall x | x in r :: Printable(x)
    decreases members
  {
    if members == [] then "}"
    else
      "\"" + (Escapes(members[0].key) + ("\"" + (": " + (Dump(members[0].value) +
        if |members| == 1 then Rest(true, '}', "") else Rest(false, '}', DumpMembers(members[1..]))))))
  }

  // ---------------------------------------------------------------------------------------------
  // A dumped value can be read back off the front of any text
  // ---------------------------------------------------------------------------------------------

  lemma HexInjective(m: nat, n: nat)
    requires m < 0x10000 && n < 0x10000 && Hex4(m) == Hex4(n)
    ensures m == n
  {
    hide HexDigit;
    var x, y := Hex4(m), Hex4(n);
    assert x[0] == y[0] && x[1] == y[1] && x[2] == y[2] && x[3] == y[3];
    HexDigitInjective(m / 16 / 16 / 16, n / 16 / 16 / 16);
    HexDigitInjective(m / 16 / 16 % 16, n / 16 / 16 % 16);
    HexDigitInjective(m / 16 % 16, n / 16 % 16);
    HexDigitInjective(m % 16, n % 16);
    Divided(m / 16 / 16, n / 16 / 16);
    Divided(m / 16, n / 16);
    Divided(m, n);
  }

  lemma Divided(m: nat, n: nat)
    ensures m / 16 == n / 16 && m % 16 == n % 16 ==> m == n
  {
  }

  lemma HexDigitInjective(a: nat, b: nat)
    requires a < 16 && b < 16
    ensures HexDigit(a) == HexDigit(b) ==> a == b
  {
  }

  lemma SurrogatesInjective(a: nat, b: nat)
    requires 0x10000 <= a < 0x110000 && 0x10000 <= b < 0x110000
    requires High(a) == High(b) && Low(a) == Low(b)
    ensures a == b
  {
  }

  /** Two texts that start the same way at equal length split the same way. */
  lemma SplitAt(a: string, b: string, x: string, y: string)
    requires a + x == b + y && |a| == |b|
    ensures a == b && x == y
  {
    assert a == (a + x)[..|a|] && b == (b + y)[..|a|];
    assert x == (a + x)[|a|..] && y == (b + y)[|a|..];
  }

  /** How many characters one escaped character takes, read off its front. */
  function EscapeSize(c: char): nat {
    if ShortEscape(c).Some? then 2
    else if Printable(c) then 1
    else if c as int < 0x10000 then 6
    else 12
  }

  lemma EscapeShape(c: char)
    ensures |Escape(c)| == EscapeSize(c)
    ensures EscapeSize(c) == 1 <==> Escape(c)[0] != '\\'
    ensures EscapeSize(c) >= 6 <==> EscapeSize(c) > 1 && Escape(c)[1] == 'u'
    ensures EscapeSize(c) == 6 ==> Escape(c)[2..6] == Hex4(c as int) && !(0xD800 <= c as int < 0xDC00)
    ensures EscapeSize(c) == 12 ==> Escape(c)[2..6] == Hex4(High(c as int)) && Escape(c)[8..12] == Hex4(Low(c as int))
  {
  }

  lemma EscapePrefixFree(a: char, b: char, x: string, y: string)
    requires Escape(a) + x == Escape(b) + y
    ensures a == b && x == y
  {
    hide Escape, Hex4, High, Low;
    EscapeShape(a);
    EscapeShape(b);
    var t := Escape(a) + x;
    assert t == Escape(b) + y;
    assert t[0] == Escape(a)[0] == Escape(b)[0];
    if EscapeSize(a) > 1 {
      assert t[1] == Escape(a)[1] == Escape(b)[1];
    }
    if EscapeSize(a) >= 6 {
      assert t[2..6] == Escape(a)[2..6] == Escape(b)[2..6];
      HexInjective(if EscapeSize(a) == 6 then a as int else High(a as int), if EscapeSize(b) == 6 then b as int else High(b as int));
    }
    SplitAt(Escape(a), Escape(b), x, y);
    EscapeInjective(a, b);
  }

  lemma EscapeInjective(a: char, b: char)
    requires Escape(a) == Escape(b)
    ensures a == b
  {
    hide Hex4;
    EscapeShape(a);
    EscapeShape(b);
    if EscapeSize(a) == 6 {
      HexInjective(a as int, b as int);
    } else if EscapeSize(a) == 12 {
      HexInjective(High(a as int), High(b as int));
      HexInjective(Low(a as int), Low(b as int));
      SurrogatesInjective(a as int, b as int);
    }
  }

  /** A quoted string ends at its closing quote, so what follows it cannot be confused with it. */
  lemma {:induction false} EscapesPrefixFree(a: string, b: string, x: string, y: string)
    requires Escapes(a) + "\"" + x == Escapes(b) + "\"" + y
    ensures a == b && x == y
    decreases |a|
  {
    hide Escape;
    var t := Escapes(a) + "\"" + x;
    if a == "" || b == "" {
      QuoteFirst(a, x);
      QuoteFirst(b, y);
      SplitAt("\"", "\"", x, y);
    } else {
      var x', y' := Escapes(a[1..]) + "\"" + x, Escapes(b[1..]) + "\"" + y;
      assert t == Escape(a[0]) + x';
      assert t == Escape(b[0]) + y';
      EscapePrefixFree(a[0], b[0], x', y');
      EscapesPrefixFree(a[1..], b[1..], x, y);
      assert a == [a[0]] + a[1..] && b == [b[0]] + b[1..];
    }
  }

  lemma QuoteFirst(a: string, x: string)
    ensures a == "" <==> (Escapes(a) + "\"" + x)[0] == '"'
    ensures a == "" ==> Escapes(a) + "\"" + x == "\"" + x
  {
    if a != "" {
      assert (Escapes(a) + "\"" + x)[0] == Escape(a[0])[0];
    } else {
      assert Escapes(a) + "\"" + x == "\"" + x;
    }
  }

  /** What may follow a value: not another digit. */
  predicate Stops(x: string) {
    x == "" || !Decimal.IsDigit(x[0])
  }

  /** How many digits a text starts with. */
  function LeadingDigits(s: string): nat {
    if s == "" || !Decimal.IsDigit(s[0]) then 0 else 1 + LeadingDigits(s[1..])
  }

  lemma {:induction false} DigitsThenStop(s: string, x: string)
    requires Decimal.AllDigits(s) && Stops(x)
    ensures LeadingDigits(s + x) == |s|
  {
    if s == "" {
      assert s + x == x;
    } else {
      assert s[0] in s && (s + x)[1..] == s[1..] + x;
      assert forall c | c in s[1..] :: c in s;
      DigitsThenStop(s[1..], x);
    }
  }

  lemma NumPrefixFree(a: nat, b: nat, x: string, y: string)
    requires Decimal.Print(a) + x == Decimal.Print(b) + y && Stops(x) && Stops(y)
    ensures a == b && x == y
  {
    DigitsThenStop(Decimal.Print(a), x);
    DigitsThenStop(Decimal.Print(b), y);
    SplitAt(Decimal.Print(a), Decimal.Print(b), x, y);
    Decimal.PrintInjective(a, b);
  }

  /** The first character tells which kind of value follows. */
  function Kind(j: Json): char {
    match j
    case Null => 'n'
    case Bool(b) => if b then 't' else 'f'
    case Num(_) => '0'
    case Str(_) => '"'
    case Arr(_) => '['
    case Obj(_) => '{'
  }

  lemma FirstChar(j: Json)
    ensures if j.Num? then Decimal.IsDigit(Dump(j)[0]) else Dump(j)[0] == Kind(j)
  {
    if j.Num? {
      assert Decimal.Print(j.n)[0] in Decimal.Print(j.n);
    }
  }

  lemma SameKind(a: Json, b: Json, x: string, y: string)
    requires Dump(a) + x == Dump(b) + y
    ensures Kind(a) == Kind(b)
  {
    hide Dump;
    FirstChar(a);
    FirstChar(b);
    assert (Dump(a) + x)[0] == Dump(a)[0] && (Dump(b) + y)[0] == Dump(b)[0];
  }

  /** Equal texts that start with dumped values start with the same value. */
  lemma {:induction false} DumpPrefixFree(a: Json, b: Json, x: string, y: string)
    requires Dump(a) + x == Dump(b) + y && Stops(x) && Stops(y)
    ensures a == b && x == y
    decreases a, 1
  {
    SameKind(a, b, x, y);
    match a
    case Null => SplitAt("null", "null", x, y);
    case Bool(v) => SplitAt(Dump(a), Dump(b), x, y);
    case Num(n) => NumPrefixFree(n, b.n, x, y);
    case Str(s) => StrPrefixFree(s, b.s, x, y);
    case Arr(items) =>
      hide DumpItems;
      Assoc("[", DumpItems(items), x);
      Assoc("[", DumpItems(b.items), y);
      SplitAt("[", "[", DumpItems(items) + x, DumpItems(b.items) + y);
      ItemsPrefixFree(items, b.items, x, y);
    case Obj(members) =>
      hide DumpMembers;
      Assoc("{", DumpMembers(members), x);
      Assoc("{", DumpMembers(b.members), y);
      SplitAt("{", "{", DumpMembers(members) + x, DumpMembers(b.members) + y);
      MembersPrefixFree(members, b.members, x, y);
  }

  lemma StrPrefixFree(a: string, b: string, x: string, y: string)
    requires Dump(Str(a)) + x == Dump(Str(b)) + y
    ensures a == b && x == y
  {
    hide Escapes;
    var p, q := Escapes(a) + "\"" + x, Escapes(b) + "\"" + y;
    Assoc("\"", Escapes(a) + "\"", x);
    Assoc("\"", Escapes(b) + "\"", y);
    SplitAt("\"", "\"", p, q);
    EscapesPrefixFree(a, b, x, y);
  }

  lemma RestSplits(a: bool, b: bool, close: char, p: string, q: string, x: string, y: string)
    requires close != ',' && Printable(close) && (forall c | c in p :: Printable(c)) && (forall c | c in q :: Printable(c))
    requires Rest(a, close, p) + x == Rest(b, close, q) + y
    ensures a == b
    ensures if a then x == y else p + x == q + y
  {
    assert (Rest(a, close, p) + x)[0] == Rest(a, close, p)[0];
    assert (Rest(b, close, q) + y)[0] == Rest(b, close, q)[0];
    if a {
      SplitAt([close], [close], x, y);
    } else {
      Assoc(", ", p, x);
      Assoc(", ", q, y);
      SplitAt(", ", ", ", p + x, q + y);
    }
  }

  function ItemsTail(a: seq<Json>): (r: string)
    requires a != []
    ensures forall c | c in r :: Printable(c)
  {
    if |a| == 1 then "" else DumpItems(a[1..])
  }

  lemma OpenItem(a: seq<Json>, x: string)
    requires a != []
    ensures DumpItems(a) + x == Dump(a[0]) + (Rest(|a| == 1, ']', ItemsTail(a)) + x)
    ensures Stops(Rest(|a| == 1, ']', ItemsTail(a)) + x)
  {
    hide Dump;
    Assoc(Dump(a[0]), Rest(|a| == 1, ']', ItemsTail(a)), x);
    assert (Rest(|a| == 1, ']', ItemsTail(a)) + x)[0] == Rest(|a| == 1, ']', ItemsTail(a))[0];
  }

  lemma {:induction false} ItemsPrefixFree(a: seq<Json>, b: seq<Json>, x: string, y: string)
    requires DumpItems(a) + x == DumpItems(b) + y
    ensures a == b && x == y
    decreases a, 0
  {
    ItemsFirst(a, x);
    ItemsFirst(b, y);
    if a == [] || b == [] {
      SplitAt("]", "]", x, y);
    } else {
      OpenItem(a, x);
      OpenItem(b, y);
      hide Dump, Rest, DumpItems;
      var p, q := ItemsTail(a), ItemsTail(b);
      DumpPrefixFree(a[0], b[0], Rest(|a| == 1, ']', p) + x, Rest(|b| == 1, ']', q) + y);
      RestSplits(|a| == 1, |b| == 1, ']', p, q, x, y);
      if |a| > 1 { ItemsPrefixFree(a[1..], b[1..], x, y); }
      assert a == [a[0]] + a[1..] && b == [b[0]] + b[1..];
    }
  }

  lemma ItemsFirst(a: seq<Json>, x: string)
    ensures a == [] <==> (DumpItems(a) + x)[0] == ']'
  {
    hide Dump;
    if a != [] {
      FirstChar(a[0]);
      assert (DumpItems(a) + x)[0] == Dump(a[0])[0];
    }
  }

  function MembersTail(a: seq<Member>): (r: string)
    requires a != []
    ensures forall c | c in r :: Printable(c)
  {
    if |a| == 1 then "" else DumpMembers(a[1..])
  }

  /** What follows the first member's key. */
  function AfterKey(a: seq<Member>, x: string): string
    requires a != []
  {
    ": " + (Dump(a[0].value) + (Rest(|a| == 1, '}', MembersTail(a)) + x))
  }

  lemma OpenMember(a: seq<Member>, x: string)
    requires a != []
    ensures DumpMembers(a) + x == "\"" + (Escapes(a[0].key) + "\"" + AfterKey(a, x))
    ensures Stops(Rest(|a| == 1, '}', MembersTail(a)) + x)
  {
    hide Dump, Escapes;
    var e, d, r := Escapes(a[0].key), Dump(a[0].value), Rest(|a| == 1, '}', MembersTail(a));
    Assoc("\"", e + ("\"" + (": " + (d + r))), x);
    Assoc(e, "\"" + (": " + (d + r)), x);
    Assoc("\"", ": " + (d + r), x);
    Assoc(": ", d + r, x);
    Assoc(d, r, x);
    Assoc(e, "\"", AfterKey(a, x));
    assert (r + x)[0] == r[0];
  }

  lemma {:induction false} MembersPrefixFree(a: seq<Member>, b: seq<Member>, x: string, y: string)
    requires DumpMembers(a) + x == DumpMembers(b) + y
    ensures a == b && x == y
    decreases a, 0
  {
    hide Dump, Escapes, Rest, DumpMembers;
    MembersFirst(a, x);
    MembersFirst(b, y);
    if a == [] || b == [] {
      SplitAt("}", "}", x, y);
    } else {
      OpenMember(a, x);
      OpenMember(b, y);
      var p, q := MembersTail(a), MembersTail(b);
      var r, s := Rest(|a| == 1, '}', p) + x, Rest(|b| == 1, '}', q) + y;
      SplitAt("\"", "\"", Escapes(a[0].key) + "\"" + AfterKey(a, x), Escapes(b[0].key) + "\"" + AfterKey(b, y));
      EscapesPrefixFree(a[0].key, b[0].key, AfterKey(a, x), AfterKey(b, y));
      SplitAt(": ", ": ", Dump(a[0].value) + r, Dump(b[0].value) + s);
      DumpPrefixFree(a[0].value, b[0].value, r, s);
      RestSplits(|a| == 1, |b| == 1, '}', p, q, x, y);
      if |a| > 1 { MembersPrefixFree(a[1..], b[1..], x, y); }
      assert a == [a[0]] + a[1..] && b == [b[0]] + b[1..];
    }
  }

  lemma MembersFirst(a: seq<Member>, x: string)
    ensures DumpMembers(a) != "" && (a == [] <==> (DumpMembers(a) + x)[0] == '}')
    ensures a == [] ==> DumpMembers(a) == "}"
  {
    hide Dump, Escapes;
  }

  // ---------------------------------------------------------------------------------------------
  // The stream
  // ---------------------------------------------------------------------------------------------

  function MembersOf(m: map<string, Json>, keys: seq<string>): (r: seq<Member>)
    requires forall k | k in keys :: k in m
    ensures |r| == |keys| && forall i | 0 <= i < |keys| :: r[i] == Member(keys[i], m[keys[i]])
  {
    if keys == [] then [] else [Member(keys[0], m[keys[0]])] + MembersOf(m, keys[1..])
  }

  /** `json.dumps(m, sort_keys=True)`'s view of a dictionary. */
  ghost function SortedObject(m: map<string, Json>): Json {
    Obj(MembersOf(m, Sorted(m.Keys)))
  }

  lemma SortedObjectInjective(a: map<string, Json>, b: map<string, Json>)
    requires SortedObject(a) == SortedObject(b)
    ensures a == b
  {
    var x, y := Sorted(a.Keys), Sorted(b.Keys);
    var r, s := MembersOf(a, x), MembersOf(b, y);
    assert |x| == |y| && forall i | 0 <= i < |x| :: r[i] == s[i] && x[i] == y[i] && a[x[i]] == b[x[i]];
    assert x == y;
    assert a.Keys == b.Keys;
    forall k | k in a ensures a[k] == b[k] {
      assert k in x;
    }
  }

  function Texts(items: seq<string>): seq<Json> {
    seq(|items|, (i: nat) requires i < |items| => Str(items[i]))
  }

  function ArgsJson(m: map<string, string>): map<string, Json> {
    map k | k in m :: Str(m[k])
  }

  function StagesJson(m: map<string, seq<string>>): map<string, Json> {
    map k | k in m :: Arr(Texts(m[k]))
  }

  function RecipeOf(args: Json, stages: Json, syntax: Option<string>): Json {
    Obj([Member("args", args), Member("stages", stages), Member("syntax", if syntax.Some? then Str(syntax.value) else Null)])
  }

  ghost function Recipe(out: Output): Json {
    RecipeOf(SortedObject(ArgsJson(out.args)), SortedObject(StagesJson(out.stages)), out.syntax)
  }

  function Header(e: Entry): Json {
    Arr([Str(e.path), Bool(e.executable), Num(|e.content|)])
  }

  function FileBytes(files: seq<Entry>): string {
    if files == [] then ""
    else FileBytes(files[..|files| - 1]) + (Dump(Header(files[|files| - 1])) + "\0" + files[|files| - 1].content)
  }

  /** Everything the hash sees. */
  ghost function Stream(out: Output): string {
    Dump(Recipe(out)) + FileBytes(out.files)
  }

  /** The digest's updates, one after the other. */
  method Feed(out: Output) returns (bytes: string)
    ensures bytes == Stream(out)
  {
    hide Dump, SortedObject;
    var args := SortKeys(ArgsJson(out.args));
    var stages := SortKeys(StagesJson(out.stages));
    var head := Dump(RecipeOf(args, stages, out.syntax));
    bytes := head;
    for i := 0 to |out.files|
      invariant bytes == head + FileBytes(out.files[..i])
    {
      assert out.files[..i + 1][..i] == out.files[..i];
      var e := out.files[i];
      ghost var chunk := Dump(Header(e)) + "\0" + e.content;
      assert head + (FileBytes(out.files[..i]) + chunk) == (head + FileBytes(out.files[..i])) + chunk;
      bytes := bytes + (Dump(Header(e)) + "\0" + e.content);
    }
    assert out.files[..|out.files|] == out.files;
  }

  method SortKeys(m: map<string, Json>) returns (j: Json)
    ensures j == SortedObject(m)
  {
    var keys := Sort(m.Keys);
    SortedUnique(m.Keys, keys, Sorted(m.Keys));
    j := Obj(MembersOf(m, keys));
  }

  lemma Regroup(a: string, b: string, c: string, d: string, e: string)
    ensures (a + (b + (c + d))) + e == a + (b + (c + (d + e)))
  {
  }

  lemma FileBytesLast(files: seq<Entry>)
    requires files != []
    ensures var e := files[|files| - 1];
            FileBytes(files) == FileBytes(files[..|files| - 1]) + (Dump(Header(e)) + "\0" + e.content)
  {
    hide Dump;
  }

  lemma {:induction false} FileBytesFirst(files: seq<Entry>)
    ensures files != [] ==> FileBytes(files) == Dump(Header(files[0])) + ("\0" + (files[0].content + FileBytes(files[1..])))
  {
    hide Dump;
    if |files| == 1 {
      assert files[..0] == [] && files[1..] == [];
    } else if |files| > 1 {
      var front, e := files[..|files| - 1], files[|files| - 1];
      FileBytesFirst(front);
      var rest := files[1..];
      assert front[0] == files[0] && rest[..|rest| - 1] == front[1..] && rest[|rest| - 1] == e;
      FileBytesLast(files);
      FileBytesLast(rest);
      hide FileBytes;
      Regroup(Dump(Header(files[0])), "\0", files[0].content, FileBytes(front[1..]), Dump(Header(e)) + "\0" + e.content);
    }
  }

  lemma {:induction false} FilesInjective(a: seq<Entry>, b: seq<Entry>)
    requires FileBytes(a) == FileBytes(b)
    ensures a == b
    decreases |a|
  {
    hide Dump, FileBytes;
    FileBytesEmpty(a);
    FileBytesEmpty(b);
    if a != [] && b != [] {
      FileBytesFirst(a);
      FileBytesFirst(b);
      var x, y := a[0].content + FileBytes(a[1..]), b[0].content + FileBytes(b[1..]);
      DumpPrefixFree(Header(a[0]), Header(b[0]), "\0" + x, "\0" + y);
      SplitAt("\0", "\0", x, y);
      HeaderInjective(a[0], b[0]);
      SplitAt(a[0].content, b[0].content, FileBytes(a[1..]), FileBytes(b[1..]));
      FilesInjective(a[1..], b[1..]);
      assert a == [a[0]] + a[1..] && b == [b[0]] + b[1..];
    }
  }

  lemma HeaderInjective(a: Entry, b: Entry)
    requires Header(a) == Header(b)
    ensures a.path == b.path && a.executable == b.executable && |a.content| == |b.content|
  {
    var x, y := Header(a).items, Header(b).items;
    assert x[0] == y[0] && x[1] == y[1] && x[2] == y[2];
  }

  lemma FileBytesEmpty(a: seq<Entry>)
    ensures a == [] <==> FileBytes(a) == ""
    ensures a != [] ==> FileBytes(a)[0] == '['
  {
    hide Dump;
    if a != [] {
      FileBytesFirst(a);
      FirstChar(Header(a[0]));
    }
  }

  lemma RecipeInjective(a: Output, b: Output)
    requires Recipe(a) == Recipe(b)
    ensures a.syntax == b.syntax && a.args == b.args && a.stages == b.stages
  {
    hide SortedObject;
    var x, y := Recipe(a).members, Recipe(b).members;
    assert x[0] == y[0] && x[1] == y[1] && x[2] == y[2];
    SortedObjectInjective(ArgsJson(a.args), ArgsJson(b.args));
    SortedObjectInjective(StagesJson(a.stages), StagesJson(b.stages));
    ArgsInjective(a.args, b.args);
    StagesInjective(a.stages, b.stages);
  }

  lemma ArgsInjective(a: map<string, string>, b: map<string, string>)
    requires ArgsJson(a) == ArgsJson(b)
    ensures a == b
  {
    var x, y := ArgsJson(a), ArgsJson(b);
    assert a.Keys == x.Keys == y.Keys == b.Keys;
    forall k | k in a ensures a[k] == b[k] {
      assert x[k] == y[k];
    }
  }

  lemma StagesInjective(a: map<string, seq<string>>, b: map<string, seq<string>>)
    requires StagesJson(a) == StagesJson(b)
    ensures a == b
  {
    var x, y := StagesJson(a), StagesJson(b);
    assert a.Keys == x.Keys == y.Keys == b.Keys;
    forall k | k in a ensures a[k] == b[k] {
      assert x[k] == y[k];
      assert Texts(a[k]) == Texts(b[k]);
      forall i | 0 <= i < |a[k]| ensures a[k][i] == b[k][i] {
        assert Texts(a[k])[i] == Texts(b[k])[i];
      }
    }
  }

  /** Equal bytes come only from equal inputs: the same recipe and the same files in the same order,
      with the same modes and contents. */
  lemma StreamInjective(a: Output, b: Output)
    requires Stream(a) == Stream(b)
    ensures a == b
  {
    hide Dump, Recipe, FileBytes;
    FileBytesEmpty(a.files);
    FileBytesEmpty(b.files);
    DumpPrefixFree(Recipe(a), Recipe(b), FileBytes(a.files), FileBytes(b.files));
    RecipeInjective(a, b);
    FilesInjective(a.files, b.files);
  }

  /** Two projects hash the same bytes exactly when their toolchains need the same stages, reference the
      same arguments, name the same syntax and copy the same files. */
  lemma SameBytesExactly(p: Project, q: Project, a: Output, b: Output)
    requires WellFormed(p) && WellFormed(q) && IsOutput(p, a) && IsOutput(q, b)
    ensures Stream(a) == Stream(b) <==>
              && p.docker.syntax == q.docker.syntax
              && NeededRecipes(p) == NeededRecipes(q)
              && a.args == b.args
              && a.files == b.files
  {
    hide Dump, Recipe, FileBytes, NeededRecipes, IsFileList, Sound;
    if Stream(a) == Stream(b) {
      StreamInjective(a, b);
    }
  }

  // ---------------------------------------------------------------------------------------------
  // The text itself
  // ---------------------------------------------------------------------------------------------

  function Join(parts: seq<string>): string {
    if parts == [] then "" else if |parts| == 1 then parts[0] else parts[0] + ", " + Join(parts[1..])
  }

  function DumpAll(items: seq<Json>): seq<string> {
    seq(|items|, (i: nat) requires i < |items| => Dump(items[i]))
  }

  function DumpEach(members: seq<Member>): seq<string> {
    seq(|members|, (i: nat) requires i < |members| => "\"" + Escapes(members[i].key) + "\": " + Dump(members[i].value))
  }

  lemma {:induction false} ItemsText(items: seq<Json>)
    ensures DumpItems(items) == Join(DumpAll(items)) + "]"
  {
    if |items| > 1 {
      hide Dump, Join;
      ItemsText(items[1..]);
      assert DumpAll(items)[1..] == DumpAll(items[1..]);
      JoinFirst(DumpAll(items), "]");
    } else {
      assert items == [] ==> DumpAll(items) == [];
    }
  }

  lemma MemberText(key: string, value: string, rest: string)
    ensures "\"" + (Escapes(key) + ("\"" + (": " + (value + rest)))) == ("\"" + Escapes(key) + "\": " + value) + rest
  {
    hide Escapes;
  }

  lemma MemberFirst(members: seq<Member>, value: string, rest: string)
    requires |members| > 1 && value == Dump(members[0].value) && rest == DumpMembers(members[1..])
    ensures DumpMembers(members) == ("\"" + Escapes(members[0].key) + "\": " + value) + (", " + rest)
  {
    hide Dump, Escapes;
    MemberText(members[0].key, value, ", " + rest);
  }

  lemma MemberOnly(m: Member, value: string)
    requires value == Dump(m.value)
    ensures DumpMembers([m]) == ("\"" + Escapes(m.key) + "\": " + value) + "}"
  {
    hide Dump, Escapes;
    MemberText(m.key, value, "}");
  }

  lemma JoinFirst(texts: seq<string>, close: string)
    requires |texts| > 1
    ensures texts[0] + (", " + (Join(texts[1..]) + close)) == Join(texts) + close
  {
    var rest := Join(texts[1..]);
    assert texts[0] + (", " + (rest + close)) == texts[0] + ", " + rest + close;
  }

  lemma {:induction false} MembersText(members: seq<Member>)
    ensures DumpMembers(members) == Join(DumpEach(members)) + "}"
  {
    var texts := DumpEach(members);
    if |members| > 1 {
      hide DumpMembers, Dump, Escapes, Join;
      MembersText(members[1..]);
      assert texts[1..] == DumpEach(members[1..]);
      MemberFirst(members, Dump(members[0].value), DumpMembers(members[1..]));
      JoinFirst(texts, "}");
    } else if |members| == 1 {
      hide DumpMembers, Dump, Escapes;
      assert members == [members[0]];
      MemberOnly(members[0], Dump(members[0].value));
      assert Join(texts) == texts[0];
    } else {
      hide Dump, Escapes;
      assert texts == [];
    }
  }

  /** A character by itself, or its escape: two characters for the seven that have one, and otherwise four
      hexadecimal digits for a character outside printable ASCII, or a surrogate pair of them. */
  lemma EscapeExactly(c: char)
    ensures ' ' <= c <= '~' && c != '"' && c != '\\' ==> Escape(c) == [c]
    ensures Escape('"') == "\\\"" && Escape('\\') == "\\\\" && Escape('\n') == "\\n" && Escape('\r') == "\\r" && Escape('\t') == "\\t"
    ensures Escape('\U{000C}') == "\\f" && Escape('\U{0008}') == "\\b"
    ensures Escape('\U{007F}') == "\\u007f" && Escape('\U{00E9}') == "\\u00e9" && Escape('\U{1F600}') == "\\ud83d\\ude00"
    ensures Escape('\U{A1B2}') == "\\ua1b2" && Escape('\U{4C56}') == "\\u4c56"
  {
    WideExamples();
    hide Hex4, HexDigit;
  }

  lemma WideExamples()
    ensures Escape('\U{007F}') == "\\u007f" && Escape('\U{00E9}') == "\\u00e9" && Escape('\U{1F600}') == "\\ud83d\\ude00"
    ensures Escape('\U{A1B2}') == "\\ua1b2" && Escape('\U{4C56}') == "\\u4c56"
  {
    HexExamples();
    hide Hex4, HexDigit;
    assert High(0x1F600) == 0xD83D && Low(0x1F600) == 0xDE00;
  }

  lemma HexExamples()
    ensures Hex4(0x7F) == "007f" && Hex4(0xE9) == "00e9" && Hex4(0xD83D) == "d83d" && Hex4(0xDE00) == "de00"
    ensures Hex4(0xA1B2) == "a1b2" && Hex4(0x4C56) == "4c56"
  {
  }

  /** The text of each kind of value. */
  lemma TextExactly(s: string, n: nat, items: seq<Json>, members: seq<Member>)
    ensures Dump(Null) == "null" && Dump(Bool(true)) == "true" && Dump(Bool(false)) == "false" && Dump(Num(n)) == Decimal.Print(n)
    ensures Dump(Str(s)) == "\"" + Escapes(s) + "\""
    ensures Dump(Arr(items)) == "[" + Join(DumpAll(items)) + "]"
    ensures Dump(Obj(members)) == "{" + Join(DumpEach(members)) + "}"
  {
    ItemsText(items);
    MembersText(members);
    hide Escapes, DumpItems, DumpMembers;
    assert "[" + (Join(DumpAll(items)) + "]") == "[" + Join(DumpAll(items)) + "]";
    assert "{" + (Join(DumpEach(members)) + "}") == "{" + Join(DumpEach(members)) + "}";
    assert "\"" + (Escapes(s) + "\"") == "\"" + Escapes(s) + "\"";
  }

  /** A dictionary's members, by ascending key, are exactly its entries. */
  lemma SortedExactly(m: map<string, Json>)
    ensures SortedObject(m).Obj? && |SortedObject(m).members| == |m|
    ensures var members := SortedObject(m).members;
            && (forall i, j | 0 <= i < j < |members| :: Less(members[i].key, members[j].key))
            && (forall i | 0 <= i < |members| :: members[i].key in m && m[members[i].key] == members[i].value)
  {
    var keys := Sorted(m.Keys);
    SortedSize(m.Keys, keys);
    assert |m.Keys| == |m|;
  }

  lemma {:induction false} SortedSize(s: set<string>, keys: seq<string>)
    requires IsSorted(s, keys)
    ensures |keys| == |s|
  {
    if keys == [] {
      EmptySorted(s, keys);
    } else {
      TailSorted(s, keys);
      SortedSize(s - {keys[0]}, keys[1..]);
      assert keys[0] in s;
    }
  }

  /** What the hash sees: the recipe's three members in the order of their names, and then for each file in
      turn its path, mode and length, a zero, and its bytes. */
  lemma StreamText(out: Output)
    ensures Stream(out) == Dump(Recipe(out)) + FileBytes(out.files)
    ensures Recipe(out).Obj? && |Recipe(out).members| == 3
    ensures Recipe(out).members[0] == Member("args", SortedObject(map k | k in out.args :: Str(out.args[k])))
    ensures Recipe(out).members[1] == Member("stages", SortedObject(StagesJson(out.stages)))
    ensures Recipe(out).members[2] == Member("syntax", if out.syntax.Some? then Str(out.syntax.value) else Null)
    ensures forall k | k in out.stages :: k in StagesJson(out.stages) && StagesJson(out.stages)[k].Arr?
              && |StagesJson(out.stages)[k].items| == |out.stages[k]|
              && forall i | 0 <= i < |out.stages[k]| :: StagesJson(out.stages)[k].items[i] == Str(out.stages[k][i])
    ensures forall k | k in StagesJson(out.stages) :: k in out.stages
  {
  }

  lemma FileText(files: seq<Entry>, e: Entry)
    ensures FileBytes([]) == ""
    ensures FileBytes(files + [e]) ==
            FileBytes(files) + "[\"" + Escapes(e.path) + "\", " + (if e.executable then "true" else "false") + ", " + Decimal.Print(|e.content|) + "]"
            + "\0" + e.content
  {
    hide Escapes, Dump;
    assert (files + [e])[..|files|] == files;
    HeaderText(e);
    var h := Dump(Header(e));
    assert FileBytes(files) + (h + "\0" + e.content) == FileBytes(files) + h + "\0" + e.content;
  }

  lemma JoinThree(parts: seq<string>)
    requires |parts| == 3
    ensures Join(parts) == parts[0] + ", " + parts[1] + ", " + parts[2]
  {
    assert parts[1..][1..] == [parts[2]] && Join([parts[2]]) == parts[2];
    assert Join(parts[1..]) == parts[1] + ", " + parts[2];
    assert parts[0] + ", " + (parts[1] + ", " + parts[2]) == parts[0] + ", " + parts[1] + ", " + parts[2];
  }

  lemma HeaderText(e: Entry)
    ensures Dump(Header(e)) ==
            "[\"" + Escapes(e.path) + "\", " + (if e.executable then "true" else "false") + ", " + Decimal.Print(|e.content|) + "]"
  {
    hide Escapes, Dump, DumpItems, DumpMembers, Join;
    var items := [Str(e.path), Bool(e.executable), Num(|e.content|)];
    TextExactly(e.path, |e.content|, items, []);
    JoinThree(DumpAll(items));
    var p, b, n := Escapes(e.path), Dump(items[1]), Dump(items[2]);
    assert "[" + (("\"" + p + "\"") + ", " + b + ", " + n) + "]" == "[\"" + p + "\", " + b + ", " + n + "]";
  }
}
