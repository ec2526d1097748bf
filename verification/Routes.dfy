/** `segments` of crates/routes/build.rs: a route spec taken apart into literals, parameters and globs. */
module Routes {
  import opened Common

  datatype Segment =
    | Literal(text: string)
    | Param(name: string, value: Option<string>)
    | Glob(name: string, value: Option<string>)

  type Defaults = seq<(string, string)>

  const FORMAT_SUFFIX := "(.:format)"

  predicate IsNameChar(c: char) {
    'a' <= c <= 'z' || 'A' <= c <= 'Z' || '0' <= c <= '9' || c == '_'
  }

  predicate IsMarker(c: char) {
    c == ':' || c == '*'
  }

  function StripFormat(spec: string): string {
    if |spec| >= |FORMAT_SUFFIX| && spec[|spec| - |FORMAT_SUFFIX|..] == FORMAT_SUFFIX
    then spec[..|spec| - |FORMAT_SUFFIX|]
    else spec
  }

  function DefaultFor(defaults: Defaults, name: string): Option<string> {
    if defaults == [] then None
    else if defaults[0].0 == name then Some(defaults[0].1)
    else DefaultFor(defaults[1..], name)
  }

  /** How far a run of characters of one kind goes. */
  function RunLength(s: string, inRun: char -> bool): (n: nat)
    ensures n <= |s| && (forall i | 0 <= i < n :: inRun(s[i])) && (n < |s| ==> !inRun(s[n]))
  {
    if s == "" || !inRun(s[0]) then 0 else 1 + RunLength(s[1..], inRun)
  }

  function Named(marker: char, name: string, defaults: Defaults): Segment {
    if marker == ':' then Param(name, DefaultFor(defaults, name)) else Glob(name, DefaultFor(defaults, name))
  }

  /** What a spec means: a marker and the longest name after it, or the longest text without one. */
  function Parse(s: string, defaults: Defaults): seq<Segment>
    decreases |s|
  {
    if s == "" then []
    else if IsMarker(s[0]) then
      var n := RunLength(s[1..], IsNameChar);
      [Named(s[0], s[1..1 + n], defaults)] + Parse(s[1 + n..], defaults)
    else
      var n := RunLength(s, (c: char) => !IsMarker(c));
      [Literal(s[..n])] + Parse(s[n..], defaults)
  }

  function RenderOne(segment: Segment): string {
    match segment
    case Literal(text) => text
    case Param(name, _) => ":" + name
    case Glob(name, _) => "*" + name
  }

  function Render(segments: seq<Segment>): string {
    if segments == [] then "" else RenderOne(segments[0]) + Render(segments[1..])
  }

  // ---------------------------------------------------------------------------------------------
  // The loop
  // ---------------------------------------------------------------------------------------------

  predicate NoMarkers(s: string) {
    forall c | c in s :: !IsMarker(c)
  }

  lemma {:induction false} RunOf(s: string, rest: string, inRun: char -> bool)
    requires (forall c | c in s :: inRun(c)) && (rest == "" || !inRun(rest[0]))
    ensures RunLength(s + rest, inRun) == |s|
  {
    if s == "" {
      assert s + rest == rest;
    } else {
      assert s[0] in s && (s + rest)[1..] == s[1..] + rest;
      assert forall c | c in s[1..] :: c in s;
      RunOf(s[1..], rest, inRun);
    }
  }

  /** A literal that is complete is a segment of its own. */
  lemma ParseLiteral(literal: string, rest: string, defaults: Defaults)
    requires NoMarkers(literal) && (rest == "" || IsMarker(rest[0]))
    ensures Parse(literal + rest, defaults) == (if literal == "" then [] else [Literal(literal)]) + Parse(rest, defaults)
  {
    if literal == "" {
      assert literal + rest == rest;
    } else {
      var s := literal + rest;
      assert literal[0] in literal && s[0] == literal[0];
      RunOf(literal, rest, (c: char) => !IsMarker(c));
      assert s[..|literal|] == literal && s[|literal|..] == rest;
    }
  }

  function LiteralPart(literal: string): seq<Segment> {
    if literal == "" then [] else [Literal(literal)]
  }

  /** A marker and the full name after it are a segment of their own. */
  lemma ParseName(marker: char, name: string, rest: string, defaults: Defaults)
    requires IsMarker(marker) && (forall c | c in name :: IsNameChar(c)) && (rest == "" || !IsNameChar(rest[0]))
    ensures Parse([marker] + name + rest, defaults) == [Named(marker, name, defaults)] + Parse(rest, defaults)
  {
    var s := [marker] + name + rest;
    assert s[1..] == name + rest;
    RunOf(name, rest, IsNameChar);
    assert s[1..1 + |name|] == name && s[1 + |name|..] == rest;
  }

  /** What is left to parse once `literal` is set aside and `text` is read up to `i`. */
  ghost predicate Parsing(text: string, i: nat, segments: seq<Segment>, literal: string, defaults: Defaults) {
    && i <= |text| && NoMarkers(literal)
    && segments + Parse(literal + text[i..], defaults) == Parse(text, defaults)
  }

  lemma ParsingMarker(text: string, i: nat, end: nat, segments: seq<Segment>, literal: string, defaults: Defaults)
    requires i < end <= |text| && Parsing(text, i, segments, literal, defaults) && IsMarker(text[i])
    requires (forall c | c in text[i + 1..end] :: IsNameChar(c)) && (end < |text| ==> !IsNameChar(text[end]))
    ensures Parsing(text, end, segments + LiteralPart(literal) + [Named(text[i], text[i + 1..end], defaults)], "", defaults)
  {
    hide Parse;
    var named, rest := Named(text[i], text[i + 1..end], defaults), Parse(text[end..], defaults);
    ParseLiteral(literal, text[i..], defaults);
    assert text[i..] == [text[i]] + text[i + 1..end] + text[end..];
    ParseName(text[i], text[i + 1..end], text[end..], defaults);
    assert segments + (LiteralPart(literal) + ([named] + rest)) == (segments + LiteralPart(literal) + [named]) + rest;
    assert "" + text[end..] == text[end..];
  }

  lemma ParsingChar(text: string, i: nat, segments: seq<Segment>, literal: string, defaults: Defaults)
    requires i < |text| && Parsing(text, i, segments, literal, defaults) && !IsMarker(text[i])
    ensures Parsing(text, i + 1, segments, literal + [text[i]], defaults)
  {
    hide Parse;
    assert literal + text[i..] == (literal + [text[i]]) + text[i + 1..];
  }

  lemma ParsingDone(text: string, segments: seq<Segment>, literal: string, defaults: Defaults)
    requires Parsing(text, |text|, segments, literal, defaults)
    ensures segments + LiteralPart(literal) == Parse(text, defaults)
  {
    assert literal + text[|text|..] == literal + "";
    ParseLiteral(literal, "", defaults);
  }

  /** The longest name that starts at `start`. */
  method ReadName(text: string, start: nat) returns (end: nat)
    requires start <= |text|
    ensures start <= end <= |text|
    ensures (forall c | c in text[start..end] :: IsNameChar(c)) && (end < |text| ==> !IsNameChar(text[end]))
  {
    end := start;
    while end < |text| && IsNameChar(text[end])
      invariant start <= end <= |text|
      invariant forall c | c in text[start..end] :: IsNameChar(c)
    {
      assert text[start..end + 1] == text[start..end] + [text[end]];
      end := end + 1;
    }
  }

  /** What `segments` answers. `Err` stands for the assertion that refuses optional groups. */
  function SegmentsOf(spec: string, defaults: Defaults): Result<seq<Segment>, ()> {
    if '(' in StripFormat(spec) then Err(()) else Ok(Parse(StripFormat(spec), defaults))
  }

  method Segments(spec: string, defaults: Defaults) returns (r: Result<seq<Segment>, ()>)
    ensures r == SegmentsOf(spec, defaults)
  {
    hide Parsing;
    var text := StripFormat(spec);
    if '(' in text {
      return Err(());
    }
    var segments: seq<Segment> := [];
    var literal := "";
    var i := 0;
    ParsingStart(text, defaults);
    while i < |text|
      invariant i <= |text| && Parsing(text, i, segments, literal, defaults)
    {
      var c, start := text[i], i + 1;
      if IsMarker(c) {
        var end := ReadName(text, start);
        ParsingMarker(text, i, end, segments, literal, defaults);
        assert literal == "" ==> segments + LiteralPart(literal) == segments;
        if literal != "" {
          segments := segments + [Literal(literal)];
          literal := "";
        }
        segments := segments + [Named(c, text[start..end], defaults)];
        i := end;
      } else {
        ParsingChar(text, i, segments, literal, defaults);
        literal := literal + [c];
        i := start;
      }
    }
    ParsingDone(text, segments, literal, defaults);
    assert literal == "" ==> segments + LiteralPart(literal) == segments;
    if literal != "" {
      segments := segments + [Literal(literal)];
    }
    r := Ok(segments);
  }

  lemma ParsingStart(text: string, defaults: Defaults)
    ensures Parsing(text, 0, [], "", defaults)
  {
    assert "" + text[0..] == text && [] + Parse(text, defaults) == Parse(text, defaults);
  }

  // ---------------------------------------------------------------------------------------------
  // Parsing and rendering are inverse
  // ---------------------------------------------------------------------------------------------

  lemma FirstRendered(s: string, defaults: Defaults) returns (head: Segment, n: nat)
    requires s != ""
    ensures 0 < n <= |s| && Parse(s, defaults) == [head] + Parse(s[n..], defaults) && RenderOne(head) == s[..n]
    ensures n == if IsMarker(s[0]) then 1 + RunLength(s[1..], IsNameChar) else RunLength(s, (c: char) => !IsMarker(c))
  {
    n := if IsMarker(s[0]) then 1 + RunLength(s[1..], IsNameChar) else RunLength(s, (c: char) => !IsMarker(c));
    head := Parse(s, defaults)[0];
    assert s[..n] == [s[0]] + s[1..n];
  }

  /** Rendering a parsed spec gives the spec back. */
  lemma {:induction false} RenderParse(s: string, defaults: Defaults)
    ensures Render(Parse(s, defaults)) == s
    decreases |s|
  {
    hide Parse, RenderOne, RunLength;
    ParseHead(s, defaults);
    if s != "" {
      var head, n := FirstRendered(s, defaults);
      RenderParse(s[n..], defaults);
      var rest := Parse(s[n..], defaults);
      assert ([head] + rest)[0] == head && ([head] + rest)[1..] == rest;
      assert s == s[..n] + s[n..];
    }
  }

  ghost predicate CanonicalOne(segment: Segment, defaults: Defaults) {
    match segment
    case Literal(text) => text != "" && NoMarkers(text)
    case Param(name, value) => (forall c | c in name :: IsNameChar(c)) && value == DefaultFor(defaults, name)
    case Glob(name, value) => (forall c | c in name :: IsNameChar(c)) && value == DefaultFor(defaults, name)
  }

  /** `b` may follow `a`: no two literals in a row, and no literal that would lengthen a name. */
  ghost predicate MayFollow(a: Segment, b: Segment) {
    b.Literal? ==> !a.Literal? && b.text != "" && !IsNameChar(b.text[0])
  }

  ghost predicate Canonical(segments: seq<Segment>, defaults: Defaults) {
    && (forall segment | segment in segments :: CanonicalOne(segment, defaults))
    && forall i | 0 <= i < |segments| - 1 :: MayFollow(segments[i], segments[i + 1])
  }

  /** Parsing yields no empty or adjacent literals and only names of full length. */
  lemma {:induction false} ParseCanonical(s: string, defaults: Defaults)
    ensures Canonical(Parse(s, defaults), defaults)
    decreases |s|
  {
    if s != "" {
      var head, n := FirstSegment(s, defaults);
      ParseCanonical(s[n..], defaults);
      hide Parse, CanonicalOne, MayFollow;
      PrependCanonical(head, Parse(s[n..], defaults), defaults);
    }
  }

  lemma FirstSegment(s: string, defaults: Defaults) returns (head: Segment, n: nat)
    requires s != ""
    ensures 0 < n <= |s| && Parse(s, defaults) == [head] + Parse(s[n..], defaults)
    ensures CanonicalOne(head, defaults)
    ensures n < |s| ==> MayFollow(head, Parse(s[n..], defaults)[0])
    ensures n == |s| ==> Parse(s[n..], defaults) == []
  {
    head, n := FirstRendered(s, defaults);
    HeadCanonical(s, defaults);
    ParseHead(s[n..], defaults);
    hide Parse, RunLength;
    if n < |s| {
      assert s[n..][0] == s[n];
      if IsMarker(s[0]) { assert s[1..][n - 1] == s[n]; }
    }
  }

  lemma HeadCanonical(s: string, defaults: Defaults)
    requires s != ""
    ensures Parse(s, defaults) != [] && CanonicalOne(Parse(s, defaults)[0], defaults)
    ensures Parse(s, defaults)[0].Literal? <==> !IsMarker(s[0])
  {
    if IsMarker(s[0]) {
      var n := RunLength(s[1..], IsNameChar);
      assert s[1..1 + n] == s[1..][..n];
    }
  }

  lemma PrependCanonical(head: Segment, rest: seq<Segment>, defaults: Defaults)
    requires CanonicalOne(head, defaults) && Canonical(rest, defaults) && (rest != [] ==> MayFollow(head, rest[0]))
    ensures Canonical([head] + rest, defaults)
  {
    hide CanonicalOne, MayFollow;
    var all := [head] + rest;
    forall i | 0 <= i < |all| - 1 ensures MayFollow(all[i], all[i + 1]) {
      if i > 0 { assert MayFollow(rest[i - 1], rest[i - 1 + 1]); }
    }
  }

  lemma ParseHead(s: string, defaults: Defaults)
    ensures s == "" <==> Parse(s, defaults) == []
    ensures s != "" ==> (Parse(s, defaults)[0].Literal? <==> !IsMarker(s[0]))
    ensures s != "" && !IsMarker(s[0]) ==> Parse(s, defaults)[0].text != "" && Parse(s, defaults)[0].text[0] == s[0]
  {
  }

  /** Parsing what a canonical list renders to gives the list back: parsing is a bijection. */
  lemma {:induction false} ParseRender(segments: seq<Segment>, defaults: Defaults)
    requires Canonical(segments, defaults)
    ensures Parse(Render(segments), defaults) == segments
  {
    if segments != [] {
      var head, rest := segments[0], segments[1..];
      assert head in segments;
      TailCanonical(segments, defaults);
      ParseRender(rest, defaults);
      RenderHead(rest);
      assert rest != [] ==> MayFollow(head, rest[0]) && rest[0] in segments;
      ParseOne(head, Render(rest), defaults);
      assert segments == [head] + rest;
    }
  }

  lemma TailCanonical(segments: seq<Segment>, defaults: Defaults)
    requires segments != [] && Canonical(segments, defaults)
    ensures Canonical(segments[1..], defaults)
  {
    hide CanonicalOne, MayFollow;
    var rest := segments[1..];
    forall i | 0 <= i < |rest| - 1 ensures MayFollow(rest[i], rest[i + 1]) {
      assert MayFollow(segments[i + 1], segments[i + 1 + 1]);
    }
  }

  lemma RenderHead(segments: seq<Segment>)
    ensures segments == [] ==> Render(segments) == ""
    ensures segments != [] && !segments[0].Literal? ==> Render(segments) != "" && IsMarker(Render(segments)[0])
    ensures segments != [] && segments[0].Literal? && segments[0].text != "" ==>
              Render(segments) != "" && Render(segments)[0] == segments[0].text[0]
  {
  }

  lemma ParseOne(head: Segment, rest: string, defaults: Defaults)
    requires CanonicalOne(head, defaults)
    requires head.Literal? ==> rest == "" || IsMarker(rest[0])
    requires !head.Literal? ==> rest == "" || !IsNameChar(rest[0])
    ensures Parse(RenderOne(head) + rest, defaults) == [head] + Parse(rest, defaults)
  {
    if head.Literal? {
      ParseLiteral(head.text, rest, defaults);
    } else {
      ParseName(if head.Param? then ':' else '*', head.name, rest, defaults);
    }
  }

  /** A canonical list is what its own rendering parses to, exactly when no literal holds a parenthesis:
      names cannot hold one, and a spec with one is refused or loses its suffix. */
  lemma SegmentsOfRendered(segments: seq<Segment>, defaults: Defaults)
    requires Canonical(segments, defaults)
    ensures SegmentsOf(Render(segments), defaults) == Ok(segments) <==> NoGroups(segments)
  {
    hide Parse, Canonical;
    var text := Render(segments);
    RenderedGroups(segments, defaults);
    ParseRender(segments, defaults);
    RenderParse(StripFormat(text), defaults);
    FormatIsGroup(text);
  }

  ghost predicate NoGroups(segments: seq<Segment>) {
    forall segment | segment in segments && segment.Literal? :: '(' !in segment.text
  }

  lemma FormatIsGroup(text: string)
    ensures StripFormat(text) != text ==> '(' in text && |StripFormat(text)| < |text|
  {
    if StripFormat(text) != text {
      var suffix := text[|text| - |FORMAT_SUFFIX|..];
      assert suffix[0] == '(' && text[|text| - |FORMAT_SUFFIX|] == suffix[0];
    }
  }

  lemma {:induction false} RenderedGroups(segments: seq<Segment>, defaults: Defaults)
    requires Canonical(segments, defaults)
    ensures '(' !in Render(segments) <==> NoGroups(segments)
  {
    if segments != [] {
      var head, rest := segments[0], segments[1..];
      TailCanonical(segments, defaults);
      RenderedGroups(rest, defaults);
      assert segments == [head] + rest && CanonicalOne(head, defaults);
      assert '(' in RenderOne(head) <==> head.Literal? && '(' in head.text;
    }
  }

  /** The whole of `segments`, for any spec and any canonical list: an accepted spec renders back up to its
      format suffix, what it yields is canonical, and it yields a list exactly when it is, up to that
      suffix, what the list renders to. */
  lemma SegmentsBijection(spec: string, segments: seq<Segment>, defaults: Defaults)
    ensures SegmentsOf(spec, defaults).Err? <==> '(' in StripFormat(spec)
    ensures SegmentsOf(spec, defaults).Ok? ==>
              var r := SegmentsOf(spec, defaults).value; Render(r) == StripFormat(spec) && Canonical(r, defaults) && NoGroups(r)
    ensures Canonical(segments, defaults) && NoGroups(segments) ==>
              (SegmentsOf(spec, defaults) == Ok(segments) <==> StripFormat(spec) == Render(segments))
  {
    var text := StripFormat(spec);
    RenderParse(text, defaults);
    ParseCanonical(text, defaults);
    RenderedGroups(Parse(text, defaults), defaults);
    if Canonical(segments, defaults) {
      ParseRender(segments, defaults);
      RenderedGroups(segments, defaults);
    }
  }

  // ---------------------------------------------------------------------------------------------
  // The pieces by themselves
  // ---------------------------------------------------------------------------------------------

  /** A name is made of the 26 letters in both cases, the ten digits and the underscore, by their codes. */
  lemma NameCharsExactly(c: char)
    ensures IsNameChar(c) <==> 97 <= c as int < 97 + 26 || 65 <= c as int < 65 + 26 || 48 <= c as int < 48 + 10 || c as int == 95
    ensures IsMarker(c) <==> c as int == 58 || c as int == 42
  {
  }

  /** The format suffix is dropped, once, where a spec ends in it. */
  lemma StripExactly(spec: string)
    ensures StripFormat(spec + "(.:format)") == spec
    ensures (forall front :: spec != front + "(.:format)") ==> StripFormat(spec) == spec
  {
    var whole, suffix := spec + "(.:format)", "(.:format)";
    assert whole[|whole| - |suffix|..] == suffix && whole[..|whole| - |suffix|] == spec;
    if |spec| >= |suffix| && spec[|spec| - |suffix|..] == suffix {
      assert spec == spec[..|spec| - |suffix|] + suffix;
    }
  }

  /** A parameter's default is the first one given for its name. */
  lemma {:induction false} DefaultExactly(defaults: Defaults, name: string, value: string)
    ensures DefaultFor(defaults, name) == Some(value) <==>
            exists i | 0 <= i < |defaults| :: defaults[i] == (name, value) && forall j | 0 <= j < i :: defaults[j].0 != name
    ensures DefaultFor(defaults, name).None? <==> forall i | 0 <= i < |defaults| :: defaults[i].0 != name
  {
    if defaults != [] {
      var rest := defaults[1..];
      DefaultExactly(rest, name, value);
      assert forall i | 0 <= i < |rest| :: rest[i] == defaults[i + 1];
      if defaults[0].0 != name && DefaultFor(rest, name) == Some(value) {
        var i :| 0 <= i < |rest| && rest[i] == (name, value) && forall j | 0 <= j < i :: rest[j].0 != name;
        assert defaults[i + 1] == (name, value) && forall j | 0 <= j < i + 1 :: defaults[j].0 != name;
      }
      if i :| 0 <= i < |defaults| && defaults[i] == (name, value) && forall j | 0 <= j < i :: defaults[j].0 != name {
        if i > 0 {
          assert rest[i - 1] == (name, value) && forall j | 0 <= j < i - 1 :: rest[j].0 != name;
        }
      }
    }
  }
}
