/**
  Escaping and well-formedness of the SVG emitter (`lib/emit-svg.js`).

  A line of the emitter is a row of tags, closing tags and text. `Render` escapes
  every attribute value and text; `Print` escapes what the emitter does, scene
  text, and agrees with it as long as the other values are plain.
 */
module SvgText {
  import opened Prelude

  // ----- Escaping ---------------------------------------------------------------------------------

  /** `s.replace(/c/g, by)`. */
  function ReplaceAll(s: string, c: char, replacement: string): string {
    if s == "" then "" else (if s[0] == c then replacement else [s[0]]) + ReplaceAll(s[1..], c, replacement)
  }

  /** The four passes, ampersand first. */
  function Escape(s: string): string {
    ReplaceAll(ReplaceAll(ReplaceAll(ReplaceAll(s, '&', "&amp;"), '<', "&lt;"), '>', "&gt;"), '\"', "&quot;")
  }

  function Entity(c: char): string {
    match c
    case '&' => "&amp;"
    case '<' => "&lt;"
    case '>' => "&gt;"
    case '\"' => "&quot;"
    case _ => [c]
  }

  predicate IsMarkup(c: char) {
    c == '<' || c == '>' || c == '\"'
  }

  function EscapeEach(s: string): string {
    if s == "" then "" else Entity(s[0]) + EscapeEach(s[1..])
  }

  lemma Associates(a: string, b: string, c: string)
    ensures (a + b) + c == a + (b + c)
  {
  }

  lemma {:induction false} ReplaceDistributes(a: string, b: string, c: char, replacement: string)
    ensures ReplaceAll(a + b, c, replacement) == ReplaceAll(a, c, replacement) + ReplaceAll(b, c, replacement)
  {
    if a == "" {
      assert a + b == b;
    } else {
      var first := if a[0] == c then replacement else [a[0]];
      ReplaceDistributes(a[1..], b, c, replacement);
      assert (a + b)[1..] == a[1..] + b;
      Associates(first, ReplaceAll(a[1..], c, replacement), ReplaceAll(b, c, replacement));
    }
  }

  lemma {:induction false} ReplaceNothing(s: string, c: char, replacement: string)
    requires c !in s
    ensures ReplaceAll(s, c, replacement) == s
  {
    if s != "" {
      ReplaceNothing(s[1..], c, replacement);
      assert s == [s[0]] + s[1..];
    }
  }

  lemma EscapeDistributes(a: string, b: string)
    ensures Escape(a + b) == Escape(a) + Escape(b)
  {
    ReplaceDistributes(a, b, '&', "&amp;");
    var a1, b1 := ReplaceAll(a, '&', "&amp;"), ReplaceAll(b, '&', "&amp;");
    ReplaceDistributes(a1, b1, '<', "&lt;");
    var a2, b2 := ReplaceAll(a1, '<', "&lt;"), ReplaceAll(b1, '<', "&lt;");
    ReplaceDistributes(a2, b2, '>', "&gt;");
    var a3, b3 := ReplaceAll(a2, '>', "&gt;"), ReplaceAll(b2, '>', "&gt;");
    ReplaceDistributes(a3, b3, '\"', "&quot;");
  }

  lemma EntityHasNoMarkup(c: char, target: char)
    requires IsMarkup(target)
    ensures target in Entity(c) ==> Entity(c) == [c] && c == target
  {
  }

  lemma LaterPass(c: char, s: string, target: char)
    requires IsMarkup(target) && (s == [c] || s == Entity(c))
    ensures ReplaceAll(s, target, Entity(target)) == if c == target then Entity(c) else s
  {
    if s == [c] {
      Pass(c, target, Entity(target));
    } else {
      EntityHasNoMarkup(c, target);
      ReplaceNothing(s, target, Entity(target));
    }
  }

  /** One character goes through the four passes: none of them touches what an earlier one wrote. */
  lemma EscapeOne(c: char)
    ensures Escape([c]) == Entity(c)
  {
    Pass(c, '&', Entity('&'));
    var s1 := ReplaceAll([c], '&', Entity('&'));
    LaterPass(c, s1, '<');
    var s2 := ReplaceAll(s1, '<', Entity('<'));
    LaterPass(c, s2, '>');
    var s3 := ReplaceAll(s2, '>', Entity('>'));
    LaterPass(c, s3, '\"');
  }

  lemma Pass(c: char, target: char, replacement: string)
    ensures ReplaceAll([c], target, replacement) == if c == target then replacement else [c]
  {
    assert [c][1..] == "";
  }

  /** Four passes over the text are one substitution per character. */
  lemma {:induction false} PassesAreOneSubstitution(s: string)
    ensures Escape(s) == EscapeEach(s)
  {
    if s != "" {
      assert s == [s[0]] + s[1..];
      EscapeDistributes([s[0]], s[1..]);
      EscapeOne(s[0]);
      PassesAreOneSubstitution(s[1..]);
    }
  }

  /** Escaped text holds no quote and no angle bracket. */
  lemma {:induction false} NothingRaw(s: string)
    ensures forall c :: c in Escape(s) ==> !IsMarkup(c)
  {
    PassesAreOneSubstitution(s);
    if s != "" {
      NothingRaw(s[1..]);
      PassesAreOneSubstitution(s[1..]);
    }
  }

  predicate IsPlain(s: string) {
    forall i :: 0 <= i < |s| ==> s[i] != '&' && !IsMarkup(s[i])
  }

  /** Escaping changes nothing in numbers, colours and other text without the four characters. */
  lemma {:induction false} PlainStays(s: string)
    requires IsPlain(s)
    ensures Escape(s) == s
  {
    PassesAreOneSubstitution(s);
    if s != "" {
      PlainStays(s[1..]);
      PassesAreOneSubstitution(s[1..]);
      assert s == [s[0]] + s[1..];
    }
  }

  /** Reading entities back, as an SVG reader does. */
  function Unescape(s: string): string {
    if s == "" then ""
    else if "&amp;" <= s then "&" + Unescape(s[5..])
    else if "&lt;" <= s then "<" + Unescape(s[4..])
    else if "&gt;" <= s then ">" + Unescape(s[4..])
    else if "&quot;" <= s then "\"" + Unescape(s[6..])
    else [s[0]] + Unescape(s[1..])
  }

  lemma ReadsEntity(c: char, rest: string)
    ensures Unescape(Entity(c) + rest) == [c] + Unescape(rest)
  {
    var s := Entity(c) + rest;
    if c == '&' {
      assert s[5..] == rest;
    } else if c == '<' {
      assert s[1] == 'l' && s[4..] == rest;
    } else if c == '>' {
      assert s[1] == 'g' && s[4..] == rest;
    } else if c == '\"' {
      assert s[1] == 'q' && s[6..] == rest;
    } else {
      assert s[0] == c && s[1..] == rest;
    }
  }

  /** Nothing is lost: reading the escaped text gives the text. */
  lemma {:induction false} UnescapeEscape(s: string)
    ensures Unescape(Escape(s)) == s
  {
    PassesAreOneSubstitution(s);
    if s != "" {
      UnescapeEscape(s[1..]);
      PassesAreOneSubstitution(s[1..]);
      ReadsEntity(s[0], EscapeEach(s[1..]));
      assert s == [s[0]] + s[1..];
    }
  }

  // ----- Lines ------------------------------------------------------------------------------------

  predicate IsNameCharacter(c: char) {
    'a' <= c <= 'z' || 'A' <= c <= 'Z' || '0' <= c <= '9' || c == '-'
  }

  predicate IsName(s: string) {
    s != "" && forall i :: 0 <= i < |s| ==> IsNameCharacter(s[i])
  }

  type Name = s: string | IsName(s) witness "a"

  datatype Attribute = Attribute(name: Name, value: string)

  datatype Piece =
    | Tag(name: Name, attributes: seq<Attribute>, selfClosing: bool)
    | Close(name: Name)
    | Text(text: string)

  function RenderAttribute(name: string, escaped: string): string {
    " " + (name + ("=\"" + (escaped + "\"")))
  }

  function RenderAttributes(attributes: seq<Attribute>): string {
    if attributes == [] then ""
    else RenderAttribute(attributes[0].name, Escape(attributes[0].value)) + RenderAttributes(attributes[1..])
  }

  function TagEnd(selfClosing: bool): string {
    if selfClosing then "/>" else ">"
  }

  function RenderTag(name: string, attributes: string, selfClosing: bool): string {
    "<" + (name + (attributes + TagEnd(selfClosing)))
  }

  function RenderPiece(piece: Piece): string {
    match piece
    case Tag(name, attributes, selfClosing) => RenderTag(name, RenderAttributes(attributes), selfClosing)
    case Close(name) => "</" + (name + ">")
    case Text(text) => Escape(text)
  }

  function Render(line: seq<Piece>): string {
    if line == [] then "" else RenderPiece(line[0]) + Render(line[1..])
  }

  // ----- The guard --------------------------------------------------------------------------------

  function Quotes(s: string): nat {
    if s == "" then 0 else (if s[0] == '\"' then 1 else 0) + Quotes(s[1..])
  }

  predicate Balanced(line: string) {
    ("<" <= line) ==> Quotes(line) % 2 == 0
  }

  /** `assertWellFormed`: the first line that fails, if there is one. */
  method AssertWellFormed(lines: seq<string>) returns (bad: Option<nat>)
    ensures bad.None? ==> forall i :: 0 <= i < |lines| ==> Balanced(lines[i])
    ensures bad.Some? ==> bad.value < |lines| && !Balanced(lines[bad.value])
                          && forall i :: 0 <= i < bad.value ==> Balanced(lines[i])
  {
    var i: nat := 0;
    while i < |lines|
      invariant i <= |lines|
      invariant forall k :: 0 <= k < i ==> Balanced(lines[k])
    {
      if "<" <= lines[i] && Quotes(lines[i]) % 2 != 0 {
        return Some(i);
      }
      i := i + 1;
    }
    bad := None;
  }

  lemma {:induction false} QuotesAdd(a: string, b: string)
    ensures Quotes(a + b) == Quotes(a) + Quotes(b)
  {
    if a == "" {
      assert a + b == b;
    } else {
      QuotesAdd(a[1..], b);
      assert (a + b)[1..] == a[1..] + b;
    }
  }

  lemma {:induction false} NoQuotes(s: string)
    requires '\"' !in s
    ensures Quotes(s) == 0
  {
    if s != "" {
      NoQuotes(s[1..]);
    }
  }

  lemma AttributeAddsTwoQuotes(name: Name, value: string)
    ensures Quotes(RenderAttribute(name, value)) == 2 + Quotes(value)
  {
    NoQuotes(name);
    QuotesAdd(value, "\"");
    QuotesAdd("=\"", value + "\"");
    QuotesAdd(name, "=\"" + (value + "\""));
    QuotesAdd(" ", name + ("=\"" + (value + "\"")));
  }

  lemma {:induction false} AttributesAreEven(attributes: seq<Attribute>)
    ensures Quotes(RenderAttributes(attributes)) % 2 == 0
  {
    if attributes != [] {
      var a := attributes[0];
      AttributesAreEven(attributes[1..]);
      NothingRaw(a.value);
      NoQuotes(Escape(a.value));
      AttributeAddsTwoQuotes(a.name, Escape(a.value));
      QuotesAdd(RenderAttribute(a.name, Escape(a.value)), RenderAttributes(attributes[1..]));
    }
  }

  lemma TagAddsNoQuotes(name: Name, attributes: string, selfClosing: bool)
    ensures Quotes(RenderTag(name, attributes, selfClosing)) == Quotes(attributes)
  {
    var end := TagEnd(selfClosing);
    NoQuotes(name);
    NoQuotes(end);
    QuotesAdd(attributes, end);
    QuotesAdd(name, attributes + end);
    QuotesAdd("<", name + (attributes + end));
  }

  lemma PieceIsEven(piece: Piece)
    ensures Quotes(RenderPiece(piece)) % 2 == 0
  {
    match piece
    case Tag(name, attributes, selfClosing) =>
      AttributesAreEven(attributes);
      TagAddsNoQuotes(name, RenderAttributes(attributes), selfClosing);
    case Close(name) =>
      NoQuotes("</" + (name + ">"));
    case Text(text) =>
      NothingRaw(text);
      NoQuotes(Escape(text));
  }

  /** Every line made of tags with escaped values and escaped text passes the guard. */
  lemma {:induction false} LinesPassTheGuard(line: seq<Piece>)
    ensures Quotes(Render(line)) % 2 == 0 && Balanced(Render(line))
  {
    if line != [] {
      LinesPassTheGuard(line[1..]);
      PieceIsEven(line[0]);
      EvenAdds(RenderPiece(line[0]), Render(line[1..]));
    }
  }

  lemma EvenAdds(a: string, b: string)
    requires Quotes(a) % 2 == 0 && Quotes(b) % 2 == 0
    ensures Quotes(a + b) % 2 == 0
  {
    QuotesAdd(a, b);
  }

  // ----- Reading a line back ----------------------------------------------------------------------

  function NameLength(s: string): (n: nat)
    ensures n <= |s| && forall i :: 0 <= i < n ==> IsNameCharacter(s[i])
  {
    if s != "" && IsNameCharacter(s[0]) then 1 + NameLength(s[1..]) else 0
  }

  /** The length of the part before the first `stop`. */
  function LengthTo(s: string, stop: char): (n: nat)
    ensures n <= |s|
  {
    if s == "" || s[0] == stop then 0 else 1 + LengthTo(s[1..], stop)
  }

  /** The rest of `s` after `token`, if it starts so. */
  function Skip(s: string, token: string): (r: Option<string>)
    ensures r.Some? ==> |r.value| + |token| == |s|
  {
    if token <= s then Some(s[|token|..]) else None
  }

  function ParseName(s: string): (r: Option<(Name, string)>)
    ensures r.Some? ==> |r.value.1| < |s|
  {
    var n := NameLength(s);
    if n == 0 then None else Some((s[..n], s[n..]))
  }

  /** Up to the closing quote, and past it. */
  function ParseValue(s: string): (r: Option<(string, string)>)
    ensures r.Some? ==> |r.value.1| < |s|
  {
    var n := LengthTo(s, '\"');
    if n == |s| then None else Some((s[..n], s[n + 1..]))
  }

  /** Past the opening space. */
  function ParseAttribute(s: string): (r: Option<(Attribute, string)>)
    ensures r.Some? ==> |r.value.1| < |s|
  {
    var name := ParseName(s);
    if name.None? then None
    else
      var equals := Skip(name.value.1, "=\"");
      if equals.None? then None
      else
        var value := ParseValue(equals.value);
        if value.None? then None else Some((Attribute(name.value.0, Unescape(value.value.0)), value.value.1))
  }

  function ParseAttributes(s: string): (r: Option<(seq<Attribute>, string)>)
    ensures r.Some? ==> |r.value.1| <= |s|
    decreases |s|
  {
    var space := Skip(s, " ");
    if space.None? then Some(([], s))
    else
      var first := ParseAttribute(space.value);
      if first.None? then None
      else
        var rest := ParseAttributes(first.value.1);
        if rest.None? then None else Some(([first.value.0] + rest.value.0, rest.value.1))
  }

  /** Past the opening bracket of a tag. */
  function ParseTag(s: string): (r: Option<(Piece, string)>)
    ensures r.Some? ==> |r.value.1| <= |s|
  {
    var name := ParseName(s);
    if name.None? then None
    else
      var attributes := ParseAttributes(name.value.1);
      if attributes.None? then None
      else
        var end := attributes.value.1;
        if Skip(end, "/>").Some? then Some((Tag(name.value.0, attributes.value.0, true), Skip(end, "/>").value))
        else if Skip(end, ">").Some? then Some((Tag(name.value.0, attributes.value.0, false), Skip(end, ">").value))
        else None
  }

  /** Past the `</`. */
  function ParseClose(s: string): (r: Option<(Piece, string)>)
    ensures r.Some? ==> |r.value.1| <= |s|
  {
    var name := ParseName(s);
    if name.None? then None
    else
      var end := Skip(name.value.1, ">");
      if end.None? then None else Some((Close(name.value.0), end.value))
  }

  function ParsePiece(s: string): (r: Option<(Piece, string)>)
    requires s != ""
    ensures r.Some? ==> |r.value.1| < |s|
  {
    if Skip(s, "</").Some? then ParseClose(Skip(s, "</").value)
    else if Skip(s, "<").Some? then ParseTag(Skip(s, "<").value)
    else
      var n := LengthTo(s, '<');
      Some((Text(Unescape(s[..n])), s[n..]))
  }

  function Parse(s: string): Option<seq<Piece>>
    decreases |s|
  {
    if s == "" then Some([])
    else
      var first := ParsePiece(s);
      if first.None? then None
      else
        var rest := Parse(first.value.1);
        if rest.None? then None else Some([first.value.0] + rest.value)
  }

  lemma {:induction false} NameComesBack(name: string, rest: string)
    requires forall i :: 0 <= i < |name| ==> IsNameCharacter(name[i])
    requires rest != "" ==> !IsNameCharacter(rest[0])
    ensures NameLength(name + rest) == |name|
  {
    if name == "" {
      assert name + rest == rest;
    } else {
      NameComesBack(name[1..], rest);
      assert (name + rest)[1..] == name[1..] + rest;
    }
  }

  lemma {:induction false} StopsThere(part: string, stop: char, rest: string)
    requires stop !in part && (rest != "" ==> rest[0] == stop)
    ensures LengthTo(part + rest, stop) == |part|
  {
    if part == "" {
      assert part + rest == rest;
    } else {
      StopsThere(part[1..], stop, rest);
      assert (part + rest)[1..] == part[1..] + rest;
    }
  }

  lemma SkipsToken(token: string, rest: string)
    ensures Skip(token + rest, token) == Some(rest)
  {
  }

  lemma SkipsNothing(s: string, c: char)
    requires s != "" ==> s[0] != c
    ensures Skip(s, [c]) == None
  {
  }

  lemma ParsesName(name: Name, rest: string)
    requires rest != "" ==> !IsNameCharacter(rest[0])
    ensures ParseName(name + rest) == Some((name, rest))
  {
    NameComesBack(name, rest);
  }

  lemma ParsesValue(escaped: string, rest: string)
    requires '\"' !in escaped
    ensures ParseValue(escaped + ("\"" + rest)) == Some((escaped, rest))
  {
    var tail := "\"" + rest;
    StopsThere(escaped, '\"', tail);
    assert (escaped + tail)[..|escaped|] == escaped;
    assert (escaped + tail)[|escaped| + 1..] == rest;
  }

  lemma ParsesAttribute(name: Name, escaped: string, rest: string)
    requires '\"' !in escaped
    ensures ParseAttribute(name + ("=\"" + (escaped + ("\"" + rest)))) == Some((Attribute(name, Unescape(escaped)), rest))
  {
    var value := escaped + ("\"" + rest);
    ParsesName(name, "=\"" + value);
    SkipsToken("=\"", value);
    ParsesValue(escaped, rest);
  }

  lemma AttributeIsSpaced(name: string, escaped: string, rest: string)
    ensures RenderAttribute(name, escaped) + rest == " " + (name + ("=\"" + (escaped + ("\"" + rest))))
  {
    Associates(escaped, "\"", rest);
    Associates("=\"", escaped + "\"", rest);
    Associates(name, "=\"" + (escaped + "\""), rest);
    Associates(" ", name + ("=\"" + (escaped + "\"")), rest);
  }

  lemma {:induction false} AttributesComeBack(attributes: seq<Attribute>, rest: string)
    requires rest != "" ==> rest[0] != ' '
    ensures ParseAttributes(RenderAttributes(attributes) + rest) == Some((attributes, rest))
  {
    if attributes == [] {
      assert RenderAttributes(attributes) + rest == rest;
      SkipsNothing(rest, ' ');
    } else {
      var a, more := attributes[0], RenderAttributes(attributes[1..]) + rest;
      AttributesComeBack(attributes[1..], rest);
      FirstAttributeComesBack(a, more);
      Associates(RenderAttribute(a.name, Escape(a.value)), RenderAttributes(attributes[1..]), rest);
      assert attributes == [a] + attributes[1..];
    }
  }

  lemma FirstAttributeComesBack(a: Attribute, more: string)
    requires ParseAttributes(more).Some?
    ensures ParseAttributes(RenderAttribute(a.name, Escape(a.value)) + more)
         == Some(([a] + ParseAttributes(more).value.0, ParseAttributes(more).value.1))
  {
    var escaped := Escape(a.value);
    NothingRaw(a.value);
    UnescapeEscape(a.value);
    AttributeIsSpaced(a.name, escaped, more);
    var body := a.name + ("=\"" + (escaped + ("\"" + more)));
    SkipsToken(" ", body);
    ParsesAttribute(a.name, escaped, more);
  }

  /** Text is not empty, and no two texts touch. */
  predicate IsLine(line: seq<Piece>) {
    && (forall i :: 0 <= i < |line| && line[i].Text? ==> line[i].text != "")
    && (forall i :: 0 < i < |line| ==> !(line[i - 1].Text? && line[i].Text?))
  }

  lemma PieceStart(piece: Piece)
    requires piece.Text? ==> piece.text != ""
    ensures RenderPiece(piece) != "" && (RenderPiece(piece)[0] == '<' <==> !piece.Text?)
  {
    if piece.Text? {
      NothingRaw(piece.text);
      UnescapeEscape(piece.text);
      assert Escape(piece.text) != "";
      assert Escape(piece.text)[0] in Escape(piece.text);
    }
  }

  lemma TagEnds(selfClosing: bool, rest: string)
    ensures selfClosing ==> Skip(TagEnd(selfClosing) + rest, "/>") == Some(rest)
    ensures !selfClosing ==> Skip(TagEnd(selfClosing) + rest, "/>") == None && Skip(TagEnd(selfClosing) + rest, ">") == Some(rest)
  {
    SkipsToken(TagEnd(selfClosing), rest);
    if !selfClosing {
      assert (">" + rest)[0] == '>';
    }
  }

  lemma TagComesBack(name: Name, body: string, attributes: seq<Attribute>, selfClosing: bool, rest: string)
    requires ParseAttributes(body) == Some((attributes, TagEnd(selfClosing) + rest))
    requires body != "" ==> !IsNameCharacter(body[0])
    ensures ParseTag(name + body) == Some((Tag(name, attributes, selfClosing), rest))
  {
    ParsesName(name, body);
    TagEnds(selfClosing, rest);
  }

  lemma RenderedTag(name: string, rendered: string, selfClosing: bool, rest: string)
    ensures RenderTag(name, rendered, selfClosing) + rest == "<" + (name + (rendered + (TagEnd(selfClosing) + rest)))
  {
    Associates(rendered, TagEnd(selfClosing), rest);
    Associates(name, rendered + TagEnd(selfClosing), rest);
    Associates("<", name + (rendered + TagEnd(selfClosing)), rest);
  }

  lemma TagPieceComesBack(name: Name, attributes: seq<Attribute>, selfClosing: bool, rest: string)
    ensures ParsePiece(RenderPiece(Tag(name, attributes, selfClosing)) + rest) == Some((Tag(name, attributes, selfClosing), rest))
  {
    var rendered, end := RenderAttributes(attributes), TagEnd(selfClosing) + rest;
    AttributesComeBack(attributes, end);
    TagComesBack(name, rendered + end, attributes, selfClosing, rest);
    RenderedTag(name, rendered, selfClosing, rest);
    OpensTag(name, rendered + end);
  }

  lemma OpensTag(name: Name, rest: string)
    ensures ParsePiece("<" + (name + rest)) == ParseTag(name + rest)
  {
    var s := "<" + (name + rest);
    SkipsToken("<", name + rest);
    assert s[1] == name[0] && name[0] != '/';
  }

  lemma CloseComesBack(name: Name, rest: string)
    ensures ParsePiece(RenderPiece(Close(name)) + rest) == Some((Close(name), rest))
  {
    Associates(name, ">", rest);
    Associates("</", name + ">", rest);
    SkipsToken("</", name + (">" + rest));
    ParsesName(name, ">" + rest);
    SkipsToken(">", rest);
  }

  lemma TextComesBack(text: string, rest: string)
    requires text != "" && (rest != "" ==> rest[0] == '<')
    ensures ParsePiece(RenderPiece(Text(text)) + rest) == Some((Text(text), rest))
  {
    PieceStart(Text(text));
    NothingRaw(text);
    UnescapeEscape(text);
    StopsThere(Escape(text), '<', rest);
    TextParses(Escape(text), rest);
  }

  lemma TextParses(escaped: string, rest: string)
    requires escaped != "" && escaped[0] != '<' && LengthTo(escaped + rest, '<') == |escaped|
    ensures ParsePiece(escaped + rest) == Some((Text(Unescape(escaped)), rest))
  {
    SkipsNothing(escaped + rest, '<');
    assert (escaped + rest)[..|escaped|] == escaped && (escaped + rest)[|escaped|..] == rest;
  }

  /** A reader gets back every tag, every attribute with its value, and every text, exactly. */
  lemma {:induction false} ParseRender(line: seq<Piece>)
    requires IsLine(line)
    ensures Parse(Render(line)) == Some(line)
  {
    if line != [] {
      var rest := Render(line[1..]);
      ParseRender(line[1..]);
      PieceStart(line[0]);
      if |line| > 1 {
        PieceStart(line[1]);
        assert rest == RenderPiece(line[1]) + Render(line[1..][1..]);
      }
      match line[0] {
        case Tag(name, attributes, selfClosing) => TagPieceComesBack(name, attributes, selfClosing, rest);
        case Close(name) => CloseComesBack(name, rest);
        case Text(text) => TextComesBack(text, rest);
      }
      assert line == [line[0]] + line[1..];
    }
  }

  // ----- What the emitter prints ------------------------------------------------------------------

  /** The one attribute whose value is scene text. */
  const ESCAPED_ATTRIBUTE: Name := "aria-label"

  /** Every other attribute value needs no escaping. */
  predicate AllSafe(attributes: seq<Attribute>) {
    attributes == []
    || ((attributes[0].name == ESCAPED_ATTRIBUTE || IsPlain(attributes[0].value)) && AllSafe(attributes[1..]))
  }

  predicate IsSafe(line: seq<Piece>) {
    line == [] || ((line[0].Tag? ==> AllSafe(line[0].attributes)) && IsSafe(line[1..]))
  }

  function PrintAttributes(attributes: seq<Attribute>): string {
    if attributes == [] then ""
    else
      var a := attributes[0];
      RenderAttribute(a.name, if a.name == ESCAPED_ATTRIBUTE then Escape(a.value) else a.value)
      + PrintAttributes(attributes[1..])
  }

  function PrintPiece(piece: Piece): string {
    if piece.Tag? then RenderTag(piece.name, PrintAttributes(piece.attributes), piece.selfClosing) else RenderPiece(piece)
  }

  function Print(line: seq<Piece>): string {
    if line == [] then "" else PrintPiece(line[0]) + Print(line[1..])
  }

  lemma {:induction false} AttributesPrintAsRendered(attributes: seq<Attribute>)
    requires AllSafe(attributes)
    ensures PrintAttributes(attributes) == RenderAttributes(attributes)
  {
    if attributes != [] {
      AttributesPrintAsRendered(attributes[1..]);
      if attributes[0].name != ESCAPED_ATTRIBUTE {
        PlainStays(attributes[0].value);
      }
    }
  }

  lemma {:induction false} PrintsAsRendered(line: seq<Piece>)
    requires IsSafe(line)
    ensures Print(line) == Render(line)
  {
    if line != [] {
      PrintsAsRendered(line[1..]);
      if line[0].Tag? {
        AttributesPrintAsRendered(line[0].attributes);
      }
    }
  }

  /** The quotes in the values that are printed as they stand. */
  function RawQuotes(attributes: seq<Attribute>): nat {
    if attributes == [] then 0
    else (if attributes[0].name == ESCAPED_ATTRIBUTE then 0 else Quotes(attributes[0].value)) + RawQuotes(attributes[1..])
  }

  function LineRawQuotes(line: seq<Piece>): nat {
    if line == [] then 0 else (if line[0].Tag? then RawQuotes(line[0].attributes) else 0) + LineRawQuotes(line[1..])
  }

  /** It starts with a tag, and its raw values hold an odd number of quotes in all. */
  predicate IsOdd(line: seq<Piece>) {
    line != [] && !line[0].Text? && LineRawQuotes(line) % 2 == 1
  }

  predicate SameParity(a: nat, b: nat) {
    a % 2 == b % 2
  }

  lemma ParityAdds(a: nat, b: nat, a': nat, b': nat)
    requires SameParity(a, a') && SameParity(b, b')
    ensures SameParity(a + b, a' + b')
  {
  }

  lemma {:induction false} PrintedAttributesKeepParity(attributes: seq<Attribute>)
    ensures SameParity(Quotes(PrintAttributes(attributes)), RawQuotes(attributes))
  {
    if attributes != [] {
      var a := attributes[0];
      var value := if a.name == ESCAPED_ATTRIBUTE then Escape(a.value) else a.value;
      var raw := if a.name == ESCAPED_ATTRIBUTE then 0 else Quotes(a.value);
      PrintedAttributesKeepParity(attributes[1..]);
      NothingRaw(a.value);
      if a.name == ESCAPED_ATTRIBUTE {
        NoQuotes(value);
      }
      AttributeAddsTwoQuotes(a.name, value);
      QuotesAdd(RenderAttribute(a.name, value), PrintAttributes(attributes[1..]));
      ParityAdds(Quotes(RenderAttribute(a.name, value)), Quotes(PrintAttributes(attributes[1..])), raw, RawQuotes(attributes[1..]));
    }
  }

  lemma {:induction false} PrintedLineKeepsParity(line: seq<Piece>)
    ensures SameParity(Quotes(Print(line)), LineRawQuotes(line))
  {
    if line != [] {
      var piece := line[0];
      PrintedLineKeepsParity(line[1..]);
      if piece.Tag? {
        PrintedAttributesKeepParity(piece.attributes);
        TagAddsNoQuotes(piece.name, PrintAttributes(piece.attributes), piece.selfClosing);
      } else {
        PieceIsEven(piece);
      }
      QuotesAdd(PrintPiece(piece), Print(line[1..]));
      ParityAdds(Quotes(PrintPiece(piece)), Quotes(Print(line[1..])),
                 if piece.Tag? then RawQuotes(piece.attributes) else 0, LineRawQuotes(line[1..]));
    }
  }

  /** Of any values at all, the guard refuses exactly the lines whose raw values hold an odd number of quotes. */
  lemma GuardCountsRawQuotes(line: seq<Piece>)
    requires IsLine(line)
    ensures Balanced(Print(line)) <==> !IsOdd(line)
  {
    PrintedLineKeepsParity(line);
    if line != [] {
      PieceStart(line[0]);
      assert Print(line) == PrintPiece(line[0]) + Print(line[1..]);
      assert PrintPiece(line[0]) != "" && (PrintPiece(line[0])[0] == '<' <==> !line[0].Text?);
      assert Print(line)[0] == PrintPiece(line[0])[0];
    }
  }

  lemma LastAttribute(body: string, a: Attribute, rest: string)
    requires ParseAttribute(body) == Some((a, rest)) && (rest != "" ==> rest[0] != ' ')
    ensures ParseAttributes(" " + body) == Some(([a], rest))
  {
    SkipsToken(" ", body);
    SkipsNothing(rest, ' ');
    assert [a] + [] == [a];
  }

  /** A raw value ends, for a reader, at its first quote. */
  lemma ValueEndsAtQuote(name: Name, before: string, after: string, end: string)
    requires '\"' !in before && after != "" && after[0] != ' '
    ensures ParseAttributes(RenderAttribute(name, before + ("\"" + after)) + end)
         == Some(([Attribute(name, Unescape(before))], after + ("\"" + end)))
  {
    var rest := after + ("\"" + end);
    AttributeIsSpaced(name, before + ("\"" + after), end);
    Associates(before, "\"" + after, "\"" + end);
    Associates("\"", after, "\"" + end);
    ParsesAttribute(name, before, rest);
    LastAttribute(name + ("=\"" + (before + ("\"" + rest))), Attribute(name, Unescape(before)), rest);
  }

  function OneAttribute(tag: Name, name: Name, value: string): seq<Piece> {
    [Tag(tag, [Attribute(name, value)], true)]
  }

  lemma OneAttributePrints(tag: Name, name: Name, value: string)
    requires name != ESCAPED_ATTRIBUTE
    ensures Print(OneAttribute(tag, name, value)) == RenderTag(tag, RenderAttribute(name, value), true)
    ensures LineRawQuotes(OneAttribute(tag, name, value)) == Quotes(value)
  {
    var attributes, line := [Attribute(name, value)], OneAttribute(tag, name, value);
    var rendered := RenderAttribute(name, value);
    assert attributes[1..] == [] && line[1..] == [];
    assert PrintAttributes(attributes) == rendered + "" == rendered;
    assert Print(line) == PrintPiece(line[0]) + "" == RenderTag(tag, rendered, true);
    assert RawQuotes(attributes) == Quotes(value) + RawQuotes(attributes[1..]) == Quotes(value);
    assert LineRawQuotes(line) == RawQuotes(line[0].attributes) + LineRawQuotes(line[1..]);
  }

  lemma OneAttributePasses(tag: Name, name: Name, value: string)
    requires name != ESCAPED_ATTRIBUTE && Quotes(value) % 2 == 0
    ensures Balanced(Print(OneAttribute(tag, name, value)))
  {
    OneAttributePrints(tag, name, value);
    GuardCountsRawQuotes(OneAttribute(tag, name, value));
  }

  lemma NoTagEnd(tag: Name, body: string, attributes: seq<Attribute>, rest: string)
    requires ParseAttributes(body) == Some((attributes, rest)) && body != "" && body[0] == ' '
    requires rest != "" && rest[0] != '/' && rest[0] != '>'
    ensures ParseTag(tag + body) == None
  {
    ParsesName(tag, body);
  }

  lemma UnreadableTag(tag: Name, body: string)
    requires ParseTag(tag + body) == None
    ensures Parse("<" + (tag + body)) == None
  {
    OpensTag(tag, body);
  }

  lemma RawQuoteIsUnreadable(tag: Name, name: Name, before: string, after: string)
    requires '\"' !in before && after != "" && after[0] != ' ' && after[0] != '/' && after[0] != '>'
    ensures Parse(RenderTag(tag, RenderAttribute(name, before + ("\"" + after)), true)) == None
  {
    var rendered, end := RenderAttribute(name, before + ("\"" + after)), TagEnd(true);
    ValueEndsAtQuote(name, before, after, end);
    NoTagEnd(tag, rendered + end, [Attribute(name, Unescape(before))], after + ("\"" + end));
    UnreadableTag(tag, rendered + end);
  }

  lemma RawQuoteBreaksTheLine(tag: Name, name: Name, value: string, before: string, after: string)
    requires name != ESCAPED_ATTRIBUTE && value == before + ("\"" + after) && '\"' !in before
    requires after != "" && after[0] != ' ' && after[0] != '/' && after[0] != '>'
    ensures Parse(Print(OneAttribute(tag, name, value))) == None
  {
    OneAttributePrints(tag, name, value);
    RawQuoteIsUnreadable(tag, name, before, after);
  }

  /** Quotes in pairs get past the guard: these lines pass, and no reader accepts them. */
  lemma PairedQuotesPass(tag: Name, name: Name, value: string, before: string, after: string)
    requires name != ESCAPED_ATTRIBUTE && Quotes(value) % 2 == 0
    requires value == before + ("\"" + after) && '\"' !in before
    requires after != "" && after[0] != ' ' && after[0] != '/' && after[0] != '>'
    ensures Balanced(Print(OneAttribute(tag, name, value))) && Parse(Print(OneAttribute(tag, name, value))) == None
  {
    OneAttributePasses(tag, name, value);
    RawQuoteBreaksTheLine(tag, name, value, before, after);
  }

  /** Whatever the titles and captions say, a printed line passes the guard and reads back as what was meant. */
  lemma PrintedLinesAreSound(line: seq<Piece>)
    requires IsSafe(line) && IsLine(line)
    ensures Balanced(Print(line)) && Parse(Print(line)) == Some(line)
  {
    PrintsAsRendered(line);
    LinesPassTheGuard(line);
    ParseRender(line);
  }
}
