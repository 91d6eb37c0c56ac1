/**
  `emitSvg`: the lines it emits for a resolved scene and a theme, and what its guard finds in them.

  Numbers come printed by an arbitrary function into plain text; the theme's
  colours, like titles, captions and notes, are any text at all.
 */
module SvgScene {
  import opened Prelude
  import opened SvgText
  import Text

  /** Text without the four characters: numbers as they print, and constants. */
  type Plain = s: string | IsPlain(s) witness ""

  type Line = line: seq<Piece> | IsLine(line) witness []

  // ----- The scene --------------------------------------------------------------------------------

  datatype Tone = Tone(fill: string, stroke: string, text: string)

  /** Where a theme has a colour. */
  datatype Colour =
    | Page | Ink | InkMuted | FrameInk | Edge | EdgeAccent
    | FillOf(kind: string) | StrokeOf(kind: string) | TextOf(kind: string)

  datatype Theme = Theme(page: string, ink: string, inkMuted: string, frame: string, edge: string, edgeAccent: string,
                         kinds: map<string, Tone>, store: Tone) {
    /** An unknown kind is a store. */
    function ToneOf(kind: string): Tone {
      if kind in kinds then kinds[kind] else store
    }

    function Of(colour: Colour): string {
      match colour
      case Page => page
      case Ink => ink
      case InkMuted => inkMuted
      case FrameInk => frame
      case Edge => edge
      case EdgeAccent => edgeAccent
      case FillOf(kind) => ToneOf(kind).fill
      case StrokeOf(kind) => ToneOf(kind).stroke
      case TextOf(kind) => ToneOf(kind).text
    }

    ghost predicate IsQuoteFree() {
      forall colour :: '\"' !in Of(colour)
    }

    ghost predicate IsPlainTheme() {
      forall colour :: IsPlain(Of(colour))
    }
  }

  datatype Frame = Frame(x: real, y: real, w: real, h: real, caption: string)
  datatype Arrow = Arrow(points: seq<(real, real)>, accent: bool, dashed: bool, bidirectional: bool,
                         caption: string, captionX: real, captionY: real)
  datatype Box = Box(x: real, y: real, w: real, h: real, kind: string, caption: Option<string>, sub: string)
  datatype Align = AtStart | Centred | AtEnd
  datatype Note = Note(x: real, y: real, size: real, accent: bool, align: Align, text: string)
  datatype Scene = Scene(width: real, height: real, title: Option<string>, subtitle: string, frames: seq<Frame>,
                         edges: seq<Arrow>, nodes: seq<Box>, notes: seq<Note>)

  /** `String` of a text that may be absent. */
  function Written(text: Option<string>): string {
    if text.Some? then text.value else "undefined"
  }

  function Then(a: Plain, b: Plain): Plain {
    a + b
  }

  /** The font stacks, with single quotes around the names that have spaces. */
  const SYSTEM_FONTS: Plain := Then("ui-sans-serif, ", Then("-apple-system, ", Then("BlinkMacSystemFont, ", "'Segoe UI', ")))

  const SANS: Plain := Then(SYSTEM_FONTS, Then("Roboto, ", Then("Helvetica, ", Then("Arial, ", "sans-serif"))))

  const MONO: Plain :=
    Then("ui-monospace, ", Then("SFMono-Regular, ", Then("'SF Mono', ", Then("Menlo, ", Then("Consolas, ", "monospace")))))

  const XMLNS: Plain := Then("http://", Then("www.w3.org", "/2000/svg"))

  // ----- Rows -------------------------------------------------------------------------------------

  /** The attributes of a tag: constants and numbers, colours of the theme, and scene text under the one name that takes it. */
  datatype Fields =
    | NoMore
    | Attr(name: Name, value: Plain, rest: Fields)
    | Tint(name: Name, colour: Colour, rest: Fields)
    | AriaLabel(text: string, rest: Fields)

  /** The five kinds of lines the emitter writes. */
  datatype Row =
    | Opening(name: Name, fields: Fields)
    | Closing(name: Name)
    | Single(name: Name, fields: Fields)
    | Enclosed(name: Name, fields: Fields, text: string)
    | Around(name: Name, fields: Fields, inner: Name, innerFields: Fields)

  function InTheme(theme: Theme, fields: Fields): seq<Attribute> {
    match fields
    case NoMore => []
    case Attr(name, value, rest) => [Attribute(name, value)] + InTheme(theme, rest)
    case Tint(name, colour, rest) => [Attribute(name, theme.Of(colour))] + InTheme(theme, rest)
    case AriaLabel(text, rest) => [Attribute(ESCAPED_ATTRIBUTE, text)] + InTheme(theme, rest)
  }

  /** No text is no piece; either way it prints as its escaped text. */
  function Content(text: string): seq<Piece> {
    if text == "" then [] else [Text(text)]
  }

  function Pieces(theme: Theme, row: Row): Line {
    match row
    case Opening(name, fields) => [Tag(name, InTheme(theme, fields), false)]
    case Closing(name) => [Close(name)]
    case Single(name, fields) => [Tag(name, InTheme(theme, fields), true)]
    case Enclosed(name, fields, text) => [Tag(name, InTheme(theme, fields), false)] + Content(text) + [Close(name)]
    case Around(name, fields, inner, innerFields) =>
      [Tag(name, InTheme(theme, fields), false), Tag(inner, InTheme(theme, innerFields), true), Close(name)]
  }

  lemma {:induction false} PlainFieldsAreSafe(theme: Theme, fields: Fields)
    requires theme.IsPlainTheme()
    ensures AllSafe(InTheme(theme, fields))
  {
    if !fields.NoMore? {
      PlainFieldsAreSafe(theme, fields.rest);
      assert InTheme(theme, fields)[1..] == InTheme(theme, fields.rest);
    }
  }

  lemma {:induction false} QuoteFreeFieldsHaveNone(theme: Theme, fields: Fields)
    requires theme.IsQuoteFree()
    ensures RawQuotes(InTheme(theme, fields)) == 0
  {
    if !fields.NoMore? {
      QuoteFreeFieldsHaveNone(theme, fields.rest);
      assert InTheme(theme, fields)[1..] == InTheme(theme, fields.rest);
      if !fields.AriaLabel? {
        NoQuotes(InTheme(theme, fields)[0].value);
      }
    }
  }

  lemma {:induction false} SafePieceByPiece(line: seq<Piece>)
    requires forall i :: 0 <= i < |line| && line[i].Tag? ==> AllSafe(line[i].attributes)
    ensures IsSafe(line)
  {
    if line != [] {
      SafePieceByPiece(line[1..]);
    }
  }

  lemma {:induction false} QuoteFreePieceByPiece(line: seq<Piece>)
    requires forall i :: 0 <= i < |line| && line[i].Tag? ==> RawQuotes(line[i].attributes) == 0
    ensures LineRawQuotes(line) == 0
  {
    if line != [] {
      QuoteFreePieceByPiece(line[1..]);
    }
  }

  lemma PlainRowIsSafe(theme: Theme, row: Row)
    requires theme.IsPlainTheme()
    ensures IsSafe(Pieces(theme, row))
  {
    if !row.Closing? {
      PlainFieldsAreSafe(theme, row.fields);
    }
    if row.Around? {
      PlainFieldsAreSafe(theme, row.innerFields);
    }
    SafePieceByPiece(Pieces(theme, row));
  }

  lemma QuoteFreeRowHasNone(theme: Theme, row: Row)
    requires theme.IsQuoteFree()
    ensures LineRawQuotes(Pieces(theme, row)) == 0
  {
    if !row.Closing? {
      QuoteFreeFieldsHaveNone(theme, row.fields);
    }
    if row.Around? {
      QuoteFreeFieldsHaveNone(theme, row.innerFields);
    }
    QuoteFreePieceByPiece(Pieces(theme, row));
  }

  // ----- The emitter's rows -----------------------------------------------------------------------

  /** How a number prints, and `toUpperCase`. */
  datatype Pen = Pen(show: real -> Plain, upper: string -> string) {

    /** `n`: to hundredths, halves up. */
    function Number(v: real): Plain {
      show((v * 100.0 + 0.5).Floor as real / 100.0)
    }

    function At(x: real, y: real, rest: Fields): Fields {
      Attr("x", Number(x), Attr("y", Number(y), rest))
    }

    function Area(x: real, y: real, w: real, h: real, rest: Fields): Fields {
      At(x, y, Attr("width", Number(w), Attr("height", Number(h), rest)))
    }

    function Fill(colour: Colour, rest: Fields): Fields {
      Tint("fill", colour, rest)
    }

    // The head of the document.

    function SvgLine(scene: Scene): Row {
      var w, h := show(scene.width), show(scene.height);
      var box := Then("0 0 ", Then(w, Then(" ", h)));
      Opening("svg",
              Attr("xmlns", XMLNS, Attr("viewBox", box, Attr("width", w, Attr("height", h, Attr("role", "img",
              AriaLabel(Written(scene.title), Attr("font-family", SANS, NoMore))))))))
    }

    function MarkerSize(): Fields {
      Attr("markerWidth", "7", Attr("markerHeight", "7", Attr("orient", Then("auto-start", "-reverse"), NoMore)))
    }

    function MarkerAttributes(id: Plain): Fields {
      Attr("id", id, Attr("viewBox", "0 0 10 10", Attr("refX", "9", Attr("refY", "5", MarkerSize()))))
    }

    function Arrowhead(colour: Colour): Fields {
      Attr("d", "M0,0 L10,5 L0,10 z", Fill(colour, NoMore))
    }

    function MarkerLine(id: Plain, colour: Colour): Row {
      Around("marker", MarkerAttributes(id), "path", Arrowhead(colour))
    }

    function PageLine(): Row {
      Single("rect", Attr("width", "100%", Attr("height", "100%", Fill(Page, NoMore))))
    }

    function TitleLines(title: Option<string>): seq<Row> {
      if title.None? || title.value == "" then []
      else [Enclosed("text", Attr("x", "40", Attr("y", "46", Attr("font-size", "22", Attr("font-weight", "600",
                             Fill(Ink, NoMore))))), title.value)]
    }

    function SubtitleLines(subtitle: string): seq<Row> {
      if subtitle == "" then []
      else [Enclosed("text", Attr("x", "40", Attr("y", "70", Attr("font-size", "13", Fill(InkMuted, NoMore)))), subtitle)]
    }

    function MarkerId(accent: bool): Plain {
      if accent then "ah-accent" else "ah-edge"
    }

    function EdgeMarker(accent: bool): Row {
      MarkerLine(MarkerId(accent), if accent then EdgeAccent else Edge)
    }

    function Definitions(): seq<Row> {
      [Opening("defs", NoMore), EdgeMarker(false), EdgeMarker(true), Closing("defs")]
    }

    function Head(scene: Scene): seq<Row> {
      [SvgLine(scene)] + Definitions() + [PageLine()] + TitleLines(scene.title) + SubtitleLines(scene.subtitle)
    }

    // Frames.

    function FrameBox(f: Frame): Row {
      Single("rect", Area(f.x, f.y, f.w, f.h, Attr("rx", "12", Attr("fill", "none",
                     Tint("stroke", FrameInk, Attr("stroke-width", "1", Attr("stroke-dasharray", "6 5", NoMore)))))))
    }

    function FrameCaption(f: Frame): Row {
      Enclosed("text", At(f.x + 14.0, f.y - 8.0, Attr("font-size", "13", Attr("font-weight", "600",
                       Attr("letter-spacing", "0.08em", Fill(InkMuted, NoMore))))), upper(f.caption))
    }

    function FrameLines(f: Frame): seq<Row> {
      [FrameBox(f), FrameCaption(f)]
    }

    // Edges.

    function PathData(points: seq<(real, real)>): Plain {
      if points == [] then ""
      else
        var p := points[|points| - 1];
        var here := Then(Number(p.0), Then(",", Number(p.1)));
        if |points| == 1 then Then("M", here) else Then(PathData(points[..|points| - 1]), Then(" L", here))
    }

    function EdgeEnds(e: Arrow): Fields {
      var marker := Then("url(#", Then(MarkerId(e.accent), ")"));
      Attr("marker-end", marker, if e.bidirectional then Attr("marker-start", marker, NoMore) else NoMore)
    }

    function EdgeDash(e: Arrow, rest: Fields): Fields {
      if e.dashed then Attr("stroke-dasharray", "7 5", rest) else rest
    }

    function EdgeStroke(e: Arrow, rest: Fields): Fields {
      var width: Plain := if e.accent then "2.2" else "1.4";
      Tint("stroke", if e.accent then EdgeAccent else Edge, Attr("stroke-width", width, EdgeJoins(rest)))
    }

    function EdgeJoins(rest: Fields): Fields {
      Attr("stroke-linejoin", "round", Attr("stroke-linecap", "round", rest))
    }

    function EdgeLines(e: Arrow): seq<Row> {
      [Single("path", Attr("d", PathData(e.points), Attr("fill", "none", EdgeStroke(e, EdgeDash(e, EdgeEnds(e))))))]
    }

    // Nodes.

    function BoxOutline(b: Box): Row {
      Single("rect", Area(b.x, b.y, b.w, b.h, Attr("rx", "10", Fill(FillOf(b.kind),
                     Tint("stroke", StrokeOf(b.kind), Attr("stroke-width", "1.6", NoMore))))))
    }

    function Middle(x: real, y: real, rest: Fields): Fields {
      At(x, y, Attr("dy", "0.35em", Attr("text-anchor", "middle", rest)))
    }

    function BoxCaption(b: Box): Row {
      var cy := b.y + b.h / 2.0;
      Enclosed("text", Middle(b.x + b.w / 2.0, if b.sub != "" then cy - 6.0 else cy,
                       Attr("font-size", "15", Attr("font-weight", "600", Fill(TextOf(b.kind), NoMore)))), Written(b.caption))
    }

    function BoxSub(b: Box): Row {
      Enclosed("text", Middle(b.x + b.w / 2.0, b.y + b.h / 2.0 + 14.0,
                       Attr("font-size", "11.5", Attr("font-family", MONO, Fill(StrokeOf(b.kind), NoMore)))), b.sub)
    }

    function BoxLines(b: Box): seq<Row> {
      [BoxOutline(b), BoxCaption(b)] + if b.sub == "" then [] else [BoxSub(b)]
    }

    // Edge captions, on a plate.

    function Plate(e: Arrow): Row {
      var w := Text.UnitLength(e.caption) as real * 6.4 + 12.0;
      Single("rect", At(e.captionX - w / 2.0, e.captionY - 9.0, Attr("width", Number(w), Attr("height", "18",
                     Attr("rx", "5", Fill(Page, Attr("stroke", "none", NoMore)))))))
    }

    function EdgeCaption(e: Arrow): Row {
      Enclosed("text", Middle(e.captionX, e.captionY, Attr("font-size", "11", Attr("font-family", MONO,
                       Fill(if e.accent then EdgeAccent else InkMuted, NoMore)))), e.caption)
    }

    function CaptionLines(e: Arrow): seq<Row> {
      if e.caption == "" then [] else [Plate(e), EdgeCaption(e)]
    }

    // Notes: an open tag, a row per line of text, the closing tag.

    function NoteOpening(note: Note): Row {
      var anchor: Plain := match note.align case Centred => "middle" case AtEnd => "end" case AtStart => "start";
      Opening("text", At(note.x, note.y + note.size, Attr("font-size", show(note.size),
                      Fill(if note.accent then EdgeAccent else InkMuted, Attr("text-anchor", anchor, NoMore)))))
    }

    function NoteRow(note: Note, i: nat, row: string): Row {
      Enclosed("tspan", Attr("x", Number(note.x), if i > 0 then Attr("dy", show(note.size * 1.45), NoMore) else NoMore), row)
    }

    function NoteRows(note: Note, rows: seq<string>): seq<Row> {
      if rows == [] then [] else NoteRows(note, rows[..|rows| - 1]) + [NoteRow(note, |rows| - 1, rows[|rows| - 1])]
    }

    function NoteLines(note: Note): seq<Row> {
      [NoteOpening(note)] + NoteRows(note, Text.Split(note.text, "\n")) + [Closing("text")]
    }
  }

  // ----- The document -----------------------------------------------------------------------------

  /** What is painted after the head, one entry for each round of the emitter's five loops. */
  datatype Item = OfFrame(frame: Frame) | OfEdge(edge: Arrow) | OfNode(node: Box) | OfCaption(edge: Arrow) | OfNote(note: Note)

  function RowsOf(pen: Pen, item: Item): seq<Row> {
    match item
    case OfFrame(f) => pen.FrameLines(f)
    case OfEdge(e) => pen.EdgeLines(e)
    case OfNode(b) => pen.BoxLines(b)
    case OfCaption(e) => pen.CaptionLines(e)
    case OfNote(n) => pen.NoteLines(n)
  }

  /** In painting order: edges below nodes, captions above both. */
  function Items(scene: Scene): seq<Item> {
    seq(|scene.frames|, i requires 0 <= i < |scene.frames| => OfFrame(scene.frames[i]))
    + seq(|scene.edges|, i requires 0 <= i < |scene.edges| => OfEdge(scene.edges[i]))
    + seq(|scene.nodes|, i requires 0 <= i < |scene.nodes| => OfNode(scene.nodes[i]))
    + seq(|scene.edges|, i requires 0 <= i < |scene.edges| => OfCaption(scene.edges[i]))
    + seq(|scene.notes|, i requires 0 <= i < |scene.notes| => OfNote(scene.notes[i]))
  }

  function Gather(pen: Pen, items: seq<Item>): seq<Row> {
    if items == [] then [] else Gather(pen, items[..|items| - 1]) + RowsOf(pen, items[|items| - 1])
  }

  /** The document, the same for every theme. */
  function Rows(pen: Pen, scene: Scene): seq<Row> {
    pen.Head(scene) + Gather(pen, Items(scene)) + [Closing("svg")]
  }

  function Each<T, U>(items: seq<T>, f: T -> U): seq<U> {
    if items == [] then [] else Each(items[..|items| - 1], f) + [f(items[|items| - 1])]
  }

  lemma {:induction false} EachAppends<T, U>(a: seq<T>, b: seq<T>, f: T -> U)
    ensures Each(a + b, f) == Each(a, f) + Each(b, f)
  {
    if b == [] {
      assert a + b == a;
    } else {
      EachAppends(a, b[..|b| - 1], f);
      assert (a + b)[..|a + b| - 1] == a + b[..|b| - 1];
    }
  }

  lemma {:induction false} EachAt<T, U>(items: seq<T>, f: T -> U, i: nat)
    requires i < |items|
    ensures |Each(items, f)| == |items| && Each(items, f)[i] == f(items[i])
  {
    if |items| > 1 {
      EachAt(items[..|items| - 1], f, if i < |items| - 1 then i else 0);
    }
  }

  function PrintRow(theme: Theme): Row -> string {
    row => Print(Pieces(theme, row))
  }

  function PrintAll(theme: Theme, rows: seq<Row>): seq<string> {
    Each(rows, PrintRow(theme))
  }

  lemma PrintAllAppends(theme: Theme, a: seq<Row>, b: seq<Row>)
    ensures PrintAll(theme, a + b) == PrintAll(theme, a) + PrintAll(theme, b)
  {
    EachAppends(a, b, PrintRow(theme));
  }

  lemma PrintedAt(theme: Theme, rows: seq<Row>, i: nat)
    requires i < |rows|
    ensures |PrintAll(theme, rows)| == |rows| && PrintAll(theme, rows)[i] == Print(Pieces(theme, rows[i]))
  {
    EachAt(rows, PrintRow(theme), i);
  }

  /** What `push` adds for every item, in order. */
  function Pushes<T>(items: seq<T>, push: T -> seq<string>): seq<string> {
    if items == [] then [] else Pushes(items[..|items| - 1], push) + push(items[|items| - 1])
  }

  /** The emitter's loops. */
  method PushAll<T>(out: seq<string>, items: seq<T>, push: T -> seq<string>) returns (pushed: seq<string>)
    ensures pushed == out + Pushes(items, push)
  {
    pushed := out;
    var i := 0;
    while i < |items|
      invariant 0 <= i <= |items|
      invariant pushed == out + Pushes(items[..i], push)
    {
      assert items[..i + 1][..i] == items[..i];
      pushed := pushed + push(items[i]);
      i := i + 1;
    }
    assert items[..i] == items;
  }

  function PrintItem(pen: Pen, theme: Theme): Item -> seq<string> {
    item => PrintAll(theme, RowsOf(pen, item))
  }

  lemma {:induction false} PushesPrintTheRows(pen: Pen, theme: Theme, items: seq<Item>)
    ensures Pushes(items, PrintItem(pen, theme)) == PrintAll(theme, Gather(pen, items))
  {
    if items != [] {
      PushesPrintTheRows(pen, theme, items[..|items| - 1]);
      PrintAllAppends(theme, Gather(pen, items[..|items| - 1]), RowsOf(pen, items[|items| - 1]));
    }
  }

  lemma PrintedInParts(theme: Theme, head: seq<Row>, body: seq<Row>, end: seq<Row>)
    ensures PrintAll(theme, head + body + end) == PrintAll(theme, head) + PrintAll(theme, body) + PrintAll(theme, end)
  {
    PrintAllAppends(theme, head, body);
    PrintAllAppends(theme, head + body, end);
  }

  predicate IsOddRow(theme: Theme, row: Row) {
    IsOdd(Pieces(theme, row))
  }

  /** The first row that is odd in this theme, or none when none is. */
  predicate IsFirstOdd(theme: Theme, rows: seq<Row>, bad: Option<nat>) {
    && (bad.None? ==> forall i :: 0 <= i < |rows| ==> !IsOddRow(theme, rows[i]))
    && (bad.Some? ==> bad.value < |rows| && IsOddRow(theme, rows[bad.value])
                      && forall i :: 0 <= i < bad.value ==> !IsOddRow(theme, rows[i]))
  }

  /** What the guard finds in the printed rows is the first odd one. */
  lemma GuardOnPrinted(theme: Theme, rows: seq<Row>, out: seq<string>, bad: Option<nat>)
    requires out == PrintAll(theme, rows)
    requires bad.None? ==> forall i :: 0 <= i < |out| ==> Balanced(out[i])
    requires bad.Some? ==> bad.value < |out| && !Balanced(out[bad.value]) && forall i :: 0 <= i < bad.value ==> Balanced(out[i])
    ensures IsFirstOdd(theme, rows, bad)
  {
    PrintedCount(theme, rows);
    forall i | 0 <= i < |rows|
      ensures Balanced(out[i]) <==> !IsOddRow(theme, rows[i])
    {
      PrintedAt(theme, rows, i);
      GuardCountsRawQuotes(Pieces(theme, rows[i]));
    }
  }

  /** The emitter, its guard last: for every scene and theme it has its lines, and the guard finds the first odd one. */
  method EmitSvg(pen: Pen, theme: Theme, scene: Scene) returns (out: seq<string>, bad: Option<nat>)
    ensures out == PrintAll(theme, Rows(pen, scene))
    ensures IsFirstOdd(theme, Rows(pen, scene), bad)
    ensures theme.IsQuoteFree() ==> bad == None
  {
    var head, items := pen.Head(scene), Items(scene);
    out := PushAll(PrintAll(theme, head), items, PrintItem(pen, theme));
    PushesPrintTheRows(pen, theme, items);
    PrintedInParts(theme, head, Gather(pen, items), [Closing("svg")]);
    out := out + PrintAll(theme, [Closing("svg")]);
    bad := AssertWellFormed(out);
    GuardOnPrinted(theme, Rows(pen, scene), out, bad);
    QuoteFreeThemePasses(theme, Rows(pen, scene), bad);
  }

  lemma QuoteFreeThemePasses(theme: Theme, rows: seq<Row>, bad: Option<nat>)
    requires IsFirstOdd(theme, rows, bad)
    ensures theme.IsQuoteFree() ==> bad == None
  {
    if theme.IsQuoteFree() && bad.Some? {
      QuoteFreeRowHasNone(theme, rows[bad.value]);
      assert false;
    }
  }

  /** In a plain theme, whatever the scene says, every emitted line passes the guard and reads back as the tags and texts meant. */
  lemma EveryLineIsSound(pen: Pen, theme: Theme, scene: Scene)
    requires theme.IsPlainTheme()
    ensures var rows, out := Rows(pen, scene), PrintAll(theme, Rows(pen, scene));
            |out| == |rows| && forall i :: 0 <= i < |out| ==> Balanced(out[i]) && Parse(out[i]) == Some(Pieces(theme, rows[i]))
  {
    RowsAreSound(theme, Rows(pen, scene));
  }

  lemma RowsAreSound(theme: Theme, rows: seq<Row>)
    requires theme.IsPlainTheme()
    ensures var out := PrintAll(theme, rows);
            |out| == |rows| && forall i :: 0 <= i < |out| ==> Balanced(out[i]) && Parse(out[i]) == Some(Pieces(theme, rows[i]))
  {
    PrintedCount(theme, rows);
    forall i | 0 <= i < |rows|
      ensures Balanced(PrintAll(theme, rows)[i]) && Parse(PrintAll(theme, rows)[i]) == Some(Pieces(theme, rows[i]))
    {
      PrintedAt(theme, rows, i);
      PlainRowIsSafe(theme, rows[i]);
      PrintedLinesAreSound(Pieces(theme, rows[i]));
    }
  }

  lemma PrintedCount(theme: Theme, rows: seq<Row>)
    ensures |PrintAll(theme, rows)| == |rows|
  {
    if rows != [] {
      PrintedAt(theme, rows, 0);
    }
  }

  lemma {:induction false} GatherHoldsAll(pen: Pen, items: seq<Item>, item: Item, row: Row)
    requires item in items && row in RowsOf(pen, item)
    ensures row in Gather(pen, items)
  {
    if item != items[|items| - 1] {
      GatherHoldsAll(pen, items[..|items| - 1], item, row);
    }
  }

  /** A reader of the emitted text finds this text between tags. */
  ghost predicate Shows(out: seq<string>, text: string) {
    exists i :: 0 <= i < |out| && Parse(out[i]).Some? && Text(text) in Parse(out[i]).value
  }

  /** A reader of some emitted line finds exactly the pieces of this row. */
  ghost predicate Draws(theme: Theme, out: seq<string>, row: Row) {
    exists i :: 0 <= i < |out| && Parse(out[i]) == Some(Pieces(theme, row))
  }

  lemma RowIsDrawn(theme: Theme, rows: seq<Row>, row: Row)
    requires theme.IsPlainTheme() && row in rows
    ensures Draws(theme, PrintAll(theme, rows), row)
    ensures row.Enclosed? && row.text != "" ==> Shows(PrintAll(theme, rows), row.text)
  {
    var i :| 0 <= i < |rows| && rows[i] == row;
    RowsAreSound(theme, rows);
    assert Parse(PrintAll(theme, rows)[i]) == Some(Pieces(theme, row));
    if row.Enclosed? && row.text != "" {
      assert Pieces(theme, row)[1] == Text(row.text);
    }
  }

  lemma ItemIsDrawn(pen: Pen, theme: Theme, scene: Scene, item: Item, row: Row)
    requires theme.IsPlainTheme() && item in Items(scene) && row in RowsOf(pen, item)
    ensures Draws(theme, PrintAll(theme, Rows(pen, scene)), row)
    ensures row.Enclosed? && row.text != "" ==> Shows(PrintAll(theme, Rows(pen, scene)), row.text)
  {
    GatherHoldsAll(pen, Items(scene), item, row);
    RowIsDrawn(theme, Rows(pen, scene), row);
  }

  lemma FrameIsAnItem(scene: Scene, i: nat)
    requires i < |scene.frames|
    ensures OfFrame(scene.frames[i]) in Items(scene)
  {
    assert Items(scene)[i] == OfFrame(scene.frames[i]);
  }

  lemma EdgeIsAnItem(scene: Scene, i: nat)
    requires i < |scene.edges|
    ensures OfEdge(scene.edges[i]) in Items(scene)
  {
    assert Items(scene)[|scene.frames| + i] == OfEdge(scene.edges[i]);
  }

  lemma NoteIsAnItem(scene: Scene, i: nat)
    requires i < |scene.notes|
    ensures OfNote(scene.notes[i]) in Items(scene)
  {
    assert Items(scene)[|scene.frames| + 2 * |scene.edges| + |scene.nodes| + i] == OfNote(scene.notes[i]);
  }

  lemma NodeIsAnItem(scene: Scene, i: nat)
    requires i < |scene.nodes|
    ensures OfNode(scene.nodes[i]) in Items(scene)
  {
    assert Items(scene)[|scene.frames| + |scene.edges| + i] == OfNode(scene.nodes[i]);
  }

  lemma CaptionIsAnItem(scene: Scene, i: nat)
    requires i < |scene.edges|
    ensures OfCaption(scene.edges[i]) in Items(scene)
  {
    assert Items(scene)[|scene.frames| + |scene.edges| + |scene.nodes| + i] == OfCaption(scene.edges[i]);
  }

  /** The caption of every node, whatever it says, is in the picture as it was written. */
  lemma NodeCaptionShows(pen: Pen, theme: Theme, scene: Scene, i: nat)
    requires theme.IsPlainTheme() && i < |scene.nodes| && Written(scene.nodes[i].caption) != ""
    ensures Shows(PrintAll(theme, Rows(pen, scene)), Written(scene.nodes[i].caption))
  {
    var b := scene.nodes[i];
    NodeIsAnItem(scene, i);
    assert pen.BoxLines(b)[1] == pen.BoxCaption(b);
    ItemIsDrawn(pen, theme, scene, OfNode(b), pen.BoxCaption(b));
  }

  /** So is the caption of every edge. */
  lemma EdgeCaptionShows(pen: Pen, theme: Theme, scene: Scene, i: nat)
    requires theme.IsPlainTheme() && i < |scene.edges| && scene.edges[i].caption != ""
    ensures Shows(PrintAll(theme, Rows(pen, scene)), scene.edges[i].caption)
  {
    var e := scene.edges[i];
    CaptionIsAnItem(scene, i);
    assert pen.CaptionLines(e)[1] == pen.EdgeCaption(e);
    ItemIsDrawn(pen, theme, scene, OfCaption(e), pen.EdgeCaption(e));
  }

  /** So are the second line of every node, and the heading of every frame in capitals. */
  lemma NodeSubShows(pen: Pen, theme: Theme, scene: Scene, i: nat)
    requires theme.IsPlainTheme() && i < |scene.nodes| && scene.nodes[i].sub != ""
    ensures Shows(PrintAll(theme, Rows(pen, scene)), scene.nodes[i].sub)
  {
    var b := scene.nodes[i];
    NodeIsAnItem(scene, i);
    assert pen.BoxLines(b)[2] == pen.BoxSub(b);
    ItemIsDrawn(pen, theme, scene, OfNode(b), pen.BoxSub(b));
  }

  lemma FrameCaptionShows(pen: Pen, theme: Theme, scene: Scene, i: nat)
    requires theme.IsPlainTheme() && i < |scene.frames| && pen.upper(scene.frames[i].caption) != ""
    ensures Shows(PrintAll(theme, Rows(pen, scene)), pen.upper(scene.frames[i].caption))
  {
    var f := scene.frames[i];
    FrameIsAnItem(scene, i);
    assert pen.FrameLines(f)[1] == pen.FrameCaption(f);
    ItemIsDrawn(pen, theme, scene, OfFrame(f), pen.FrameCaption(f));
  }

  lemma {:induction false} NoteRowsAre(pen: Pen, note: Note, rows: seq<string>, k: nat)
    requires k < |rows|
    ensures |pen.NoteRows(note, rows)| == |rows| && pen.NoteRows(note, rows)[k] == pen.NoteRow(note, k, rows[k])
  {
    if |rows| > 1 {
      NoteRowsAre(pen, note, rows[..|rows| - 1], if k < |rows| - 1 then k else 0);
    }
  }

  /** Every line of every note. */
  lemma NoteLineShows(pen: Pen, theme: Theme, scene: Scene, i: nat, k: nat)
    requires theme.IsPlainTheme() && i < |scene.notes| && k < |Text.Split(scene.notes[i].text, "\n")|
    requires Text.Split(scene.notes[i].text, "\n")[k] != ""
    ensures Shows(PrintAll(theme, Rows(pen, scene)), Text.Split(scene.notes[i].text, "\n")[k])
  {
    var note := scene.notes[i];
    var rows := Text.Split(note.text, "\n");
    NoteIsAnItem(scene, i);
    NoteRowsAre(pen, note, rows, k);
    assert pen.NoteLines(note)[k + 1] == pen.NoteRow(note, k, rows[k]);
    ItemIsDrawn(pen, theme, scene, OfNote(note), pen.NoteRow(note, k, rows[k]));
  }

  /** The title and the subtitle. */
  lemma HeadingsShow(pen: Pen, theme: Theme, scene: Scene)
    requires theme.IsPlainTheme()
    ensures scene.title.Some? && scene.title.value != "" ==> Shows(PrintAll(theme, Rows(pen, scene)), scene.title.value)
    ensures scene.subtitle != "" ==> Shows(PrintAll(theme, Rows(pen, scene)), scene.subtitle)
  {
    var rows := Rows(pen, scene);
    if scene.title.Some? && scene.title.value != "" {
      HeadHolds(pen, scene, pen.TitleLines(scene.title)[0]);
      RowIsDrawn(theme, rows, pen.TitleLines(scene.title)[0]);
    }
    if scene.subtitle != "" {
      HeadHolds(pen, scene, pen.SubtitleLines(scene.subtitle)[0]);
      RowIsDrawn(theme, rows, pen.SubtitleLines(scene.subtitle)[0]);
    }
  }

  lemma HeadHolds(pen: Pen, scene: Scene, row: Row)
    requires row in pen.TitleLines(scene.title) || row in pen.SubtitleLines(scene.subtitle)
    ensures row in Rows(pen, scene)
  {
  }

  // ----- What is drawn ----------------------------------------------------------------------------

  /** Among the attributes are all of `present`, and none with a name in `absent`. */
  predicate HasShape(all: seq<Attribute>, present: set<Attribute>, absent: set<string>) {
    (forall a :: a in present ==> a in all) && (forall a :: a in all ==> a.name !in absent)
  }

  /** Some line of the picture is one empty tag with this name and attributes so. */
  ghost predicate DrawsShape(out: seq<string>, name: Name, present: set<Attribute>, absent: set<string>) {
    exists i, all :: 0 <= i < |out| && Parse(out[i]) == Some([Tag(name, all, true)]) && HasShape(all, present, absent)
  }

  lemma ShapeIsDrawn(theme: Theme, out: seq<string>, row: Row, present: set<Attribute>, absent: set<string>)
    requires row.Single? && Draws(theme, out, row) && HasShape(InTheme(theme, row.fields), present, absent)
    ensures DrawsShape(out, row.name, present, absent)
  {
    var i :| 0 <= i < |out| && Parse(out[i]) == Some(Pieces(theme, row));
    assert Parse(out[i]) == Some([Tag(row.name, InTheme(theme, row.fields), true)]);
  }

  function MarkerOf(e: Arrow): string {
    "url(#" + ((if e.accent then "ah-accent" else "ah-edge") + ")")
  }

  /** The dashes and arrowheads of an edge. */
  function EdgeEndsShape(e: Arrow): set<Attribute> {
    {Attribute("marker-end", MarkerOf(e))}
    + (if e.bidirectional then {Attribute("marker-start", MarkerOf(e))} else {})
    + if e.dashed then {Attribute("stroke-dasharray", "7 5")} else {}
  }

  function EdgeAbsent(e: Arrow): set<string> {
    (if e.bidirectional then {} else {"marker-start"}) + if e.dashed then {} else {"stroke-dasharray"}
  }

  lemma EdgeEndsHaveShape(pen: Pen, theme: Theme, e: Arrow)
    ensures HasShape(InTheme(theme, pen.EdgeDash(e, pen.EdgeEnds(e))), EdgeEndsShape(e), EdgeAbsent(e))
  {
    var ends := pen.EdgeEnds(e);
    FieldsBehind(theme, ends);
    if e.bidirectional {
      FieldsBehind(theme, ends.rest);
    }
    if e.dashed {
      FieldsBehind(theme, pen.EdgeDash(e, ends));
    }
  }

  /** The points of an edge and its colour in this theme, its dashes and its arrowheads. */
  function EdgeShape(pen: Pen, theme: Theme, e: Arrow): set<Attribute> {
    EdgeEndsShape(e) + {Attribute("stroke", if e.accent then theme.edgeAccent else theme.edge)}
    + {Attribute("d", pen.PathData(e.points))}
  }

  lemma StrokeHasShape(pen: Pen, theme: Theme, e: Arrow, rest: Fields, present: set<Attribute>, absent: set<string>)
    requires HasShape(InTheme(theme, rest), present, absent) && absent <= {"marker-start", "stroke-dasharray"}
    ensures HasShape(InTheme(theme, pen.EdgeStroke(e, rest)),
                     present + {Attribute("stroke", if e.accent then theme.edgeAccent else theme.edge)}, absent)
  {
    var fields := pen.EdgeStroke(e, rest);
    FieldsBehind(theme, fields);
    FieldsBehind(theme, fields.rest);
    FieldsBehind(theme, fields.rest.rest);
    FieldsBehind(theme, fields.rest.rest.rest);
  }

  lemma EdgeFields(pen: Pen, e: Arrow)
    ensures var fields := pen.EdgeLines(e)[0].fields;
            && fields.Attr? && fields.name == "d" && fields.value == pen.PathData(e.points)
            && fields.rest.Attr? && fields.rest.name == "fill"
            && fields.rest.rest == pen.EdgeStroke(e, pen.EdgeDash(e, pen.EdgeEnds(e)))
  {
  }

  lemma EdgeHasShape(pen: Pen, theme: Theme, e: Arrow, fields: Fields)
    requires fields.Attr? && fields.name == "d" && fields.value == pen.PathData(e.points)
    requires fields.rest.Attr? && fields.rest.name == "fill"
    requires fields.rest.rest == pen.EdgeStroke(e, pen.EdgeDash(e, pen.EdgeEnds(e)))
    ensures HasShape(InTheme(theme, fields), EdgeShape(pen, theme, e), EdgeAbsent(e))
  {
    EdgeEndsHaveShape(pen, theme, e);
    StrokeHasShape(pen, theme, e, pen.EdgeDash(e, pen.EdgeEnds(e)), EdgeEndsShape(e), EdgeAbsent(e));
    FieldsBehind(theme, fields);
    FieldsBehind(theme, fields.rest);
  }

  /** Every edge is a path through its points, in its colour, dashed if it is, with a head at its end and, if it goes both ways, its start. */
  lemma EdgeIsDrawn(pen: Pen, theme: Theme, scene: Scene, i: nat)
    requires theme.IsPlainTheme() && i < |scene.edges|
    ensures DrawsShape(PrintAll(theme, Rows(pen, scene)), "path",
                       EdgeShape(pen, theme, scene.edges[i]), EdgeAbsent(scene.edges[i]))
  {
    var e := scene.edges[i];
    var row := pen.EdgeLines(e)[0];
    EdgeIsAnItem(scene, i);
    ItemIsDrawn(pen, theme, scene, OfEdge(e), row);
    EdgeFields(pen, e);
    EdgeHasShape(pen, theme, e, row.fields);
    ShapeIsDrawn(theme, PrintAll(theme, Rows(pen, scene)), row, EdgeShape(pen, theme, e), EdgeAbsent(e));
  }

  /** A box of this position and size, as attributes. */
  function AreaShape(pen: Pen, x: real, y: real, w: real, h: real): set<Attribute> {
    {Attribute("x", pen.Number(x)), Attribute("y", pen.Number(y)), Attribute("width", pen.Number(w)), Attribute("height", pen.Number(h))}
  }

  lemma FieldsBehind(theme: Theme, fields: Fields)
    requires !fields.NoMore?
    ensures forall a :: a in InTheme(theme, fields) <==> a == InTheme(theme, fields)[0] || a in InTheme(theme, fields.rest)
  {
    assert InTheme(theme, fields) == [InTheme(theme, fields)[0]] + InTheme(theme, fields.rest);
  }

  lemma AreaHasShape(pen: Pen, theme: Theme, x: real, y: real, w: real, h: real, rest: Fields)
    ensures forall a :: a in AreaShape(pen, x, y, w, h) || a in InTheme(theme, rest) ==> a in InTheme(theme, pen.Area(x, y, w, h, rest))
  {
    var fields := pen.Area(x, y, w, h, rest);
    FieldsBehind(theme, fields);
    FieldsBehind(theme, fields.rest);
    FieldsBehind(theme, fields.rest.rest);
    FieldsBehind(theme, fields.rest.rest.rest);
  }

  /** Every node is a rectangle where the scene has it, in the two colours of its kind. */
  lemma NodeIsDrawn(pen: Pen, theme: Theme, scene: Scene, i: nat)
    requires theme.IsPlainTheme() && i < |scene.nodes|
    ensures DrawsShape(PrintAll(theme, Rows(pen, scene)), "rect", BoxShape(pen, theme, scene.nodes[i]), {})
  {
    var b := scene.nodes[i];
    NodeIsAnItem(scene, i);
    assert pen.BoxLines(b)[0] == pen.BoxOutline(b);
    ItemIsDrawn(pen, theme, scene, OfNode(b), pen.BoxOutline(b));
    BoxHasShape(pen, theme, b);
    ShapeIsDrawn(theme, PrintAll(theme, Rows(pen, scene)), pen.BoxOutline(b), BoxShape(pen, theme, b), {});
  }

  function BoxShape(pen: Pen, theme: Theme, b: Box): set<Attribute> {
    var tone := if b.kind in theme.kinds then theme.kinds[b.kind] else theme.store;
    AreaShape(pen, b.x, b.y, b.w, b.h) + {Attribute("fill", tone.fill), Attribute("stroke", tone.stroke)}
  }

  lemma BoxHasShape(pen: Pen, theme: Theme, b: Box)
    ensures forall a :: a in BoxShape(pen, theme, b) ==> a in InTheme(theme, pen.BoxOutline(b).fields)
  {
    var rest := pen.BoxOutline(b).fields.rest.rest.rest.rest;
    AreaHasShape(pen, theme, b.x, b.y, b.w, b.h, rest);
    FieldsBehind(theme, rest);
    FieldsBehind(theme, rest.rest);
    FieldsBehind(theme, rest.rest.rest);
    assert InTheme(theme, rest.rest)[0].value == theme.ToneOf(b.kind).fill;
    assert InTheme(theme, rest.rest.rest)[0].value == theme.ToneOf(b.kind).stroke;
  }

  /** Every frame is a rectangle where the scene has it. */
  lemma FrameIsDrawn(pen: Pen, theme: Theme, scene: Scene, i: nat)
    requires theme.IsPlainTheme() && i < |scene.frames|
    ensures DrawsShape(PrintAll(theme, Rows(pen, scene)), "rect",
                       AreaShape(pen, scene.frames[i].x, scene.frames[i].y, scene.frames[i].w, scene.frames[i].h), {})
  {
    var f := scene.frames[i];
    var shape := AreaShape(pen, f.x, f.y, f.w, f.h);
    FrameIsAnItem(scene, i);
    assert pen.FrameLines(f)[0] == pen.FrameBox(f);
    ItemIsDrawn(pen, theme, scene, OfFrame(f), pen.FrameBox(f));
    AreaHasShape(pen, theme, f.x, f.y, f.w, f.h, pen.FrameBox(f).fields.rest.rest.rest.rest);
    ShapeIsDrawn(theme, PrintAll(theme, Rows(pen, scene)), pen.FrameBox(f), shape, {});
  }

  predicate IsMarker(theme: Theme, row: Row, id: string, colour: string) {
    && row.Around? && row.name == "marker" && row.inner == "path"
    && Attribute("id", id) in InTheme(theme, row.fields) && Attribute("fill", colour) in InTheme(theme, row.innerFields)
  }

  lemma MarkerHasShape(pen: Pen, theme: Theme, id: Plain, colour: Colour)
    ensures IsMarker(theme, pen.MarkerLine(id, colour), id, theme.Of(colour))
  {
    var row := pen.MarkerLine(id, colour);
    FieldsBehind(theme, row.fields);
    FieldsBehind(theme, row.innerFields);
    FieldsBehind(theme, row.innerFields.rest);
  }

  lemma MarkerIsADefinition(pen: Pen, accent: bool)
    ensures pen.EdgeMarker(accent) in pen.Definitions()
  {
    assert pen.Definitions()[if accent then 2 else 1] == pen.EdgeMarker(accent);
  }

  lemma DefinitionIsDrawn(pen: Pen, theme: Theme, scene: Scene, row: Row)
    requires theme.IsPlainTheme() && row in pen.Definitions()
    ensures Draws(theme, PrintAll(theme, Rows(pen, scene)), row)
  {
    DefinitionsComeFirst(pen, scene, row);
    RowIsDrawn(theme, Rows(pen, scene), row);
  }

  lemma DefinitionsComeFirst(pen: Pen, scene: Scene, row: Row)
    requires row in pen.Definitions()
    ensures row in Rows(pen, scene)
  {
  }

  /** The arrowhead of such edges has the name they use and their colour. */
  lemma MarkerFitsItsEdges(pen: Pen, theme: Theme, accent: bool)
    ensures IsMarker(theme, pen.EdgeMarker(accent), pen.MarkerId(accent), if accent then theme.edgeAccent else theme.edge)
  {
    MarkerHasShape(pen, theme, pen.MarkerId(accent), if accent then EdgeAccent else Edge);
  }

  /** And is defined in every picture. */
  lemma MarkersAreDefined(pen: Pen, theme: Theme, scene: Scene, accent: bool)
    requires theme.IsPlainTheme()
    ensures Draws(theme, PrintAll(theme, Rows(pen, scene)), pen.EdgeMarker(accent))
  {
    MarkerIsADefinition(pen, accent);
    DefinitionIsDrawn(pen, theme, scene, pen.EdgeMarker(accent));
  }

  /** Numbers print as whole hundredths, at most half of one away. */
  lemma NumbersAreHundredths(pen: Pen, v: real) returns (k: int)
    ensures pen.Number(v) == pen.show(k as real / 100.0) && -0.005 < k as real / 100.0 - v <= 0.005
  {
    k := (v * 100.0 + 0.5).Floor;
  }

  lemma FarBehind(theme: Theme, fields: Fields)
    requires fields.Attr? && fields.rest.Attr? && fields.rest.rest.Attr? && fields.rest.rest.rest.Attr?
    requires fields.rest.rest.rest.rest.Attr? && fields.rest.rest.rest.rest.rest.AriaLabel?
    ensures Attribute(ESCAPED_ATTRIBUTE, fields.rest.rest.rest.rest.rest.text) in InTheme(theme, fields)
  {
    FieldsBehind(theme, fields);
    FieldsBehind(theme, fields.rest);
    FieldsBehind(theme, fields.rest.rest);
    FieldsBehind(theme, fields.rest.rest.rest);
    FieldsBehind(theme, fields.rest.rest.rest.rest);
    FieldsBehind(theme, fields.rest.rest.rest.rest.rest);
  }

  /** The picture's own tag says its title. */
  lemma TitleIsSpoken(pen: Pen, theme: Theme, scene: Scene)
    requires theme.IsPlainTheme()
    ensures Draws(theme, PrintAll(theme, Rows(pen, scene)), pen.SvgLine(scene))
    ensures Attribute(ESCAPED_ATTRIBUTE, Written(scene.title)) in InTheme(theme, pen.SvgLine(scene).fields)
  {
    assert Rows(pen, scene)[0] == pen.SvgLine(scene);
    RowIsDrawn(theme, Rows(pen, scene), pen.SvgLine(scene));
    FarBehind(theme, pen.SvgLine(scene).fields);
  }

  function Command(pen: Pen, points: seq<(real, real)>, i: nat): string
    requires i < |points|
  {
    (if i == 0 then "M" else "L") + pen.Number(points[i].0) + "," + pen.Number(points[i].1)
  }

  function Commands(pen: Pen, points: seq<(real, real)>): seq<string> {
    seq(|points|, i requires 0 <= i < |points| => Command(pen, points, i))
  }

  /** The path data move to the first point and draw to each other one, in order. */
  lemma {:induction false} PathDataAreCommands(pen: Pen, points: seq<(real, real)>)
    requires points != []
    ensures pen.PathData(points) == Text.Join(Commands(pen, points), " ")
  {
    var n := |points| - 1;
    if n > 0 {
      PathDataAreCommands(pen, points[..n]);
      assert Commands(pen, points) == Commands(pen, points[..n]) + [Command(pen, points, n)];
      Text.JoinOneMore(Commands(pen, points[..n]), Command(pen, points, n), " ");
    }
  }

  function Layer(item: Item): nat {
    match item
    case OfFrame(_) => 0
    case OfEdge(_) => 1
    case OfNode(_) => 2
    case OfCaption(_) => 3
    case OfNote(_) => 4
  }

  /** Frames lie below edges, edges below nodes, and captions and notes on top. */
  lemma PaintedInLayers(scene: Scene, i: nat, j: nat)
    requires i < j < |Items(scene)|
    ensures Layer(Items(scene)[i]) <= Layer(Items(scene)[j])
  {
  }
}
