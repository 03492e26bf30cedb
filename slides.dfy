/**
 * The slide renderer: a slide record becomes one HTML fragment, chosen by an exact match
 * of its `type` tag against the eight known layouts, with a catch-all fragment for any
 * other tag. Every fragment is written as the list of the pieces of its template literal;
 * long literals are spelled as sums of shorter ones, with the same characters.
 */
module Slides {
  import opened Wrappers
  import opened Text
  import opened Escape

  /** One card of a grid slide. */
  datatype Card = Card(title: string, content: string)

  /** One column of a two-column slide; `items` is `None` when the field is absent. */
  datatype Column = Column(title: string, items: Option<seq<string>>)

  /** One step of a numbered slide. */
  datatype Step = Step(number: string, title: string, description: string)

  /**
   * A slide record as it arrives in the JSON document. A text field that is absent, `null`
   * or empty is `""` (every such value is falsy, and `escapeHtml` maps it to `""`); a list
   * field or column that is absent is `None`. `kind` is the `type` field, `None` when absent.
   */
  datatype SlideRecord = SlideRecord(
    kind: Option<string>,
    heading: string,
    emoji: string,
    subheading: string,
    items: Option<seq<string>>,
    cards: Option<seq<Card>>,
    left: Option<Column>,
    right: Option<Column>,
    quote: string,
    author: string,
    steps: Option<seq<Step>>,
    message: string,
    submessage: string)

  /**
   * The literals in which the two copies of the renderer differ: the separator between
   * fragments, the default emoji of a title slide and the prefix of a quote's author.
   */
  datatype Variant = Variant(slideSeparator: string, defaultEmoji: string, authorPrefix: string)

  /** The edge-runtime copy: the target emoji (U+1F3AF) and an em dash. */
  const EdgeRuntime := Variant("\n\n        ", "\U{1F3AF}", "\U{2014} ")

  /**
   * The command-line copy, whose emoji and dash literals are the UTF-8 bytes of the
   * edge-runtime ones read back as Windows-1252 text.
   */
  const NodeCli := Variant("\n\n", "\U{00F0}\U{0178}\U{017D}\U{00AF}", "\U{00E2}\U{20AC}\U{201D} ")

  /** The eight tags with a layout of their own. */
  const KnownKinds: set<string> :=
    {"title", "bullets", "grid-2x2", "grid-3col", "two-column", "quote", "numbered", "conclusion"}

  // ---------------------------------------------------------------------------------------
  // Literal pieces of the templates

  /** ` active` on the first slide, nothing on the others. */
  function ActiveClass(isFirst: bool): string
  {
    if isFirst then " active" else ""
  }

  /** The opening tag of every fragment. */
  function Open(isFirst: bool): string
  {
    "<div class=\"slide" + ActiveClass(isFirst) + "\">"
  }

  const Indent := "\n    "
  const HeadingOpen := "<h2>"
  const HeadingClose := "</h2>\n    "
  const SlideClose := "\n</div>"

  const CenteredOpen := "<div style=\"text-align: center; "
    + "display: flex; flex-direction: column; "
    + "justify-content: center; height: 100%;\">\n        "
  const CenteredClose := "\n    </div>" + SlideClose

  const EmojiOpen := "<div class=\"emoji-icon\">"
  const EmojiClose := "</div>\n        <h1>"
  const TitleClose := "</h1>\n        "
  const SubheadingOpen := "<p style=\"font-size: "
    + "clamp(1.2rem, 3vw, 1.8rem); opacity: 0.8; margin-top: 1rem;\">"
  const ParagraphClose := "</p>"

  const ListIndent := "\n        "
  const BulletsOpen := "<ul>" + ListIndent
  const BulletsClose := "\n    </ul>" + SlideClose
  const Grid2x2Open := "<div class=\"grid-2x2\">" + ListIndent
  const Grid3ColOpen := "<div class=\"grid-3col\">" + ListIndent
  const BlockClose := "\n    </div>" + SlideClose

  const ColumnsOpen := "<div class=\"split-layout\">" + "\n        <div>\n            <h3>"
  const ColumnListOpen := "</h3>\n            <ul>\n                "
  const ColumnIndent := "\n                "
  const ColumnClose := "\n            </ul>\n        </div>"
  const SecondColumnOpen := "\n        <div>\n            <h3>"
  const ColumnsClose := "\n    </div>" + SlideClose

  const QuoteOpen := "<div class=\"quote-slide\">" + "\n        <p class=\"quote-text\">\""
  const QuoteMark := "\""
  const AuthorOpen := "</p>\n        <p class=\"quote-author\">"
  const QuoteClose := "</p>\n    </div>" + SlideClose

  const StepsOpen := "<div style=\"margin-top: 2rem;\">" + ListIndent

  const MessageOpen := "</h2>\n        "
    + "<p style=\"font-size: clamp(1.3rem, 3vw, 2rem); "
    + "margin-top: 2rem; line-height: 1.8;\">\n            "
  const MessageClose := "</p>\n        "
  const SubmessageOpen := "<p style=\"font-size: "
    + "clamp(1.1rem, 2.5vw, 1.6rem); margin-top: 1.5rem; "
    + "opacity: 0.7;\">\n            "

  const UnsupportedOpen := "<p>Content type not supported: "
  const UnsupportedClose := "</p>" + SlideClose

  /** `<li>…</li>`: the literals around the one field of a list item. */
  const ItemLayout: seq<string> := ["<li>", "</li>"]

  /** The literals around the title and content of a card. */
  const CardLayout: seq<string> := [
    "<div class=\"card\">\n            <h3>",
    "</h3>\n            <p>",
    "</p>\n        </div>"]

  /** The literals around the number, title and description of a step. */
  const StepLayout: seq<string> := [
    "<div style=\"margin-bottom: 2rem;\">" + "\n            <span class=\"number-badge\">",
    "</span>\n            " + "<h3 style=\"display: inline;\">",
    "</h3>\n            " + "<p style=\"margin-top: 0.5rem; margin-left: 4rem;\">",
    "</p>\n        </div>"]

  // ---------------------------------------------------------------------------------------
  // List blocks

  /** One block of a list: the layout's literals with the escaped fields between them. */
  function Entry(layout: seq<string>, fields: seq<string>): (r: string)
    requires |layout| == |fields| + 1
    ensures |r| >= |layout[0]| && r[..|layout[0]|] == layout[0]
  {
    if fields == [] then layout[0]
    else layout[0] + (EscapeHtml(fields[0]) + Entry(layout[1..], fields[1..]))
  }

  /** `rows.map(...)`: one block per row, in order. */
  function Entries(layout: seq<string>, rows: seq<seq<string>>): (r: seq<string>)
    requires forall i :: 0 <= i < |rows| ==> |layout| == |rows[i]| + 1
    ensures |r| == |rows|
  {
    if rows == [] then [] else [Entry(layout, rows[0])] + Entries(layout, rows[1..])
  }

  /** `rows.map(...).join(sep)`. */
  function Block(layout: seq<string>, rows: seq<seq<string>>, sep: string): string
    requires forall i :: 0 <= i < |rows| ==> |layout| == |rows[i]| + 1
  {
    Join(Entries(layout, rows), sep)
  }

  function ItemRows(items: seq<string>): (rows: seq<seq<string>>)
    ensures |rows| == |items| && forall i :: 0 <= i < |items| ==> rows[i] == [items[i]]
  {
    seq(|items|, i requires 0 <= i < |items| => [items[i]])
  }

  function CardRows(cards: seq<Card>): (rows: seq<seq<string>>)
    ensures |rows| == |cards|
    ensures forall i :: 0 <= i < |cards| ==> rows[i] == [cards[i].title, cards[i].content]
  {
    seq(|cards|, i requires 0 <= i < |cards| => [cards[i].title, cards[i].content])
  }

  function StepRows(steps: seq<Step>): (rows: seq<seq<string>>)
    ensures |rows| == |steps|
    ensures forall i :: 0 <= i < |steps| ==>
      rows[i] == [steps[i].number, steps[i].title, steps[i].description]
  {
    seq(|steps|, i requires 0 <= i < |steps| => [steps[i].number, steps[i].title, steps[i].description])
  }

  // ---------------------------------------------------------------------------------------
  // The renderers

  /** `slide.emoji || default`: the emoji is inserted unescaped. */
  function ShownEmoji(v: Variant, r: SlideRecord): string
  {
    if r.emoji != "" then r.emoji else v.defaultEmoji
  }

  /** An optional paragraph: present only when its text is non-empty (truthy). */
  function Optional(text: string, open: string, indent: string, close: string): string
  {
    if text != "" then open + EscapeHtml(text) + indent + close else ""
  }

  /** An optional text as a page shows it: absent when it is empty (falsy). */
  function Present(text: string): (o: Option<string>)
    ensures o.None? <==> text == ""
    ensures o.Some? ==> o.value == text
  {
    if text != "" then Some(text) else None
  }

  /** `f` starts with the opening tag of a slide that is the first exactly when `isFirst` holds. */
  predicate OpensAs(f: string, isFirst: bool)
  {
    |f| >= |Open(isFirst)| && f[..|Open(isFirst)|] == Open(isFirst)
  }

  /**
   * Every fragment: the opening tag, an indent, the literal that starts its layout and the
   * remaining pieces of the layout.
   */
  function Fragment(isFirst: bool, open: string, body: seq<string>): string
  {
    Concat([Open(isFirst), Indent, open] + body)
  }

  /** A list layout: its opening, the blocks of its rows on separate lines, its closing. */
  function ListBody(open: string, layout: seq<string>, rows: seq<seq<string>>, close: string): seq<string>
    requires forall i :: 0 <= i < |rows| ==> |layout| == |rows[i]| + 1
  {
    [open, Block(layout, rows, ListIndent), close]
  }

  /** The pieces of a layout that starts with a heading. */
  function Headed(heading: string, body: seq<string>): seq<string>
  {
    [EscapeHtml(heading), HeadingClose] + body
  }

  function TitleSlide(v: Variant, r: SlideRecord, isFirst: bool): (f: string)
    ensures OpensAs(f, isFirst)
  {
    FragmentOpens(isFirst, CenteredOpen, TitleBody(v, r));
    Fragment(isFirst, CenteredOpen, TitleBody(v, r))
  }

  /** The pieces of a title slide after its centred opening. */
  function TitleBody(v: Variant, r: SlideRecord): seq<string>
  {
    [EmojiOpen, ShownEmoji(v, r), EmojiClose, EscapeHtml(r.heading), TitleClose,
      Optional(r.subheading, SubheadingOpen, "", ParagraphClose), CenteredClose]
  }

  function BulletsSlide(r: SlideRecord, isFirst: bool): (f: Result<string, Failure>)
    ensures f.Err? <==> r.items.None?
    ensures f.Err? ==> f.error == MissingList("items")
    ensures f.Ok? ==> OpensAs(f.value, isFirst)
  {
    if r.items.None? then Err(MissingList("items"))
    else
      var body := Headed(r.heading, ListBody(BulletsOpen, ItemLayout, ItemRows(r.items.value), BulletsClose));
      FragmentOpens(isFirst, HeadingOpen, body);
      Ok(Fragment(isFirst, HeadingOpen, body))
  }

  function Grid2x2Slide(r: SlideRecord, isFirst: bool): (f: Result<string, Failure>)
    ensures f.Err? <==> r.cards.None?
    ensures f.Err? ==> f.error == MissingList("cards")
    ensures f.Ok? ==> OpensAs(f.value, isFirst)
  {
    if r.cards.None? then Err(MissingList("cards"))
    else
      var body := Headed(r.heading, ListBody(Grid2x2Open, CardLayout, CardRows(r.cards.value), BlockClose));
      FragmentOpens(isFirst, HeadingOpen, body);
      Ok(Fragment(isFirst, HeadingOpen, body))
  }

  function Grid3ColSlide(r: SlideRecord, isFirst: bool): (f: Result<string, Failure>)
    ensures f.Err? <==> r.cards.None?
    ensures f.Err? ==> f.error == MissingList("cards")
    ensures f.Ok? ==> OpensAs(f.value, isFirst)
  {
    if r.cards.None? then Err(MissingList("cards"))
    else
      var body := Headed(r.heading, ListBody(Grid3ColOpen, CardLayout, CardRows(r.cards.value), BlockClose));
      FragmentOpens(isFirst, HeadingOpen, body);
      Ok(Fragment(isFirst, HeadingOpen, body))
  }

  /** The left list is mapped before the right one, so its absence is reported first. */
  function TwoColumnSlide(r: SlideRecord, isFirst: bool): (f: Result<string, Failure>)
    ensures f.Err? <==> r.left.None? || r.left.value.items.None? || r.right.None? || r.right.value.items.None?
    ensures f.Err? && r.left.Some? && r.left.value.items.Some? ==> f.error == MissingList("right.items")
    ensures f.Err? && (r.left.None? || r.left.value.items.None?) ==> f.error == MissingList("left.items")
    ensures f.Ok? ==> OpensAs(f.value, isFirst)
  {
    if r.left.None? || r.left.value.items.None? then Err(MissingList("left.items"))
    else if r.right.None? || r.right.value.items.None? then Err(MissingList("right.items"))
    else
      var left, right := r.left.value, r.right.value;
      var body := Headed(r.heading, ColumnsBody(left.title, left.items.value, right.title, right.items.value));
      FragmentOpens(isFirst, HeadingOpen, body);
      Ok(Fragment(isFirst, HeadingOpen, body))
  }

  /** The two lists of a two-column slide, each under its escaped title. */
  function ColumnsBody(leftTitle: string, leftItems: seq<string>,
                       rightTitle: string, rightItems: seq<string>): seq<string>
  {
    [ColumnsOpen, EscapeHtml(leftTitle), ColumnListOpen,
      Block(ItemLayout, ItemRows(leftItems), ColumnIndent), ColumnClose,
      SecondColumnOpen, EscapeHtml(rightTitle), ColumnListOpen,
      Block(ItemLayout, ItemRows(rightItems), ColumnIndent), ColumnClose, ColumnsClose]
  }

  function QuoteSlide(v: Variant, r: SlideRecord, isFirst: bool): (f: string)
    ensures OpensAs(f, isFirst)
  {
    FragmentOpens(isFirst, QuoteOpen, QuoteBody(v, r));
    Fragment(isFirst, QuoteOpen, QuoteBody(v, r))
  }

  /** The pieces of a quote slide after its opening. */
  function QuoteBody(v: Variant, r: SlideRecord): seq<string>
  {
    [EscapeHtml(r.quote), QuoteMark, AuthorOpen, v.authorPrefix, EscapeHtml(r.author), QuoteClose]
  }

  function NumberedSlide(r: SlideRecord, isFirst: bool): (f: Result<string, Failure>)
    ensures f.Err? <==> r.steps.None?
    ensures f.Err? ==> f.error == MissingList("steps")
    ensures f.Ok? ==> OpensAs(f.value, isFirst)
  {
    if r.steps.None? then Err(MissingList("steps"))
    else
      var body := Headed(r.heading, ListBody(StepsOpen, StepLayout, StepRows(r.steps.value), BlockClose));
      FragmentOpens(isFirst, HeadingOpen, body);
      Ok(Fragment(isFirst, HeadingOpen, body))
  }

  function ConclusionSlide(r: SlideRecord, isFirst: bool): (f: string)
    ensures OpensAs(f, isFirst)
  {
    FragmentOpens(isFirst, CenteredOpen, ConclusionBody(r));
    Fragment(isFirst, CenteredOpen, ConclusionBody(r))
  }

  /** The pieces of a conclusion slide after its centred opening. */
  function ConclusionBody(r: SlideRecord): seq<string>
  {
    [HeadingOpen, EscapeHtml(r.heading), MessageOpen, EscapeHtml(r.message), ListIndent,
      MessageClose, Optional(r.submessage, SubmessageOpen, ListIndent, ParagraphClose), CenteredClose]
  }

  /** How `${slide.type}` prints: an absent tag prints as "undefined". */
  function KindText(kind: Option<string>): string
  {
    if kind.Some? then kind.value else "undefined"
  }

  /** `slide.heading || 'Slide'`. */
  function DefaultHeading(heading: string): string
  {
    if heading != "" then heading else "Slide"
  }

  /** The catch-all fragment; the tag is inserted unescaped. */
  function DefaultSlide(r: SlideRecord, isFirst: bool): (f: string)
    ensures OpensAs(f, isFirst)
  {
    FragmentOpens(isFirst, HeadingOpen, Headed(DefaultHeading(r.heading), UnsupportedBody(r.kind)));
    Fragment(isFirst, HeadingOpen, Headed(DefaultHeading(r.heading), UnsupportedBody(r.kind)))
  }

  /** The notice of the catch-all fragment. */
  function UnsupportedBody(kind: Option<string>): seq<string>
  {
    [UnsupportedOpen, KindText(kind), UnsupportedClose]
  }

  /**
   * `generateSlide`: an exact match of the tag against the eight layouts, the catch-all
   * fragment for every other tag, and the ` active` class only when `isFirst` holds.
   */
  function GenerateSlide(v: Variant, r: SlideRecord, isFirst: bool): (g: Result<string, Failure>)
    ensures g.Err? ==> g.error.MissingList?
    ensures g.Ok? ==> OpensAs(g.value, isFirst)
  {
    if r.kind == Some("title") then Ok(TitleSlide(v, r, isFirst))
    else if r.kind == Some("bullets") then BulletsSlide(r, isFirst)
    else if r.kind == Some("grid-2x2") then Grid2x2Slide(r, isFirst)
    else if r.kind == Some("grid-3col") then Grid3ColSlide(r, isFirst)
    else if r.kind == Some("two-column") then TwoColumnSlide(r, isFirst)
    else if r.kind == Some("quote") then Ok(QuoteSlide(v, r, isFirst))
    else if r.kind == Some("numbered") then NumberedSlide(r, isFirst)
    else if r.kind == Some("conclusion") then Ok(ConclusionSlide(r, isFirst))
    else Ok(DefaultSlide(r, isFirst))
  }

  // ---------------------------------------------------------------------------------------
  // What a fragment shows

  /** Every fragment starts with the opening tag, which carries ` active` exactly for the first. */
  lemma FragmentOpens(isFirst: bool, open: string, body: seq<string>)
    ensures OpensAs(Fragment(isFirst, open, body), isFirst)
  {
    var p := [Open(isFirst), Indent, open] + body;
    assert Concat(p) == Open(isFirst) + Concat(p[1..]);
  }

  /** Any tag other than the eight, an absent one included, gives the catch-all fragment. */
  lemma UnknownTagDefault(v: Variant, r: SlideRecord, isFirst: bool)
    requires r.kind.None? || r.kind.value !in KnownKinds
    ensures GenerateSlide(v, r, isFirst) == Ok(DefaultSlide(r, isFirst))
    ensures View(v, r) == Ok(UnsupportedShown(DefaultHeading(r.heading), KindText(r.kind)))
  {
  }

  /** The active opening tag and the plain one differ, and neither is a prefix of the other. */
  lemma OpensDiffer()
    ensures |Open(false)| < |Open(true)| && Open(true)[..|Open(false)|] != Open(false)
    ensures |Open(false)| > 17 && Open(false)[17] != Open(true)[17]
  {
    assert Open(true)[17] != Open(false)[17];
  }

  /**
   * The data a fragment displays, once the markup around it is set aside: the texts as the
   * reader sees them (unescaped), the lists in order, the defaults applied.
   */
  datatype Shown =
    | TitleShown(emoji: string, heading: string, subheading: Option<string>)
    | BulletsShown(heading: string, items: seq<string>)
    | Grid2x2Shown(heading: string, cards: seq<Card>)
    | Grid3ColShown(heading: string, cards: seq<Card>)
    | TwoColumnShown(heading: string, leftTitle: string, leftItems: seq<string>,
                     rightTitle: string, rightItems: seq<string>)
    | QuoteShown(quote: string, author: string)
    | NumberedShown(heading: string, steps: seq<Step>)
    | ConclusionShown(heading: string, message: string, submessage: Option<string>)
    | UnsupportedShown(heading: string, kind: string)

  /**
   * What a slide record is meant to display, by its tag: each known tag shows its own
   * fields, a known list layout whose list is absent fails, and every other tag (an
   * absent one included) shows the heading, or "Slide", and the tag as it prints.
   */
  function View(v: Variant, r: SlideRecord): Result<Shown, Failure>
  {
    match r.kind
    case Some("title") => Ok(TitleShown(ShownEmoji(v, r), r.heading, Present(r.subheading)))
    case Some("bullets") =>
      if r.items.None? then Err(MissingList("items")) else Ok(BulletsShown(r.heading, r.items.value))
    case Some("grid-2x2") =>
      if r.cards.None? then Err(MissingList("cards")) else Ok(Grid2x2Shown(r.heading, r.cards.value))
    case Some("grid-3col") =>
      if r.cards.None? then Err(MissingList("cards")) else Ok(Grid3ColShown(r.heading, r.cards.value))
    case Some("two-column") =>
      if r.left.None? || r.left.value.items.None? then Err(MissingList("left.items"))
      else if r.right.None? || r.right.value.items.None? then Err(MissingList("right.items"))
      else Ok(TwoColumnShown(r.heading, r.left.value.title, r.left.value.items.value,
                             r.right.value.title, r.right.value.items.value))
    case Some("quote") => Ok(QuoteShown(r.quote, r.author))
    case Some("numbered") =>
      if r.steps.None? then Err(MissingList("steps")) else Ok(NumberedShown(r.heading, r.steps.value))
    case Some("conclusion") => Ok(ConclusionShown(r.heading, r.message, Present(r.submessage)))
    case _ => Ok(UnsupportedShown(DefaultHeading(r.heading), KindText(r.kind)))
  }
}
