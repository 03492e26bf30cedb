/**
 * Reading a fragment back. The reader walks the markup the renderer writes, literal by
 * literal, unescapes the text between the literals and rebuilds what the fragment shows.
 * Its round-trip lemmas are the renderer's specification: a fragment displays exactly the
 * record's data, in order, with the ` active` class exactly when it was asked for.
 */
module Reader {
  import opened Wrappers
  import opened Text
  import opened Escape
  import opened Slides

  lemma Assoc(a: string, b: string, c: string)
    ensures a + b + c == a + (b + c)
  {
  }

  /** `s` starts with a tag. */
  predicate StartsTag(s: string)
  {
    |s| > 0 && s[0] == '<'
  }

  // ---------------------------------------------------------------------------------------
  // Primitive readers

  /** Skips the literal `lit` at the start of `s`. */
  function Skip(lit: string, s: string): (r: Option<string>)
    ensures r.Some? ==> |r.value| == |s| - |lit|
  {
    if |lit| <= |s| && s[..|lit|] == lit then Some(s[|lit|..]) else None
  }

  lemma SkipLit(lit: string, rest: string)
    ensures Skip(lit, lit + rest) == Some(rest)
  {
    assert (lit + rest)[..|lit|] == lit;
  }

  lemma SkipMismatch(lit: string, s: string, k: nat)
    requires k < |lit| && k < |s| && s[k] != lit[k]
    ensures Skip(lit, s) == None
  {
    if |lit| <= |s| {
      assert s[..|lit|][k] != lit[k];
    }
  }

  /** The longest prefix of `s` without `<`, and what follows it. */
  function ReadText(s: string): (r: (string, string))
    ensures r.0 + r.1 == s && '<' !in r.0 && (r.1 == [] || r.1[0] == '<')
  {
    if s == [] || s[0] == '<' then ([], s)
    else
      var p := ReadText(s[1..]);
      assert [s[0]] + p.0 + p.1 == s by { assert [s[0]] + s[1..] == s; }
      ([s[0]] + p.0, p.1)
  }

  lemma {:induction false} ReadTextSplit(t: string, rest: string)
    requires '<' !in t && (rest == [] || rest[0] == '<')
    ensures ReadText(t + rest) == (t, rest)
  {
    if t != [] {
      assert (t + rest)[1..] == t[1..] + rest;
      assert '<' !in t[1..] by { assert forall k :: 0 <= k < |t| - 1 ==> t[1..][k] == t[k + 1]; }
      ReadTextSplit(t[1..], rest);
      assert [t[0]] + t[1..] == t;
    } else {
      assert t + rest == rest;
    }
  }

  /**
   * An escaped text field followed by the literal `w` (which holds no `<`): the text up to
   * the next tag, without its trailing `w`, unescaped.
   */
  function ReadEscaped(s: string, w: string): (r: Option<(string, string)>)
    ensures r.Some? ==> |r.value.1| <= |s|
  {
    var p := ReadText(s);
    if |w| <= |p.0| && p.0[|p.0| - |w|..] == w then Some((UnescapeHtml(p.0[..|p.0| - |w|]), p.1))
    else None
  }

  lemma ReadEscapedField(x: string, w: string, rest: string)
    requires '<' !in w && StartsTag(rest)
    ensures ReadEscaped(EscapeHtml(x) + w + rest, w) == Some((x, rest))
  {
    var t := EscapeHtml(x) + w;
    assert '<' !in t;
    ReadTextSplit(t, rest);
    assert t[|t| - |w|..] == w && t[..|t| - |w|] == EscapeHtml(x);
    EscapeRoundTrip(x);
  }

  /**
   * An optional paragraph: absent when `s` does not start with its opening literal,
   * otherwise the text it holds.
   */
  function ReadOptional(open: string, w: string, close: string, s: string): (r: Option<(Option<string>, string)>)
    ensures r.Some? ==> |r.value.1| <= |s|
    ensures Skip(open, s).None? ==> r == Some((None, s))
  {
    if Skip(open, s).None? then Some((None, s))
    else
      var f :- ReadEscaped(Skip(open, s).value, w);
      var s1 :- Skip(close, f.1);
      Some((Some(f.0), s1))
  }

  /** An escaped text field directly followed by a tag. */
  lemma ReadEscapedBare(x: string, rest: string)
    requires StartsTag(rest)
    ensures ReadEscaped(EscapeHtml(x) + rest, "") == Some((x, rest))
  {
    ReadEscapedField(x, "", rest);
    assert EscapeHtml(x) + "" == EscapeHtml(x);
  }

  // ---------------------------------------------------------------------------------------
  // List blocks

  /** The fields of one list block laid out by `layout`. */
  function ReadEntry(layout: seq<string>, s: string): (r: Option<(seq<string>, string)>)
    requires |layout| > 0
    ensures r.Some? ==> |r.value.0| == |layout| - 1 && |r.value.1| <= |s| - |layout[0]|
    decreases |layout|
  {
    var s1 :- Skip(layout[0], s);
    if |layout| == 1 then Some(([], s1))
    else
      var f :- ReadEscaped(s1, "");
      var e :- ReadEntry(layout[1..], f.1);
      Some(([f.0] + e.0, e.1))
  }

  /** Every row holds `n` fields. */
  predicate Shaped(rows: seq<seq<string>>, n: int)
  {
    forall i :: 0 <= i < |rows| ==> |rows[i]| == n
  }

  lemma ShapedCons(row: seq<string>, rows: seq<seq<string>>, n: int)
    requires |row| == n && Shaped(rows, n)
    ensures Shaped([row] + rows, n)
  {
    var all := [row] + rows;
    forall i | 0 <= i < |all| ensures |all[i]| == n {
      if i > 0 {
        assert all[i] == rows[i - 1];
      }
    }
  }

  /** One or more blocks separated by `sep`. */
  function ReadRows(layout: seq<string>, sep: string, s: string): (r: Option<(seq<seq<string>>, string)>)
    requires |layout| > 0 && |layout[0]| > 0
    ensures r.Some? ==> |r.value.1| <= |s|
    ensures r.Some? ==> Shaped(r.value.0, |layout| - 1)
    decreases |s|
  {
    var e :- ReadEntry(layout, s);
    match Skip(sep, e.1)
    case None => Some(([e.0], e.1))
    case Some(s1) =>
      var more :- ReadRows(layout, sep, s1);
      ShapedCons(e.0, more.0, |layout| - 1);
      Some(([e.0] + more.0, more.1))
  }

  /** A possibly empty list of blocks: empty when `s` does not start with a block. */
  function ReadBlock(layout: seq<string>, sep: string, s: string): (r: Option<(seq<seq<string>>, string)>)
    requires |layout| > 0 && |layout[0]| > 0
    ensures r.Some? ==> |r.value.1| <= |s|
    ensures r.Some? ==> Shaped(r.value.0, |layout| - 1)
  {
    if Skip(layout[0], s).None? then Some(([], s)) else ReadRows(layout, sep, s)
  }

  function ItemsOf(rows: seq<seq<string>>): seq<string>
    requires forall i :: 0 <= i < |rows| ==> |rows[i]| == 1
  {
    seq(|rows|, i requires 0 <= i < |rows| => rows[i][0])
  }

  function CardsOf(rows: seq<seq<string>>): seq<Card>
    requires forall i :: 0 <= i < |rows| ==> |rows[i]| == 2
  {
    seq(|rows|, i requires 0 <= i < |rows| => Card(rows[i][0], rows[i][1]))
  }

  function StepsOf(rows: seq<seq<string>>): seq<Step>
    requires forall i :: 0 <= i < |rows| ==> |rows[i]| == 3
  {
    seq(|rows|, i requires 0 <= i < |rows| => Step(rows[i][0], rows[i][1], rows[i][2]))
  }

  lemma {:induction false} EntryRoundTrip(layout: seq<string>, fields: seq<string>, rest: string)
    requires |layout| == |fields| + 1
    requires forall i :: 1 <= i < |layout| ==> StartsTag(layout[i])
    ensures ReadEntry(layout, Entry(layout, fields) + rest) == Some((fields, rest))
    decreases |fields|
  {
    if fields == [] {
      SkipLit(layout[0], rest);
    } else {
      TagsTail(layout);
      EntryRoundTrip(layout[1..], fields[1..], rest);
      EntryStep(layout, fields, rest);
    }
  }

  /** The literals after the first of a layout's tail still start tags. */
  lemma TagsTail(layout: seq<string>)
    requires |layout| > 0 && forall i :: 1 <= i < |layout| ==> StartsTag(layout[i])
    ensures forall i :: 1 <= i < |layout[1..]| ==> StartsTag(layout[1..][i])
  {
    assert forall i :: 1 <= i < |layout[1..]| ==> layout[1..][i] == layout[i + 1];
  }

  /** An entry reads back once the entry of its remaining fields does. */
  lemma EntryStep(layout: seq<string>, fields: seq<string>, rest: string)
    requires |layout| == |fields| + 1 && fields != [] && StartsTag(layout[1])
    requires ReadEntry(layout[1..], Entry(layout[1..], fields[1..]) + rest) == Some((fields[1..], rest))
    ensures ReadEntry(layout, Entry(layout, fields) + rest) == Some((fields, rest))
  {
    EntryCons(layout, fields, rest);
    EntryReadCons(layout, fields, Entry(layout[1..], fields[1..]) + rest, rest);
  }

  /** The first literal and an escaped field, followed by text holding the remaining fields. */
  lemma EntryReadCons(layout: seq<string>, fields: seq<string>, tail: string, rest: string)
    requires |layout| > 1 && fields != [] && StartsTag(tail)
    requires ReadEntry(layout[1..], tail) == Some((fields[1..], rest))
    ensures ReadEntry(layout, layout[0] + (EscapeHtml(fields[0]) + tail)) == Some((fields, rest))
  {
    var x := fields[0];
    SkipLit(layout[0], EscapeHtml(x) + tail);
    ReadEscapedBare(x, tail);
    EntryNext(layout, layout[0] + (EscapeHtml(x) + tail), EscapeHtml(x) + tail, x, tail, fields[1..], rest);
    HeadTail(fields);
  }

  /** A non-empty sequence is its first element followed by the rest. */
  lemma HeadTail(xs: seq<string>)
    requires xs != []
    ensures [xs[0]] + xs[1..] == xs
  {
  }

  /** An entry with fields is its first literal, the first field escaped and the rest. */
  lemma EntryCons(layout: seq<string>, fields: seq<string>, rest: string)
    requires |layout| == |fields| + 1 && fields != []
    requires StartsTag(layout[1])
    ensures var tail := Entry(layout[1..], fields[1..]) + rest;
      Entry(layout, fields) + rest == layout[0] + (EscapeHtml(fields[0]) + tail) && StartsTag(tail)
  {
    Regroup(layout[0], EscapeHtml(fields[0]), Entry(layout[1..], fields[1..]), rest);
    EntryStartsTag(layout[1..], fields[1..], rest);
  }

  /** Regrouping four concatenated strings. */
  lemma Regroup(a: string, b: string, c: string, d: string)
    ensures (a + (b + c)) + d == a + (b + (c + d))
  {
  }

  /** An entry starts with its first literal, so it starts a tag when that literal does. */
  lemma EntryStartsTag(layout: seq<string>, fields: seq<string>, rest: string)
    requires |layout| == |fields| + 1 && StartsTag(layout[0])
    ensures StartsTag(Entry(layout, fields) + rest)
  {
    var e := Entry(layout, fields);
    assert e[..|layout[0]|][0] == layout[0][0];
  }

  /** One field of an entry, then the entry's remaining fields. */
  lemma EntryNext(layout: seq<string>, s: string, s1: string, x: string, t: string, more: seq<string>, r: string)
    requires |layout| > 1 && Skip(layout[0], s) == Some(s1) && ReadEscaped(s1, "") == Some((x, t))
    requires ReadEntry(layout[1..], t) == Some((more, r))
    ensures ReadEntry(layout, s) == Some(([x] + more, r))
  {
  }

  lemma BlockShape(layout: seq<string>, rows: seq<seq<string>>, sep: string)
    requires forall i :: 0 <= i < |rows| ==> |layout| == |rows[i]| + 1
    ensures rows == [] ==> Block(layout, rows, sep) == ""
    ensures |rows| == 1 ==> Block(layout, rows, sep) == Entry(layout, rows[0])
    ensures |rows| > 1 ==>
      Block(layout, rows, sep) == Entry(layout, rows[0]) + sep + Block(layout, rows[1..], sep)
  {
    if rows != [] {
      var parts := Entries(layout, rows);
      assert parts[0] == Entry(layout, rows[0]) && parts[1..] == Entries(layout, rows[1..]);
    }
  }

  /** A block not followed by the separator ends the rows. */
  lemma RowsLast(layout: seq<string>, sep: string, s: string, fields: seq<string>, rest: string)
    requires |layout| > 0 && |layout[0]| > 0
    requires ReadEntry(layout, s) == Some((fields, rest)) && Skip(sep, rest) == None
    ensures ReadRows(layout, sep, s) == Some(([fields], rest))
  {
  }

  /** A block followed by the separator is followed by more rows. */
  lemma RowsNext(layout: seq<string>, sep: string, s: string, fields: seq<string>, t: string,
                 s1: string, more: seq<seq<string>>, rest: string)
    requires |layout| > 0 && |layout[0]| > 0
    requires ReadEntry(layout, s) == Some((fields, t)) && Skip(sep, t) == Some(s1)
    requires ReadRows(layout, sep, s1) == Some((more, rest))
    ensures ReadRows(layout, sep, s) == Some(([fields] + more, rest))
  {
  }

  lemma {:induction false} RowsRoundTrip(layout: seq<string>, sep: string, rows: seq<seq<string>>, rest: string)
    requires |layout| > 0 && StartsTag(layout[0])
    requires forall i :: 1 <= i < |layout| ==> StartsTag(layout[i])
    requires forall i :: 0 <= i < |rows| ==> |layout| == |rows[i]| + 1
    requires rows != [] && Skip(sep, rest) == None
    ensures ReadRows(layout, sep, Block(layout, rows, sep) + rest) == Some((rows, rest))
    decreases |rows|
  {
    BlockShape(layout, rows, sep);
    var s := Block(layout, rows, sep) + rest;
    var e := Entry(layout, rows[0]);
    if |rows| == 1 {
      assert s == e + rest;
      EntryRoundTrip(layout, rows[0], rest);
      RowsLast(layout, sep, s, rows[0], rest);
      assert [rows[0]] == rows;
    } else {
      var more := Block(layout, rows[1..], sep) + rest;
      Assoc(e + sep, Block(layout, rows[1..], sep), rest);
      Assoc(e, sep, more);
      assert s == e + (sep + more);
      EntryRoundTrip(layout, rows[0], sep + more);
      SkipLit(sep, more);
      RowsRoundTrip(layout, sep, rows[1..], rest);
      RowsNext(layout, sep, s, rows[0], sep + more, more, rows[1..], rest);
      assert [rows[0]] + rows[1..] == rows;
    }
  }

  /**
   * A list block reads back as its rows, in order, when what follows it starts neither
   * with the separator nor with a block.
   */
  lemma BlockRoundTrip(layout: seq<string>, sep: string, rows: seq<seq<string>>, rest: string)
    requires |layout| > 0 && StartsTag(layout[0])
    requires forall i :: 1 <= i < |layout| ==> StartsTag(layout[i])
    requires forall i :: 0 <= i < |rows| ==> |layout| == |rows[i]| + 1
    requires Skip(sep, rest) == None && Skip(layout[0], rest) == None
    ensures ReadBlock(layout, sep, Block(layout, rows, sep) + rest) == Some((rows, rest))
  {
    BlockShape(layout, rows, sep);
    if rows == [] {
      assert Block(layout, rows, sep) + rest == rest;
    } else {
      var e := Entry(layout, rows[0]);
      var after: string;
      if |rows| == 1 {
        after := rest;
      } else {
        after := sep + Block(layout, rows[1..], sep) + rest;
        Assoc(e + sep, Block(layout, rows[1..], sep), rest);
        Assoc(e, sep, Block(layout, rows[1..], sep) + rest);
        Assoc(sep, Block(layout, rows[1..], sep), rest);
      }
      assert Block(layout, rows, sep) + rest == e + after;
      assert e == layout[0] + e[|layout[0]|..];
      Assoc(layout[0], e[|layout[0]|..], after);
      SkipLit(layout[0], e[|layout[0]|..] + after);
      RowsRoundTrip(layout, sep, rows, rest);
    }
  }

  // ---------------------------------------------------------------------------------------
  // Walking the pieces of a template

  /** The pieces of a template from the `i`-th on, followed by `rest`. */
  function Tail(pieces: seq<string>, i: nat, rest: string): string
    requires i <= |pieces|
  {
    Concat(pieces[i..]) + rest
  }

  lemma TailCons(pieces: seq<string>, i: nat, rest: string)
    requires i < |pieces|
    ensures Tail(pieces, i, rest) == pieces[i] + Tail(pieces, i + 1, rest)
  {
    assert pieces[i..][1..] == pieces[i + 1..];
  }

  lemma TailEnd(pieces: seq<string>, rest: string)
    ensures Tail(pieces, |pieces|, rest) == rest
  {
    assert pieces[|pieces|..] == [];
  }

  lemma TailStartsTag(pieces: seq<string>, i: nat, rest: string)
    requires i < |pieces| && StartsTag(pieces[i])
    ensures StartsTag(Tail(pieces, i, rest))
  {
    TailCons(pieces, i, rest);
  }

  lemma StepSkip(pieces: seq<string>, i: nat, rest: string)
    requires i < |pieces|
    ensures Skip(pieces[i], Tail(pieces, i, rest)) == Some(Tail(pieces, i + 1, rest))
  {
    TailCons(pieces, i, rest);
    SkipLit(pieces[i], Tail(pieces, i + 1, rest));
  }

  /** `StepSkip` for a piece known to be the literal `lit`. */
  lemma StepSkipLit(lit: string, pieces: seq<string>, i: nat, rest: string)
    requires i < |pieces| && pieces[i] == lit
    ensures Skip(lit, Tail(pieces, i, rest)) == Some(Tail(pieces, i + 1, rest))
  {
    StepSkip(pieces, i, rest);
  }

  lemma StepMismatch(lit: string, pieces: seq<string>, i: nat, rest: string, k: nat)
    requires i < |pieces| && k < |lit| && k < |pieces[i]| && pieces[i][k] != lit[k]
    ensures Skip(lit, Tail(pieces, i, rest)) == None
  {
    TailCons(pieces, i, rest);
    SkipMismatch(lit, Tail(pieces, i, rest), k);
  }

  lemma StepField(pieces: seq<string>, i: nat, x: string, rest: string)
    requires i + 1 < |pieces| && pieces[i] == EscapeHtml(x) && StartsTag(pieces[i + 1])
    ensures ReadEscaped(Tail(pieces, i, rest), "") == Some((x, Tail(pieces, i + 1, rest)))
  {
    TailCons(pieces, i, rest);
    TailStartsTag(pieces, i + 1, rest);
    ReadEscapedBare(x, Tail(pieces, i + 1, rest));
  }

  lemma StepFieldThen(pieces: seq<string>, i: nat, x: string, w: string, rest: string)
    requires i + 2 < |pieces| && pieces[i] == EscapeHtml(x) && pieces[i + 1] == w
    requires '<' !in w && StartsTag(pieces[i + 2])
    ensures ReadEscaped(Tail(pieces, i, rest), w) == Some((x, Tail(pieces, i + 2, rest)))
  {
    TailCons(pieces, i, rest);
    TailCons(pieces, i + 1, rest);
    TailStartsTag(pieces, i + 2, rest);
    Assoc(EscapeHtml(x), w, Tail(pieces, i + 2, rest));
    ReadEscapedField(x, w, Tail(pieces, i + 2, rest));
  }

  lemma StepRaw(pieces: seq<string>, i: nat, rest: string)
    requires i + 1 < |pieces| && '<' !in pieces[i] && StartsTag(pieces[i + 1])
    ensures ReadText(Tail(pieces, i, rest)) == (pieces[i], Tail(pieces, i + 1, rest))
  {
    TailCons(pieces, i, rest);
    TailStartsTag(pieces, i + 1, rest);
    ReadTextSplit(pieces[i], Tail(pieces, i + 1, rest));
  }

  lemma StepOptional(pieces: seq<string>, i: nat, text: string, open: string, w: string,
                     close: string, rest: string, k: nat)
    requires i + 1 < |pieces| && pieces[i] == Optional(text, open, w, close)
    requires '<' !in w && StartsTag(close)
    requires k < |open| && k < |pieces[i + 1]| && pieces[i + 1][k] != open[k]
    ensures ReadOptional(open, w, close, Tail(pieces, i, rest)) == Some((Present(text), Tail(pieces, i + 1, rest)))
  {
    TailCons(pieces, i, rest);
    var after := Tail(pieces, i + 1, rest);
    if text == "" {
      assert Tail(pieces, i, rest) == after;
      StepMismatch(open, pieces, i + 1, rest, k);
    } else {
      assert Tail(pieces, i, rest) == open + (EscapeHtml(text) + w + (close + after));
      SkipLit(open, EscapeHtml(text) + w + (close + after));
      ReadEscapedField(text, w, close + after);
      SkipLit(close, after);
    }
  }

  lemma StepCenteredEnd(pieces: seq<string>, i: nat, text: string, open: string, w: string,
                        rest: string)
    requires i + 2 == |pieces| && pieces[i] == Optional(text, open, w, ParagraphClose)
    requires pieces[i + 1] == CenteredClose && '<' !in w && |open| > 0 && open[0] == '<'
    ensures ReadCenteredEnd(open, w, Tail(pieces, i, rest)) == Some((Present(text), rest))
  {
    StepOptional(pieces, i, text, open, w, ParagraphClose, rest, 0);
    StepSkip(pieces, i + 1, rest);
  }

  lemma StepBlock(pieces: seq<string>, i: nat, layout: seq<string>, sep: string,
                  rows: seq<seq<string>>, rest: string, k: nat, k0: nat)
    requires i + 1 < |pieces|
    requires |layout| > 0 && StartsTag(layout[0])
    requires forall j :: 1 <= j < |layout| ==> StartsTag(layout[j])
    requires forall j :: 0 <= j < |rows| ==> |layout| == |rows[j]| + 1
    requires pieces[i] == Block(layout, rows, sep)
    requires k < |sep| && k < |pieces[i + 1]| && pieces[i + 1][k] != sep[k]
    requires k0 < |layout[0]| && k0 < |pieces[i + 1]| && pieces[i + 1][k0] != layout[0][k0]
    ensures ReadBlock(layout, sep, Tail(pieces, i, rest)) == Some((rows, Tail(pieces, i + 1, rest)))
  {
    TailCons(pieces, i, rest);
    StepMismatch(sep, pieces, i + 1, rest, k);
    StepMismatch(layout[0], pieces, i + 1, rest, k0);
    BlockRoundTrip(layout, sep, rows, Tail(pieces, i + 1, rest));
  }

  // ---------------------------------------------------------------------------------------
  // Reading a fragment

  /** The opening tag, and whether it carries the ` active` class. */
  function ReadOpen(s: string): (r: Option<(bool, string)>)
    ensures r.Some? ==> |r.value.1| < |s|
  {
    if Skip(Open(true), s).Some? then Some((true, Skip(Open(true), s).value))
    else
      var s1 :- Skip(Open(false), s);
      Some((false, s1))
  }

  /** Reads one fragment: whether it is the active one, what it shows, and what follows it. */
  function ReadSlide(v: Variant, s: string): (r: Option<(bool, Shown, string)>)
    ensures r.Some? ==> |r.value.2| < |s|
  {
    var o :- ReadOpen(s);
    var s1 :- Skip(Indent, o.1);
    var b :- ReadBody(v, s1);
    Some((o.0, b.0, b.1))
  }

  function ReadBody(v: Variant, s: string): (r: Option<(Shown, string)>)
    ensures r.Some? ==> |r.value.1| <= |s|
  {
    if Skip(HeadingOpen, s).Some? then ReadHeaded(Skip(HeadingOpen, s).value)
    else if Skip(QuoteOpen, s).Some? then ReadQuote(v, Skip(QuoteOpen, s).value)
    else
      var s1 :- Skip(CenteredOpen, s);
      ReadCentered(s1)
  }

  /** The two centred layouts, told apart by their first tag. */
  function ReadCentered(s: string): (r: Option<(Shown, string)>)
    ensures r.Some? ==> |r.value.1| <= |s|
  {
    if Skip(EmojiOpen, s).Some? then ReadTitle(Skip(EmojiOpen, s).value)
    else
      var s1 :- Skip(HeadingOpen, s);
      ReadConclusion(s1)
  }

  /** The optional closing paragraph of a centred layout, and the end of the layout. */
  function ReadCenteredEnd(open: string, w: string, s: string): (r: Option<(Option<string>, string)>)
    ensures r.Some? ==> |r.value.1| <= |s|
  {
    var sub :- ReadOptional(open, w, ParagraphClose, s);
    var s1 :- Skip(CenteredClose, sub.1);
    Some((sub.0, s1))
  }

  function ReadTitle(s: string): (r: Option<(Shown, string)>)
    ensures r.Some? ==> |r.value.1| <= |s|
  {
    var emoji := ReadText(s);
    var s1 :- Skip(EmojiClose, emoji.1);
    var heading :- ReadEscaped(s1, "");
    var s2 :- Skip(TitleClose, heading.1);
    var sub :- ReadCenteredEnd(SubheadingOpen, "", s2);
    Some((TitleShown(emoji.0, heading.0, sub.0), sub.1))
  }

  function ReadConclusion(s: string): (r: Option<(Shown, string)>)
    ensures r.Some? ==> |r.value.1| <= |s|
  {
    var heading :- ReadEscaped(s, "");
    var s1 :- Skip(MessageOpen, heading.1);
    var message :- ReadEscaped(s1, ListIndent);
    var s2 :- Skip(MessageClose, message.1);
    var sub :- ReadCenteredEnd(SubmessageOpen, ListIndent, s2);
    Some((ConclusionShown(heading.0, message.0, sub.0), sub.1))
  }

  function ReadQuote(v: Variant, s: string): (r: Option<(Shown, string)>)
    ensures r.Some? ==> |r.value.1| <= |s|
  {
    var quote :- ReadEscaped(s, QuoteMark);
    var s1 :- Skip(AuthorOpen, quote.1);
    var s2 :- Skip(v.authorPrefix, s1);
    var author :- ReadEscaped(s2, "");
    var s3 :- Skip(QuoteClose, author.1);
    Some((QuoteShown(quote.0, author.0), s3))
  }

  /** The layouts that start with a heading. */
  function ReadHeaded(s: string): (r: Option<(Shown, string)>)
    ensures r.Some? ==> |r.value.1| <= |s|
  {
    var heading :- ReadEscaped(s, "");
    var s1 :- Skip(HeadingClose, heading.1);
    ReadLayout(heading.0, s1)
  }

  /** What follows a heading, told apart by its first literal. */
  function ReadLayout(heading: string, s1: string): (r: Option<(Shown, string)>)
    ensures r.Some? ==> |r.value.1| <= |s1|
  {
    if Skip(BulletsOpen, s1).Some? then
      var items :- ReadBlock(ItemLayout, ListIndent, Skip(BulletsOpen, s1).value);
      var s2 :- Skip(BulletsClose, items.1);
      Some((BulletsShown(heading, ItemsOf(items.0)), s2))
    else if Skip(Grid2x2Open, s1).Some? then
      var cards :- ReadBlock(CardLayout, ListIndent, Skip(Grid2x2Open, s1).value);
      var s2 :- Skip(BlockClose, cards.1);
      Some((Grid2x2Shown(heading, CardsOf(cards.0)), s2))
    else if Skip(Grid3ColOpen, s1).Some? then
      var cards :- ReadBlock(CardLayout, ListIndent, Skip(Grid3ColOpen, s1).value);
      var s2 :- Skip(BlockClose, cards.1);
      Some((Grid3ColShown(heading, CardsOf(cards.0)), s2))
    else if Skip(ColumnsOpen, s1).Some? then
      ReadColumns(heading, Skip(ColumnsOpen, s1).value)
    else if Skip(StepsOpen, s1).Some? then
      var steps :- ReadBlock(StepLayout, ListIndent, Skip(StepsOpen, s1).value);
      var s2 :- Skip(BlockClose, steps.1);
      Some((NumberedShown(heading, StepsOf(steps.0)), s2))
    else
      var s2 :- Skip(UnsupportedOpen, s1);
      var kind := ReadText(s2);
      var s3 :- Skip(UnsupportedClose, kind.1);
      Some((UnsupportedShown(heading, kind.0), s3))
  }

  function ReadColumns(heading: string, s: string): (r: Option<(Shown, string)>)
    ensures r.Some? ==> |r.value.1| <= |s|
  {
    var left :- ReadColumn(s);
    var s1 :- Skip(SecondColumnOpen, left.2);
    var right :- ReadColumn(s1);
    var s2 :- Skip(ColumnsClose, right.2);
    Some((TwoColumnShown(heading, left.0, left.1, right.0, right.1), s2))
  }

  /** One column: its title, its items and what follows the column. */
  function ReadColumn(s: string): (r: Option<(string, seq<string>, string)>)
    ensures r.Some? ==> |r.value.2| <= |s|
  {
    var title :- ReadEscaped(s, "");
    var s1 :- Skip(ColumnListOpen, title.1);
    var items :- ReadBlock(ItemLayout, ColumnIndent, s1);
    var s2 :- Skip(ColumnClose, items.1);
    Some((title.0, ItemsOf(items.0), s2))
  }

  // ---------------------------------------------------------------------------------------
  // Each layout reads back as what it shows

  /** A fragment reads back as its opening tag followed by what its body reads as. */
  lemma FragmentBack(v: Variant, isFirst: bool, open: string, body: seq<string>, rest: string,
                     shown: Shown)
    requires ReadBody(v, Tail([open] + body, 0, rest)) == Some((shown, rest))
    ensures ReadSlide(v, Fragment(isFirst, open, body) + rest) == Some((isFirst, shown, rest))
  {
    var p := [Open(isFirst), Indent, open] + body;
    DropTwo(Open(isFirst), Indent, open, body);
    OpenRead(p, isFirst, rest);
    StepSkipLit(Indent, p, 1, rest);
    SlideChosen(v, Tail(p, 0, rest), isFirst, Tail(p, 1, rest), Tail(p, 2, rest), shown, rest);
  }

  /** The pieces of a fragment after its first two. */
  lemma DropTwo(a: string, b: string, c: string, body: seq<string>)
    ensures ([a, b, c] + body)[0..] == [a, b, c] + body
    ensures ([a, b, c] + body)[2..] == ([c] + body)[0..]
  {
  }

  /** A slide is its opening tag, the indent and a body. */
  lemma SlideChosen(v: Variant, s: string, isFirst: bool, s1: string, s2: string, shown: Shown, rest: string)
    requires ReadOpen(s) == Some((isFirst, s1)) && Skip(Indent, s1) == Some(s2)
    requires ReadBody(v, s2) == Some((shown, rest))
    ensures ReadSlide(v, s) == Some((isFirst, shown, rest))
  {
  }

  /** The opening tag reads back as whether the slide is the first. */
  lemma OpenRead(p: seq<string>, isFirst: bool, rest: string)
    requires |p| > 1 && p[0] == Open(isFirst)
    ensures ReadOpen(Tail(p, 0, rest)) == Some((isFirst, Tail(p, 1, rest)))
  {
    StepSkipLit(Open(isFirst), p, 0, rest);
    if !isFirst {
      OpensDiffer();
      StepMismatch(Open(true), p, 0, rest, 17);
    }
    OpenChosen(Tail(p, 0, rest), isFirst, Tail(p, 1, rest));
  }

  /** The active tag is tried first; the plain one is accepted when it does not match. */
  lemma OpenChosen(s: string, isFirst: bool, s1: string)
    requires Skip(Open(isFirst), s) == Some(s1)
    requires !isFirst ==> Skip(Open(true), s) == None
    ensures ReadOpen(s) == Some((isFirst, s1))
  {
  }

  lemma HeadedBody(v: Variant, heading: string, body: seq<string>, rest: string, shown: Shown)
    requires |body| > 0 && StartsTag(body[0])
    requires ReadLayout(heading, Tail(body, 0, rest)) == Some((shown, rest))
    ensures ReadBody(v, Tail([HeadingOpen] + Headed(heading, body), 0, rest)) == Some((shown, rest))
  {
    DropThree(HeadingOpen, EscapeHtml(heading), HeadingClose, body);
    HeadedRead(v, [HeadingOpen] + Headed(heading, body), heading, body, rest, shown);
  }

  /** The pieces of a headed body after its first three. */
  lemma DropThree(a: string, b: string, c: string, body: seq<string>)
    ensures var p := [a] + ([b, c] + body);
      |p| == |body| + 3 && p[0] == a && p[1] == b && p[2] == c && p[3..] == body[0..]
  {
  }

  /** Pieces laid out as a heading followed by a layout read back as that layout. */
  lemma HeadedRead(v: Variant, p: seq<string>, heading: string, body: seq<string>, rest: string, shown: Shown)
    requires |p| == |body| + 3 && |body| > 0 && StartsTag(body[0])
    requires p[0] == HeadingOpen && p[1] == EscapeHtml(heading) && p[2] == HeadingClose && p[3..] == body[0..]
    requires ReadLayout(heading, Tail(body, 0, rest)) == Some((shown, rest))
    ensures ReadBody(v, Tail(p, 0, rest)) == Some((shown, rest))
  {
    assert StartsTag(HeadingClose);
    StepSkipLit(HeadingOpen, p, 0, rest);
    StepField(p, 1, heading, rest);
    StepSkipLit(HeadingClose, p, 2, rest);
    HeadedChosen(v, Tail(p, 0, rest), Tail(p, 1, rest), Tail(p, 2, rest), Tail(p, 3, rest), heading, shown, rest);
  }

  /** A body that starts with a heading tag is read as the heading and a layout. */
  lemma HeadedChosen(v: Variant, s: string, s1: string, s2: string, s3: string, heading: string,
                     shown: Shown, rest: string)
    requires Skip(HeadingOpen, s) == Some(s1) && ReadEscaped(s1, "") == Some((heading, s2))
    requires Skip(HeadingClose, s2) == Some(s3) && ReadLayout(heading, s3) == Some((shown, rest))
    ensures ReadBody(v, s) == Some((shown, rest))
  {
  }

  /** A layout that starts with a heading reads back as the heading and what its layout shows. */
  lemma HeadedBack(v: Variant, isFirst: bool, heading: string, body: seq<string>, rest: string,
                   shown: Shown)
    requires |body| > 0 && StartsTag(body[0])
    requires ReadLayout(heading, Tail(body, 0, rest)) == Some((shown, rest))
    ensures ReadSlide(v, Fragment(isFirst, HeadingOpen, Headed(heading, body)) + rest)
      == Some((isFirst, shown, rest))
  {
    HeadedBody(v, heading, body, rest, shown);
    FragmentBack(v, isFirst, HeadingOpen, Headed(heading, body), rest, shown);
  }

  /** A quote and its author read back from any pieces laid out as the quote body. */
  lemma QuoteRead(v: Variant, b: seq<string>, quote: string, author: string, rest: string)
    requires |b| == 6 && b[0] == EscapeHtml(quote) && b[1] == QuoteMark && b[2] == AuthorOpen
    requires b[3] == v.authorPrefix && b[4] == EscapeHtml(author) && b[5] == QuoteClose
    ensures ReadQuote(v, Tail(b, 0, rest)) == Some((QuoteShown(quote, author), rest))
  {
    assert '<' !in QuoteMark && StartsTag(AuthorOpen) && StartsTag(QuoteClose);
    StepFieldThen(b, 0, quote, QuoteMark, rest);
    StepSkipLit(AuthorOpen, b, 2, rest);
    StepSkipLit(v.authorPrefix, b, 3, rest);
    StepField(b, 4, author, rest);
    StepSkipLit(QuoteClose, b, 5, rest);
    TailEnd(b, rest);
  }

  lemma QuoteFields(v: Variant, r: SlideRecord, rest: string)
    ensures ReadQuote(v, Tail(QuoteBody(v, r), 0, rest)) == Some((QuoteShown(r.quote, r.author), rest))
  {
    QuoteRead(v, QuoteBody(v, r), r.quote, r.author, rest);
  }

  lemma QuoteBack(v: Variant, r: SlideRecord, isFirst: bool, rest: string)
    ensures ReadSlide(v, QuoteSlide(v, r, isFirst) + rest)
      == Some((isFirst, QuoteShown(r.quote, r.author), rest))
  {
    var p := [QuoteOpen] + QuoteBody(v, r);
    var shown := QuoteShown(r.quote, r.author);
    assert p[1..] == QuoteBody(v, r)[0..];
    CenteredDiffers();
    StepMismatch(HeadingOpen, p, 0, rest, 1);
    StepSkipLit(QuoteOpen, p, 0, rest);
    QuoteFields(v, r, rest);
    QuoteChosen(v, Tail(p, 0, rest), Tail(p, 1, rest), shown, rest);
    FragmentBack(v, isFirst, QuoteOpen, QuoteBody(v, r), rest, shown);
  }

  /** A body that starts with the quote opening is read as a quote. */
  lemma QuoteChosen(v: Variant, s: string, s1: string, shown: Shown, rest: string)
    requires Skip(HeadingOpen, s) == None && Skip(QuoteOpen, s) == Some(s1)
    requires ReadQuote(v, s1) == Some((shown, rest))
    ensures ReadBody(v, s) == Some((shown, rest))
  {
  }

  /** The centred layout's opening is neither a heading nor a quote. */
  lemma CenteredDiffers()
    ensures |CenteredOpen| > 5 && |QuoteOpen| > 5
    ensures CenteredOpen[1] != HeadingOpen[1] && CenteredOpen[5] != QuoteOpen[5]
    ensures QuoteOpen[1] != HeadingOpen[1]
  {
  }

  lemma CenteredBack(v: Variant, body: seq<string>, rest: string, shown: Shown)
    requires ReadCentered(Tail(body, 0, rest)) == Some((shown, rest))
    ensures ReadBody(v, Tail([CenteredOpen] + body, 0, rest)) == Some((shown, rest))
  {
    var p := [CenteredOpen] + body;
    assert p[1..] == body[0..];
    CenteredDiffers();
    StepMismatch(HeadingOpen, p, 0, rest, 1);
    StepMismatch(QuoteOpen, p, 0, rest, 5);
    StepSkipLit(CenteredOpen, p, 0, rest);
    CenteredChosen(v, Tail(p, 0, rest), Tail(p, 1, rest), shown, rest);
  }

  /** A body that starts with the centred opening is read as a centred layout. */
  lemma CenteredChosen(v: Variant, s: string, s1: string, shown: Shown, rest: string)
    requires Skip(HeadingOpen, s) == None && Skip(QuoteOpen, s) == None
    requires Skip(CenteredOpen, s) == Some(s1) && ReadCentered(s1) == Some((shown, rest))
    ensures ReadBody(v, s) == Some((shown, rest))
  {
  }

  /** The emoji, heading and subheading read back from pieces laid out as a title body. */
  lemma TitleRead(b: seq<string>, emoji: string, heading: string, sub: string, rest: string)
    requires |b| == 7 && b[1] == emoji && '<' !in emoji && b[2] == EmojiClose
    requires b[3] == EscapeHtml(heading) && b[4] == TitleClose
    requires b[5] == Optional(sub, SubheadingOpen, "", ParagraphClose) && b[6] == CenteredClose
    ensures ReadTitle(Tail(b, 1, rest)) == Some((TitleShown(emoji, heading, Present(sub)), rest))
  {
    assert StartsTag(EmojiClose) && StartsTag(TitleClose) && SubheadingOpen[0] == '<';
    StepRaw(b, 1, rest);
    StepSkipLit(EmojiClose, b, 2, rest);
    StepField(b, 3, heading, rest);
    StepSkipLit(TitleClose, b, 4, rest);
    StepCenteredEnd(b, 5, sub, SubheadingOpen, "", rest);
  }

  lemma TitleFields(v: Variant, r: SlideRecord, rest: string)
    requires '<' !in ShownEmoji(v, r)
    ensures ReadTitle(Tail(TitleBody(v, r), 1, rest))
      == Some((TitleShown(ShownEmoji(v, r), r.heading, Present(r.subheading)), rest))
  {
    TitleRead(TitleBody(v, r), ShownEmoji(v, r), r.heading, r.subheading, rest);
  }

  /** A centred body that starts with the emoji is read as a title. */
  lemma TitleChosen(s: string, s1: string, shown: Shown, rest: string)
    requires Skip(EmojiOpen, s) == Some(s1) && ReadTitle(s1) == Some((shown, rest))
    ensures ReadCentered(s) == Some((shown, rest))
  {
  }

  lemma TitleBack(v: Variant, r: SlideRecord, isFirst: bool, rest: string)
    requires '<' !in ShownEmoji(v, r)
    ensures ReadSlide(v, TitleSlide(v, r, isFirst) + rest)
      == Some((isFirst, TitleShown(ShownEmoji(v, r), r.heading, Present(r.subheading)), rest))
  {
    var b := TitleBody(v, r);
    var shown := TitleShown(ShownEmoji(v, r), r.heading, Present(r.subheading));
    TitleFields(v, r, rest);
    StepSkipLit(EmojiOpen, b, 0, rest);
    TitleChosen(Tail(b, 0, rest), Tail(b, 1, rest), shown, rest);
    CenteredBack(v, b, rest, shown);
    FragmentBack(v, isFirst, CenteredOpen, b, rest, shown);
  }


  /** The heading, message and submessage read back from pieces laid out as a conclusion body. */
  lemma ConclusionRead(b: seq<string>, heading: string, message: string, sub: string, rest: string)
    requires |b| == 8 && b[1] == EscapeHtml(heading) && b[2] == MessageOpen
    requires b[3] == EscapeHtml(message) && b[4] == ListIndent && b[5] == MessageClose
    requires b[6] == Optional(sub, SubmessageOpen, ListIndent, ParagraphClose) && b[7] == CenteredClose
    ensures ReadConclusion(Tail(b, 1, rest)) == Some((ConclusionShown(heading, message, Present(sub)), rest))
  {
    assert StartsTag(MessageOpen) && StartsTag(MessageClose) && '<' !in ListIndent;
    assert SubmessageOpen[0] == '<';
    StepField(b, 1, heading, rest);
    StepSkipLit(MessageOpen, b, 2, rest);
    StepFieldThen(b, 3, message, ListIndent, rest);
    StepSkipLit(MessageClose, b, 5, rest);
    StepCenteredEnd(b, 6, sub, SubmessageOpen, ListIndent, rest);
  }

  /** The heading tag and the emoji tag differ early. */
  lemma HeadingNotEmoji()
    ensures |HeadingOpen| > 1 && |EmojiOpen| > 1 && HeadingOpen[1] != EmojiOpen[1]
  {
  }

  /** The conclusion reader takes over once the heading tag is recognised. */
  lemma ConclusionChosen(s: string, s1: string, rest: string, shown: Shown)
    requires Skip(EmojiOpen, s) == None && Skip(HeadingOpen, s) == Some(s1)
    requires ReadConclusion(s1) == Some((shown, rest))
    ensures ReadCentered(s) == Some((shown, rest))
  {
  }

  /** Pieces laid out as a conclusion body read back as a centred layout. */
  lemma ConclusionCentered(b: seq<string>, heading: string, message: string, sub: string, rest: string)
    requires |b| == 8 && b[0] == HeadingOpen && b[1] == EscapeHtml(heading) && b[2] == MessageOpen
    requires b[3] == EscapeHtml(message) && b[4] == ListIndent && b[5] == MessageClose
    requires b[6] == Optional(sub, SubmessageOpen, ListIndent, ParagraphClose) && b[7] == CenteredClose
    ensures ReadCentered(Tail(b, 0, rest)) == Some((ConclusionShown(heading, message, Present(sub)), rest))
  {
    ConclusionRead(b, heading, message, sub, rest);
    ConclusionOpening(b, rest);
    ConclusionChosen(Tail(b, 0, rest), Tail(b, 1, rest), rest, ConclusionShown(heading, message, Present(sub)));
  }

  /** Pieces that start with the heading tag: the emoji tag is rejected, the heading tag taken. */
  lemma ConclusionOpening(b: seq<string>, rest: string)
    requires |b| > 1 && b[0] == HeadingOpen
    ensures Skip(EmojiOpen, Tail(b, 0, rest)) == None && Skip(HeadingOpen, Tail(b, 0, rest)) == Some(Tail(b, 1, rest))
  {
    HeadingNotEmoji();
    StepMismatch(EmojiOpen, b, 0, rest, 1);
    StepSkipLit(HeadingOpen, b, 0, rest);
  }

  /** A conclusion slide reads back as its heading, message and submessage. */
  lemma ConclusionBack(v: Variant, r: SlideRecord, isFirst: bool, rest: string)
    ensures ReadSlide(v, ConclusionSlide(r, isFirst) + rest)
      == Some((isFirst, ConclusionShown(r.heading, r.message, Present(r.submessage)), rest))
  {
    var b := ConclusionBody(r);
    var shown := ConclusionShown(r.heading, r.message, Present(r.submessage));
    ConclusionCentered(b, r.heading, r.message, r.submessage, rest);
    CenteredBack(v, b, rest, shown);
    FragmentBack(v, isFirst, CenteredOpen, b, rest, shown);
  }

  /** The openings of the layouts after a heading differ early. */
  lemma LayoutOpeningsDiffer()
    ensures |BulletsOpen| > 1 && |Grid2x2Open| > 17 && |Grid3ColOpen| > 17
    ensures |ColumnsOpen| > 12 && |StepsOpen| > 5 && |UnsupportedOpen| > 1
    ensures Grid2x2Open[1] != BulletsOpen[1] && Grid3ColOpen[1] != BulletsOpen[1]
    ensures ColumnsOpen[1] != BulletsOpen[1] && StepsOpen[1] != BulletsOpen[1]
    ensures UnsupportedOpen[1] != BulletsOpen[1] && Grid3ColOpen[17] != Grid2x2Open[17]
    ensures ColumnsOpen[12] != Grid2x2Open[12] && ColumnsOpen[12] != Grid3ColOpen[12]
    ensures StepsOpen[5] != Grid2x2Open[5] && StepsOpen[5] != Grid3ColOpen[5]
    ensures StepsOpen[5] != ColumnsOpen[5]
    ensures UnsupportedOpen[1] != Grid2x2Open[1] && UnsupportedOpen[1] != Grid3ColOpen[1]
    ensures UnsupportedOpen[1] != ColumnsOpen[1] && UnsupportedOpen[1] != StepsOpen[1]
  {
  }

  /** Every literal of the three block layouts starts a tag. */
  lemma LayoutTags()
    ensures forall j :: 0 <= j < |ItemLayout| ==> StartsTag(ItemLayout[j])
    ensures forall j :: 0 <= j < |CardLayout| ==> StartsTag(CardLayout[j])
    ensures forall j :: 0 <= j < |StepLayout| ==> StartsTag(StepLayout[j])
  {
  }

  /** The closings that follow a list, against the separator and the block opening. */
  lemma ClosingsDiffer()
    ensures |BulletsClose| > 5 && BulletsClose[5] != ListIndent[5] && BulletsClose[0] != '<'
    ensures |BlockClose| > 5 && BlockClose[5] != ListIndent[5] && BlockClose[0] != '<'
    ensures |ColumnClose| > 13 && ColumnClose[13] != ColumnIndent[13] && ColumnClose[0] != '<'
  {
  }

  /** A list layout reads back as its rows, up to the closing. */
  lemma ListBack(open: string, layout: seq<string>, rows: seq<seq<string>>, close: string, rest: string)
    requires |layout| > 0 && StartsTag(layout[0]) && forall j :: 0 <= j < |layout| ==> StartsTag(layout[j])
    requires forall i :: 0 <= i < |rows| ==> |layout| == |rows[i]| + 1
    requires |close| > 5 && close[5] != ListIndent[5] && close[0] != '<'
    ensures var b := ListBody(open, layout, rows, close);
      Skip(open, Tail(b, 0, rest)) == Some(Tail(b, 1, rest)) &&
      ReadBlock(layout, ListIndent, Tail(b, 1, rest)) == Some((rows, Tail(b, 2, rest))) &&
      Skip(close, Tail(b, 2, rest)) == Some(rest)
  {
    var b := ListBody(open, layout, rows, close);
    StepSkip(b, 0, rest);
    StepBlock(b, 1, layout, ListIndent, rows, rest, 5, 0);
    StepSkip(b, 2, rest);
  }

  lemma ItemsBack(items: seq<string>)
    ensures ItemsOf(ItemRows(items)) == items
  {
  }

  lemma CardsBack(cards: seq<Card>)
    ensures CardsOf(CardRows(cards)) == cards
  {
  }

  lemma StepsBack(steps: seq<Step>)
    ensures StepsOf(StepRows(steps)) == steps
  {
  }

  lemma BulletsLayout(heading: string, items: seq<string>, rest: string)
    ensures ReadLayout(heading, Tail(ListBody(BulletsOpen, ItemLayout, ItemRows(items), BulletsClose), 0, rest))
      == Some((BulletsShown(heading, items), rest))
  {
    LayoutTags();
    ClosingsDiffer();
    ListBack(BulletsOpen, ItemLayout, ItemRows(items), BulletsClose, rest);
    ItemsBack(items);
  }

  lemma Grid2x2Layout(heading: string, cards: seq<Card>, rest: string)
    ensures ReadLayout(heading, Tail(ListBody(Grid2x2Open, CardLayout, CardRows(cards), BlockClose), 0, rest))
      == Some((Grid2x2Shown(heading, cards), rest))
  {
    var b := ListBody(Grid2x2Open, CardLayout, CardRows(cards), BlockClose);
    LayoutOpeningsDiffer();
    StepMismatch(BulletsOpen, b, 0, rest, 1);
    LayoutTags();
    ClosingsDiffer();
    ListBack(Grid2x2Open, CardLayout, CardRows(cards), BlockClose, rest);
    CardsBack(cards);
  }

  lemma Grid3ColLayout(heading: string, cards: seq<Card>, rest: string)
    ensures ReadLayout(heading, Tail(ListBody(Grid3ColOpen, CardLayout, CardRows(cards), BlockClose), 0, rest))
      == Some((Grid3ColShown(heading, cards), rest))
  {
    var b := ListBody(Grid3ColOpen, CardLayout, CardRows(cards), BlockClose);
    LayoutOpeningsDiffer();
    StepMismatch(BulletsOpen, b, 0, rest, 1);
    StepMismatch(Grid2x2Open, b, 0, rest, 17);
    LayoutTags();
    ClosingsDiffer();
    ListBack(Grid3ColOpen, CardLayout, CardRows(cards), BlockClose, rest);
    CardsBack(cards);
  }

  lemma NumberedLayout(heading: string, steps: seq<Step>, rest: string)
    ensures ReadLayout(heading, Tail(ListBody(StepsOpen, StepLayout, StepRows(steps), BlockClose), 0, rest))
      == Some((NumberedShown(heading, steps), rest))
  {
    var b := ListBody(StepsOpen, StepLayout, StepRows(steps), BlockClose);
    LayoutOpeningsDiffer();
    StepMismatch(BulletsOpen, b, 0, rest, 1);
    StepMismatch(Grid2x2Open, b, 0, rest, 5);
    StepMismatch(Grid3ColOpen, b, 0, rest, 5);
    StepMismatch(ColumnsOpen, b, 0, rest, 5);
    LayoutTags();
    ClosingsDiffer();
    ListBack(StepsOpen, StepLayout, StepRows(steps), BlockClose, rest);
    StepsBack(steps);
  }

  lemma StepColumn(pieces: seq<string>, i: nat, title: string, items: seq<string>, rest: string)
    requires i + 4 < |pieces| && pieces[i] == EscapeHtml(title) && pieces[i + 1] == ColumnListOpen
    requires pieces[i + 2] == Block(ItemLayout, ItemRows(items), ColumnIndent)
    requires pieces[i + 3] == ColumnClose
    ensures ReadColumn(Tail(pieces, i, rest)) == Some((title, items, Tail(pieces, i + 4, rest)))
  {
    LayoutTags();
    ClosingsDiffer();
    StepField(pieces, i, title, rest);
    StepSkipLit(ColumnListOpen, pieces, i + 1, rest);
    StepBlock(pieces, i + 2, ItemLayout, ColumnIndent, ItemRows(items), rest, 13, 0);
    StepSkipLit(ColumnClose, pieces, i + 3, rest);
    ItemsBack(items);
  }

  /** Two columns read back from any pieces laid out as the two-column body. */
  lemma ColumnsRead(heading: string, b: seq<string>, leftTitle: string, leftItems: seq<string>,
                    rightTitle: string, rightItems: seq<string>, rest: string)
    requires |b| == 11 && b[5] == SecondColumnOpen && b[10] == ColumnsClose
    requires b[1] == EscapeHtml(leftTitle) && b[2] == ColumnListOpen && b[4] == ColumnClose
    requires b[3] == Block(ItemLayout, ItemRows(leftItems), ColumnIndent)
    requires b[6] == EscapeHtml(rightTitle) && b[7] == ColumnListOpen && b[9] == ColumnClose
    requires b[8] == Block(ItemLayout, ItemRows(rightItems), ColumnIndent)
    ensures ReadColumns(heading, Tail(b, 1, rest))
      == Some((TwoColumnShown(heading, leftTitle, leftItems, rightTitle, rightItems), rest))
  {
    StepColumn(b, 1, leftTitle, leftItems, rest);
    StepSkipLit(SecondColumnOpen, b, 5, rest);
    StepColumn(b, 6, rightTitle, rightItems, rest);
    StepSkipLit(ColumnsClose, b, 10, rest);
    TailEnd(b, rest);
  }

  lemma ColumnsFields(heading: string, leftTitle: string, leftItems: seq<string>,
                      rightTitle: string, rightItems: seq<string>, rest: string)
    ensures ReadColumns(heading, Tail(ColumnsBody(leftTitle, leftItems, rightTitle, rightItems), 1, rest))
      == Some((TwoColumnShown(heading, leftTitle, leftItems, rightTitle, rightItems), rest))
  {
    var b := ColumnsBody(leftTitle, leftItems, rightTitle, rightItems);
    ColumnsRead(heading, b, leftTitle, leftItems, rightTitle, rightItems, rest);
  }

  /** A body that opens as the two-column layout matches none of the earlier openings. */
  lemma ColumnsOpening(b: seq<string>, rest: string)
    requires |b| > 1 && b[0] == ColumnsOpen
    ensures Skip(BulletsOpen, Tail(b, 0, rest)) == None && Skip(Grid2x2Open, Tail(b, 0, rest)) == None
    ensures Skip(Grid3ColOpen, Tail(b, 0, rest)) == None
    ensures Skip(ColumnsOpen, Tail(b, 0, rest)) == Some(Tail(b, 1, rest))
  {
    LayoutOpeningsDiffer();
    StepMismatch(BulletsOpen, b, 0, rest, 1);
    StepMismatch(Grid2x2Open, b, 0, rest, 12);
    StepMismatch(Grid3ColOpen, b, 0, rest, 12);
    StepSkipLit(ColumnsOpen, b, 0, rest);
  }

  /** The column reader takes over once the two-column opening is recognised. */
  lemma ColumnsChosen(heading: string, s1: string)
    requires Skip(BulletsOpen, s1) == None && Skip(Grid2x2Open, s1) == None
    requires Skip(Grid3ColOpen, s1) == None && Skip(ColumnsOpen, s1).Some?
    ensures ReadLayout(heading, s1) == ReadColumns(heading, Skip(ColumnsOpen, s1).value)
  {
  }

  lemma TwoColumnLayout(heading: string, leftTitle: string, leftItems: seq<string>,
                        rightTitle: string, rightItems: seq<string>, rest: string)
    ensures ReadLayout(heading, Tail(ColumnsBody(leftTitle, leftItems, rightTitle, rightItems), 0, rest))
      == Some((TwoColumnShown(heading, leftTitle, leftItems, rightTitle, rightItems), rest))
  {
    var b := ColumnsBody(leftTitle, leftItems, rightTitle, rightItems);
    ColumnsOpening(b, rest);
    ColumnsChosen(heading, Tail(b, 0, rest));
    ColumnsFields(heading, leftTitle, leftItems, rightTitle, rightItems, rest);
  }

  lemma UnsupportedLayout(heading: string, kind: Option<string>, rest: string)
    requires '<' !in KindText(kind)
    ensures ReadLayout(heading, Tail(UnsupportedBody(kind), 0, rest))
      == Some((UnsupportedShown(heading, KindText(kind)), rest))
  {
    var b := UnsupportedBody(kind);
    LayoutOpeningsDiffer();
    StepMismatch(BulletsOpen, b, 0, rest, 1);
    StepMismatch(Grid2x2Open, b, 0, rest, 1);
    StepMismatch(Grid3ColOpen, b, 0, rest, 1);
    StepMismatch(ColumnsOpen, b, 0, rest, 1);
    StepMismatch(StepsOpen, b, 0, rest, 1);
    StepSkip(b, 0, rest);
    StepRaw(b, 1, rest);
    StepSkip(b, 2, rest);
  }

  // ---------------------------------------------------------------------------------------
  // Every fragment reads back as what its record is meant to show

  /**
   * The parts of a fragment that are inserted unescaped hold no `<`: the emoji of a title
   * slide and the tag printed by the catch-all fragment.
   */
  predicate Readable(v: Variant, r: SlideRecord)
  {
    (r.kind == Some("title") ==> '<' !in ShownEmoji(v, r)) &&
    ((r.kind.None? || r.kind.value !in KnownKinds) ==> '<' !in KindText(r.kind))
  }

  /**
   * The renderer fails exactly when the record is meant to fail, with the same error, and
   * otherwise produces a fragment that reads back as what the record is meant to show,
   * marked active exactly when it is the first, whatever follows it.
   */
  predicate ReadsBack(v: Variant, r: SlideRecord, isFirst: bool, rest: string)
  {
    var g := GenerateSlide(v, r, isFirst);
    (g.Err? <==> View(v, r).Err?) &&
    (g.Err? ==> g.error == View(v, r).error) &&
    (g.Ok? ==> ReadSlide(v, g.value + rest) == Some((isFirst, View(v, r).value, rest)))
  }

  /** Every readable record's fragment reads back as what the record is meant to show. */
  lemma SlideReadBack(v: Variant, r: SlideRecord, isFirst: bool, rest: string)
    requires Readable(v, r)
    ensures ReadsBack(v, r, isFirst, rest)
  {
    if r.kind == Some("title") {
      TitleCase(v, r, isFirst, rest);
    } else if r.kind == Some("bullets") {
      BulletsCase(v, r, isFirst, rest);
    } else if r.kind == Some("grid-2x2") {
      Grid2x2Case(v, r, isFirst, rest);
    } else if r.kind == Some("grid-3col") {
      Grid3ColCase(v, r, isFirst, rest);
    } else if r.kind == Some("two-column") {
      TwoColumnCase(v, r, isFirst, rest);
    } else if r.kind == Some("quote") {
      QuoteCase(v, r, isFirst, rest);
    } else if r.kind == Some("numbered") {
      NumberedCase(v, r, isFirst, rest);
    } else if r.kind == Some("conclusion") {
      ConclusionCase(v, r, isFirst, rest);
    } else {
      DefaultCase(v, r, isFirst, rest);
    }
  }

  lemma TitleCase(v: Variant, r: SlideRecord, isFirst: bool, rest: string)
    requires r.kind == Some("title")
    requires '<' !in ShownEmoji(v, r)
    ensures ReadsBack(v, r, isFirst, rest)
  {
    assert GenerateSlide(v, r, isFirst) == Ok(TitleSlide(v, r, isFirst));
    assert View(v, r) == Ok(TitleShown(ShownEmoji(v, r), r.heading, Present(r.subheading)));
    TitleBack(v, r, isFirst, rest);
  }

  lemma BulletsCase(v: Variant, r: SlideRecord, isFirst: bool, rest: string)
    requires r.kind == Some("bullets")
    ensures ReadsBack(v, r, isFirst, rest)
  {
    assert GenerateSlide(v, r, isFirst) == BulletsSlide(r, isFirst);
    assert View(v, r) == if r.items.None? then Err(MissingList("items"))
      else Ok(BulletsShown(r.heading, r.items.value));
    if r.items.Some? {
      BulletsBack(v, r, isFirst, rest);
    }
  }

  lemma Grid2x2Case(v: Variant, r: SlideRecord, isFirst: bool, rest: string)
    requires r.kind == Some("grid-2x2")
    ensures ReadsBack(v, r, isFirst, rest)
  {
    assert GenerateSlide(v, r, isFirst) == Grid2x2Slide(r, isFirst);
    assert View(v, r) == if r.cards.None? then Err(MissingList("cards"))
      else Ok(Grid2x2Shown(r.heading, r.cards.value));
    if r.cards.Some? {
      Grid2x2Back(v, r, isFirst, rest);
    }
  }

  lemma Grid3ColCase(v: Variant, r: SlideRecord, isFirst: bool, rest: string)
    requires r.kind == Some("grid-3col")
    ensures ReadsBack(v, r, isFirst, rest)
  {
    assert GenerateSlide(v, r, isFirst) == Grid3ColSlide(r, isFirst);
    assert View(v, r) == if r.cards.None? then Err(MissingList("cards"))
      else Ok(Grid3ColShown(r.heading, r.cards.value));
    if r.cards.Some? {
      Grid3ColBack(v, r, isFirst, rest);
    }
  }

  lemma TwoColumnCase(v: Variant, r: SlideRecord, isFirst: bool, rest: string)
    requires r.kind == Some("two-column")
    ensures ReadsBack(v, r, isFirst, rest)
  {
    assert GenerateSlide(v, r, isFirst) == TwoColumnSlide(r, isFirst);
    if r.left.Some? && r.left.value.items.Some? && r.right.Some? && r.right.value.items.Some? {
      assert View(v, r) == Ok(TwoColumnShown(r.heading, r.left.value.title, r.left.value.items.value,
        r.right.value.title, r.right.value.items.value));
      TwoColumnBack(v, r, isFirst, rest);
    }
  }

  lemma QuoteCase(v: Variant, r: SlideRecord, isFirst: bool, rest: string)
    requires r.kind == Some("quote")
    ensures ReadsBack(v, r, isFirst, rest)
  {
    assert GenerateSlide(v, r, isFirst) == Ok(QuoteSlide(v, r, isFirst));
    assert View(v, r) == Ok(QuoteShown(r.quote, r.author));
    QuoteBack(v, r, isFirst, rest);
  }

  lemma NumberedCase(v: Variant, r: SlideRecord, isFirst: bool, rest: string)
    requires r.kind == Some("numbered")
    ensures ReadsBack(v, r, isFirst, rest)
  {
    assert GenerateSlide(v, r, isFirst) == NumberedSlide(r, isFirst);
    assert View(v, r) == if r.steps.None? then Err(MissingList("steps"))
      else Ok(NumberedShown(r.heading, r.steps.value));
    if r.steps.Some? {
      NumberedBack(v, r, isFirst, rest);
    }
  }

  lemma ConclusionCase(v: Variant, r: SlideRecord, isFirst: bool, rest: string)
    requires r.kind == Some("conclusion")
    ensures ReadsBack(v, r, isFirst, rest)
  {
    assert GenerateSlide(v, r, isFirst) == Ok(ConclusionSlide(r, isFirst));
    assert View(v, r) == Ok(ConclusionShown(r.heading, r.message, Present(r.submessage)));
    ConclusionBack(v, r, isFirst, rest);
  }

  lemma DefaultCase(v: Variant, r: SlideRecord, isFirst: bool, rest: string)
    requires r.kind.None? || r.kind.value !in KnownKinds
    requires '<' !in KindText(r.kind)
    ensures ReadsBack(v, r, isFirst, rest)
  {
    assert GenerateSlide(v, r, isFirst) == Ok(DefaultSlide(r, isFirst));
    assert View(v, r) == Ok(UnsupportedShown(DefaultHeading(r.heading), KindText(r.kind)));
    DefaultBack(v, r, isFirst, rest);
  }

  lemma BulletsBack(v: Variant, r: SlideRecord, isFirst: bool, rest: string)
    requires r.items.Some?
    ensures BulletsSlide(r, isFirst).Ok?
    ensures ReadSlide(v, BulletsSlide(r, isFirst).value + rest)
      == Some((isFirst, BulletsShown(r.heading, r.items.value), rest))
  {
    BulletsLayout(r.heading, r.items.value, rest);
    HeadedBack(v, isFirst, r.heading, ListBody(BulletsOpen, ItemLayout, ItemRows(r.items.value), BulletsClose),
      rest, BulletsShown(r.heading, r.items.value));
  }

  lemma Grid2x2Back(v: Variant, r: SlideRecord, isFirst: bool, rest: string)
    requires r.cards.Some?
    ensures Grid2x2Slide(r, isFirst).Ok?
    ensures ReadSlide(v, Grid2x2Slide(r, isFirst).value + rest)
      == Some((isFirst, Grid2x2Shown(r.heading, r.cards.value), rest))
  {
    Grid2x2Layout(r.heading, r.cards.value, rest);
    HeadedBack(v, isFirst, r.heading, ListBody(Grid2x2Open, CardLayout, CardRows(r.cards.value), BlockClose),
      rest, Grid2x2Shown(r.heading, r.cards.value));
  }

  lemma Grid3ColBack(v: Variant, r: SlideRecord, isFirst: bool, rest: string)
    requires r.cards.Some?
    ensures Grid3ColSlide(r, isFirst).Ok?
    ensures ReadSlide(v, Grid3ColSlide(r, isFirst).value + rest)
      == Some((isFirst, Grid3ColShown(r.heading, r.cards.value), rest))
  {
    Grid3ColLayout(r.heading, r.cards.value, rest);
    HeadedBack(v, isFirst, r.heading, ListBody(Grid3ColOpen, CardLayout, CardRows(r.cards.value), BlockClose),
      rest, Grid3ColShown(r.heading, r.cards.value));
  }

  lemma TwoColumnBack(v: Variant, r: SlideRecord, isFirst: bool, rest: string)
    requires r.left.Some? && r.left.value.items.Some? && r.right.Some? && r.right.value.items.Some?
    ensures TwoColumnSlide(r, isFirst).Ok?
    ensures ReadSlide(v, TwoColumnSlide(r, isFirst).value + rest)
      == Some((isFirst, TwoColumnShown(r.heading, r.left.value.title, r.left.value.items.value,
                                       r.right.value.title, r.right.value.items.value), rest))
  {
    var left, right := r.left.value, r.right.value;
    var shown := TwoColumnShown(r.heading, left.title, left.items.value, right.title, right.items.value);
    TwoColumnLayout(r.heading, left.title, left.items.value, right.title, right.items.value, rest);
    HeadedBack(v, isFirst, r.heading, ColumnsBody(left.title, left.items.value, right.title, right.items.value),
      rest, shown);
  }

  lemma NumberedBack(v: Variant, r: SlideRecord, isFirst: bool, rest: string)
    requires r.steps.Some?
    ensures NumberedSlide(r, isFirst).Ok?
    ensures ReadSlide(v, NumberedSlide(r, isFirst).value + rest)
      == Some((isFirst, NumberedShown(r.heading, r.steps.value), rest))
  {
    NumberedLayout(r.heading, r.steps.value, rest);
    HeadedBack(v, isFirst, r.heading, ListBody(StepsOpen, StepLayout, StepRows(r.steps.value), BlockClose),
      rest, NumberedShown(r.heading, r.steps.value));
  }

  lemma DefaultBack(v: Variant, r: SlideRecord, isFirst: bool, rest: string)
    requires '<' !in KindText(r.kind)
    ensures ReadSlide(v, DefaultSlide(r, isFirst) + rest)
      == Some((isFirst, UnsupportedShown(DefaultHeading(r.heading), KindText(r.kind)), rest))
  {
    UnsupportedLayout(DefaultHeading(r.heading), r.kind, rest);
    HeadedBack(v, isFirst, DefaultHeading(r.heading), UnsupportedBody(r.kind), rest,
      UnsupportedShown(DefaultHeading(r.heading), KindText(r.kind)));
  }
}
