/**
 * Assembling a presentation: the theme is resolved first, then every slide record is
 * rendered (the one at index 0 as the active one), the fragments are joined with the
 * variant's separator, and the three placeholders of the base template are filled in.
 * The theme table and the base template are parameters: reading them from disk is not part
 * of this model.
 */
module Presentation {
  import opened Wrappers
  import opened Text
  import opened Escape
  import opened Themes
  import opened Slides
  import opened Reader

  /**
   * The JSON document: its title (`""` when absent or falsy) and its list of slide records
   * (`None` when the field is absent).
   */
  datatype Document = Document(title: string, slides: Option<seq<SlideRecord>>)

  const TitleSlot := "{{TITLE}}"
  const ClassSlot := "{{THEME_CLASS}}"
  const SlidesSlot := "{{SLIDES_HTML}}"

  /** The theme a caller of the command-line generator gets when it names none. */
  const DefaultThemeName := "Dark" + " " + "Tech"

  /** `slideData.title || 'Presentation'`. */
  function PageTitle(title: string): (t: string)
    ensures t != ""
    ensures title != "" ==> t == title
  {
    if title != "" then title else "Presentation"
  }

  /**
   * What `generateSlide` gives for each record, the one at index 0 rendered as the active
   * one, in the order of the records.
   */
  function Outcomes(v: Variant, slides: seq<SlideRecord>): (o: seq<Result<string, Failure>>)
    ensures |o| == |slides|
    ensures forall i :: 0 <= i < |slides| ==> o[i] == GenerateSlide(v, slides[i], i == 0)
  {
    seq(|slides|, i requires 0 <= i < |slides| => GenerateSlide(v, slides[i], i == 0))
  }

  /**
   * `map` over the outcomes: the fragments in order, or the first failure, which stops the
   * whole list.
   */
  function Collect(outcomes: seq<Result<string, Failure>>): (r: Result<seq<string>, Failure>)
    ensures r.Ok? <==> forall i :: 0 <= i < |outcomes| ==> outcomes[i].Ok?
    ensures r.Ok? ==> |r.value| == |outcomes|
    ensures r.Ok? ==> forall i :: 0 <= i < |outcomes| ==> r.value[i] == outcomes[i].value
  {
    if outcomes == [] then Ok([])
    else
      var first :- outcomes[0];
      var others :- Collect(outcomes[1..]);
      Ok([first] + others)
  }

  /** A failing list reports the error of its first failing outcome. */
  lemma {:induction false} CollectFailsAtFirst(outcomes: seq<Result<string, Failure>>)
    requires Collect(outcomes).Err?
    ensures exists i :: 0 <= i < |outcomes| && outcomes[i] == Err(Collect(outcomes).error) &&
                        forall j :: 0 <= j < i ==> outcomes[j].Ok?
  {
    if outcomes[0].Ok? {
      CollectFailsAtFirst(outcomes[1..]);
      var k :| 0 <= k < |outcomes| - 1 && outcomes[1..][k] == Err(Collect(outcomes[1..]).error) &&
        forall j :: 0 <= j < k ==> outcomes[1..][j].Ok?;
      assert outcomes[k + 1] == outcomes[1..][k];
      forall j | 0 <= j < k + 1 ensures outcomes[j].Ok? {
        if j > 0 {
          assert outcomes[j] == outcomes[1..][j - 1];
        }
      }
    }
  }

  /**
   * The verbatim substitution of the three placeholders, each at its first occurrence; a
   * template holding none of them is returned unchanged.
   */
  function Fill(base: string, title: string, className: string, slidesHtml: string): (r: string)
    ensures !Contains(base, TitleSlot) && !Contains(base, ClassSlot) && !Contains(base, SlidesSlot) ==> r == base
  {
    ReplaceFirstLiteralSpec(base, TitleSlot, title);
    ReplaceFirstLiteralSpec(base, ClassSlot, className);
    ReplaceFirstLiteralSpec(base, SlidesSlot, slidesHtml);
    ReplaceFirstLiteral(ReplaceFirstLiteral(ReplaceFirstLiteral(base, TitleSlot, title),
      ClassSlot, className), SlidesSlot, slidesHtml)
  }

  /**
   * The substitution as written, with `replace`, which expands `$` patterns in the values;
   * it agrees with the verbatim one when no value holds a `$`.
   */
  function FillAsWritten(base: string, title: string, className: string, slidesHtml: string): (r: string)
    ensures '$' !in title && '$' !in className && '$' !in slidesHtml ==> r == Fill(base, title, className, slidesHtml)
  {
    var withTitle := ReplaceFirst(base, TitleSlot, title);
    var withClass := ReplaceFirst(withTitle, ClassSlot, className);
    if '$' in title || '$' in className || '$' in slidesHtml then ReplaceFirst(withClass, SlidesSlot, slidesHtml)
    else
      ReplaceAgrees(base, TitleSlot, title);
      ReplaceAgrees(withTitle, ClassSlot, className);
      ReplaceAgrees(withClass, SlidesSlot, slidesHtml);
      ReplaceFirst(withClass, SlidesSlot, slidesHtml)
  }

  /**
   * `applyTemplate` and the pure part of `generatePresentation`: an unknown theme is
   * reported before anything else, then an absent slide list, then the first slide that
   * fails; otherwise the escaped title, the theme class and the joined fragments are
   * substituted into the base template.
   */
  function ApplyTemplate(v: Variant, table: map<string, ThemeConfig>, doc: Document, themeName: string,
                         base: string): (r: Result<string, Failure>)
    ensures ResolveTheme(themeName, table).Err? ==> r == Err(UnknownTheme(themeName))
    ensures ResolveTheme(themeName, table).Ok? && doc.slides.None? ==> r == Err(MissingList("slides"))
    ensures r.Ok? <==> (ResolveTheme(themeName, table).Ok? && doc.slides.Some? &&
      forall i :: 0 <= i < |doc.slides.value| ==> GenerateSlide(v, doc.slides.value[i], i == 0).Ok?)
  {
    var className :- ResolveTheme(themeName, table);
    var slides :- if doc.slides.None? then Err(MissingList("slides")) else Ok(doc.slides.value);
    var fragments :- Collect(Outcomes(v, slides));
    Ok(Fill(base, EscapeHtml(PageTitle(doc.title)), className, Join(fragments, v.slideSeparator)))
  }

  /**
   * `applyTemplate` and the pure part of `generatePresentation` as the code performs them:
   * `THEMES_CONFIG[themeKey]` also finds the names every object inherits, and the
   * substitution is `replace`, which expands `$` patterns in the values.
   */
  function ApplyTemplateAsWritten(v: Variant, table: map<string, ThemeConfig>, doc: Document,
                                  themeName: string, base: string): (r: Result<string, Failure>)
    ensures ResolveThemeAsWritten(themeName, table).Err? ==> r == Err(UnknownTheme(themeName))
    ensures ResolveThemeAsWritten(themeName, table).Ok? && doc.slides.None? ==> r == Err(MissingList("slides"))
    ensures r.Ok? <==> (ResolveThemeAsWritten(themeName, table).Ok? && doc.slides.Some? &&
      forall i :: 0 <= i < |doc.slides.value| ==> GenerateSlide(v, doc.slides.value[i], i == 0).Ok?)
    ensures ThemeKey(themeName) !in InheritedKeys ==> (r.Ok? <==> ApplyTemplate(v, table, doc, themeName, base).Ok?)
  {
    var className :- ResolveThemeAsWritten(themeName, table);
    var slides :- if doc.slides.None? then Err(MissingList("slides")) else Ok(doc.slides.value);
    var fragments :- Collect(Outcomes(v, slides));
    Ok(FillAsWritten(base, EscapeHtml(PageTitle(doc.title)), className, Join(fragments, v.slideSeparator)))
  }

  /**
   * `applyTemplate(slideData, themeName, baseTemplate)`: the edge-runtime copy with its own
   * table, as written.
   */
  function EdgeApplyTemplate(doc: Document, themeName: string, base: string): (r: Result<string, Failure>)
    ensures r.Ok? ==> ThemeKey(themeName) in ThemesConfig || ThemeKey(themeName) in InheritedKeys
    ensures ThemeKey(themeName) in ThemesConfig ==>
      (r.Ok? <==> (doc.slides.Some? &&
        forall i :: 0 <= i < |doc.slides.value| ==> GenerateSlide(EdgeRuntime, doc.slides.value[i], i == 0).Ok?))
  {
    ApplyTemplateAsWritten(EdgeRuntime, ThemesConfig, doc, themeName, base)
  }

  /**
   * `generatePresentation(slideData, themeName = 'Dark Tech')`: the command-line copy as
   * written, with the table and the template it reads from disk passed in.
   */
  function GeneratePresentation(table: map<string, ThemeConfig>, doc: Document, themeName: Option<string>,
                                base: string): (r: Result<string, Failure>)
    ensures themeName.None? && "dark-tech" !in table ==> r == Err(UnknownTheme(DefaultThemeName))
    ensures themeName.None? && "dark-tech" in table ==>
      (r.Ok? <==> (doc.slides.Some? &&
        forall i :: 0 <= i < |doc.slides.value| ==> GenerateSlide(NodeCli, doc.slides.value[i], i == 0).Ok?))
  {
    DarkTechKey();
    var name := if themeName.Some? then themeName.value else DefaultThemeName;
    ApplyTemplateAsWritten(NodeCli, table, doc, name, base)
  }

  // ---------------------------------------------------------------------------------------
  // Errors

  /**
   * An unknown theme is the only error that names a theme; every other error is the first
   * failing slide's, and the records before it all render.
   */
  lemma ErrorOrder(v: Variant, table: map<string, ThemeConfig>, doc: Document, themeName: string, base: string)
    requires ApplyTemplate(v, table, doc, themeName, base).Err?
    ensures var e := ApplyTemplate(v, table, doc, themeName, base).error;
      (e.UnknownTheme? <==> ResolveTheme(themeName, table).Err?) &&
      (ResolveTheme(themeName, table).Ok? && doc.slides.Some? ==>
        exists i :: 0 <= i < |doc.slides.value| && GenerateSlide(v, doc.slides.value[i], i == 0) == Err(e) &&
                    forall j :: 0 <= j < i ==> GenerateSlide(v, doc.slides.value[j], j == 0).Ok?)
  {
    if ResolveTheme(themeName, table).Ok? && doc.slides.Some? {
      var outcomes := Outcomes(v, doc.slides.value);
      CollectFailsAtFirst(outcomes);
      var i :| 0 <= i < |outcomes| && outcomes[i] == Err(Collect(outcomes).error) &&
        forall j :: 0 <= j < i ==> outcomes[j].Ok?;
      assert GenerateSlide(v, doc.slides.value[i], i == 0).Err?;
    }
  }

  // ---------------------------------------------------------------------------------------
  // The page

  /** A text without `{` holds no placeholder before its end. */
  lemma NoSlotBefore(a: string, slot: string, b: string)
    requires '{' !in a && |slot| > 0 && slot[0] == '{'
    ensures forall j :: 0 <= j < |a| ==> !OccursAt(a + slot + b, slot, j)
  {
    forall j | 0 <= j < |a| ensures !OccursAt(a + slot + b, slot, j) {
      assert (a + slot + b)[j] == a[j];
      NoOccurrenceWithout(a + slot + b, slot, j);
    }
  }

  /**
   * A template `pre {{TITLE}} mid1 {{THEME_CLASS}} mid2 {{SLIDES_HTML}} post` in which each
   * placeholder is the first of its kind when its turn to be replaced comes: no `{{TITLE}}`
   * starts in `pre`, no `{{THEME_CLASS}}` starts in `pre`, the title or `mid1` once the
   * title is in, and no `{{SLIDES_HTML}}` starts before `mid2`'s end once the class is in.
   */
  predicate InPlace(pre: string, mid1: string, mid2: string, post: string, title: string, className: string)
  {
    (forall j :: 0 <= j < |pre| ==>
      !OccursAt(pre + TitleSlot + (mid1 + ClassSlot + mid2 + SlidesSlot + post), TitleSlot, j)) &&
    (forall j :: 0 <= j < |pre + title + mid1| ==>
      !OccursAt((pre + title + mid1) + ClassSlot + (mid2 + SlidesSlot + post), ClassSlot, j)) &&
    (forall j :: 0 <= j < |pre + title + mid1 + className + mid2| ==>
      !OccursAt((pre + title + mid1 + className + mid2) + SlidesSlot + post, SlidesSlot, j))
  }

  /**
   * A template holding the three placeholders in order, each the first of its kind when its
   * turn comes: each placeholder gives way to its value and nothing else changes.
   */
  lemma FillLayout(pre: string, mid1: string, mid2: string, post: string, title: string,
                   className: string, slidesHtml: string)
    requires InPlace(pre, mid1, mid2, post, title, className)
    ensures Fill(pre + TitleSlot + mid1 + ClassSlot + mid2 + SlidesSlot + post, title, className, slidesHtml)
      == pre + title + mid1 + className + mid2 + slidesHtml + post
  {
    var tail1 := mid1 + ClassSlot + mid2 + SlidesSlot + post;
    RegroupFirst(pre, TitleSlot, mid1, ClassSlot, mid2, SlidesSlot, post);
    LiteralAtFirst(pre, TitleSlot, tail1, title);
    var a2 := pre + title + mid1;
    RegroupSecond(pre, title, mid1, ClassSlot, mid2, SlidesSlot, post);
    LiteralAtFirst(a2, ClassSlot, mid2 + SlidesSlot + post, className);
    RegroupThird(a2, className, mid2, SlidesSlot, post);
    LiteralAtFirst(a2 + className + mid2, SlidesSlot, post, slidesHtml);
  }

  /**
   * When neither the template text before the last placeholder nor the title nor the class
   * holds a `{`, every placeholder is the first of its kind when its turn comes.
   */
  lemma BraceFreeInPlace(pre: string, mid1: string, mid2: string, post: string, title: string, className: string)
    requires '{' !in pre && '{' !in mid1 && '{' !in mid2 && '{' !in title && '{' !in className
    ensures InPlace(pre, mid1, mid2, post, title, className)
  {
    NoSlotBefore(pre, TitleSlot, mid1 + ClassSlot + mid2 + SlidesSlot + post);
    assert '{' !in pre + title + mid1;
    NoSlotBefore(pre + title + mid1, ClassSlot, mid2 + SlidesSlot + post);
    assert '{' !in pre + title + mid1 + className + mid2;
    NoSlotBefore(pre + title + mid1 + className + mid2, SlidesSlot, post);
  }

  /**
   * A template holding the class placeholder before the title placeholder: the title is
   * still replaced first and the class second, and when each placeholder is the first of
   * its kind at its turn, each gives way to its value.
   */
  lemma FillClassFirst(pre: string, mid1: string, mid2: string, post: string, title: string,
                       className: string, slidesHtml: string)
    requires forall j :: 0 <= j < |pre + ClassSlot + mid1| ==>
      !OccursAt((pre + ClassSlot + mid1) + TitleSlot + (mid2 + SlidesSlot + post), TitleSlot, j)
    requires forall j :: 0 <= j < |pre| ==>
      !OccursAt(pre + ClassSlot + (mid1 + title + mid2 + SlidesSlot + post), ClassSlot, j)
    requires forall j :: 0 <= j < |pre + className + mid1 + title + mid2| ==>
      !OccursAt((pre + className + mid1 + title + mid2) + SlidesSlot + post, SlidesSlot, j)
    ensures Fill(pre + ClassSlot + mid1 + TitleSlot + mid2 + SlidesSlot + post, title, className, slidesHtml)
      == pre + className + mid1 + title + mid2 + slidesHtml + post
  {
    RegroupMiddle(pre, ClassSlot, mid1, TitleSlot, mid2, SlidesSlot, post);
    LiteralAtFirst(pre + ClassSlot + mid1, TitleSlot, mid2 + SlidesSlot + post, title);
    RegroupOuter(pre, ClassSlot, mid1, title, mid2, SlidesSlot, post);
    LiteralAtFirst(pre, ClassSlot, mid1 + title + mid2 + SlidesSlot + post, className);
    RegroupLast(pre, className, mid1, title, mid2, SlidesSlot, post);
    LiteralAtFirst(pre + className + mid1 + title + mid2, SlidesSlot, post, slidesHtml);
  }

  /**
   * The placeholders are replaced one after the other, so a title that spells the class
   * placeholder takes the class, and the class placeholder of the template stays.
   */
  lemma TitleTakesClass(className: string, slidesHtml: string)
    requires '{' !in className
    ensures Fill(TitleSlot + ClassSlot, ClassSlot, className, slidesHtml) == className + ClassSlot
  {
    TakesClass(TitleSlot + ClassSlot, TitleSlot, ClassSlot, className, slidesHtml);
  }

  /** `TitleTakesClass`, with the template and the two placeholders held in variables. */
  lemma TakesClass(base: string, t: string, c: string, className: string, slidesHtml: string)
    requires base == t + c && t == TitleSlot && c == ClassSlot && '{' !in className
    ensures Fill(base, c, className, slidesHtml) == className + c
  {
    FirstTwoSteps(t, c, className);
    NoSlidesAfterClass(className);
    ReplaceFirstLiteralSpec(className + c, SlidesSlot, slidesHtml);
  }

  /**
   * A text made of two patterns: the first pattern gives way to the second, whose first
   * occurrence is then at the start.
   */
  lemma FirstTwoSteps(x: string, y: string, v: string)
    ensures ReplaceFirstLiteral(ReplaceFirstLiteral(x + y, x, y), y, v) == v + y
  {
    AtStart(x, y, y);
    AtStart(y, y, v);
  }

  /** A pattern at the start of a text is its first occurrence, and gives way there. */
  lemma AtStart(pat: string, b: string, rep: string)
    ensures ReplaceFirstLiteral(pat + b, pat, rep) == rep + b
  {
    var s := pat + b;
    assert s[..|pat|] == pat && s[|pat|..] == b;
    assert FirstOccurrence(s, pat, 0);
    ReplaceFirstLiteralSpec(s, pat, rep);
    assert s[..0] + rep + s[|pat|..] == rep + b;
  }

  /** A brace-free text followed by the class placeholder holds no slides placeholder. */
  lemma NoSlidesAfterClass(className: string)
    requires '{' !in className
    ensures !Contains(className + ClassSlot, SlidesSlot)
  {
    var s := className + ClassSlot;
    forall j | 0 <= j && j + |SlidesSlot| <= |s| ensures !OccursAt(s, SlidesSlot, j) {
      if j < |className| {
        assert s[j] == className[j];
        MismatchAt(s, SlidesSlot, j, 0);
      } else {
        assert s[j + 2] == ClassSlot[2];
        MismatchAt(s, SlidesSlot, j, 2);
      }
    }
  }

  /** A pattern that differs from the text at one of its positions does not occur there. */
  lemma MismatchAt(s: string, pat: string, j: int, d: nat)
    requires 0 <= j && d < |pat| && j + d < |s| && s[j + d] != pat[d]
    ensures !OccursAt(s, pat, j)
  {
  }

  /** The template seen as the text before the first placeholder, it, and the rest. */
  lemma RegroupFirst(a: string, x: string, b: string, y: string, c: string, z: string, d: string)
    ensures a + x + b + y + c + z + d == a + x + (b + y + c + z + d)
  {
  }

  /** After the first substitution: the text before the second placeholder, it, and the rest. */
  lemma RegroupSecond(a: string, t: string, b: string, y: string, c: string, z: string, d: string)
    ensures a + t + (b + y + c + z + d) == (a + t + b) + y + (c + z + d)
  {
  }

  /** After the second substitution: the text before the third placeholder, it, and the rest. */
  lemma RegroupThird(a: string, u: string, c: string, z: string, d: string)
    ensures a + u + (c + z + d) == (a + u + c) + z + d
  {
  }

  /** The template seen around its second placeholder. */
  lemma RegroupMiddle(a: string, x: string, b: string, y: string, c: string, z: string, d: string)
    ensures a + x + b + y + c + z + d == (a + x + b) + y + (c + z + d)
  {
  }

  /** After the second placeholder's substitution: the text around the first placeholder. */
  lemma RegroupOuter(a: string, x: string, b: string, t: string, c: string, z: string, d: string)
    ensures (a + x + b) + t + (c + z + d) == a + x + (b + t + c + z + d)
  {
  }

  /** After both substitutions: the text before the last placeholder, it, and the rest. */
  lemma RegroupLast(a: string, u: string, b: string, t: string, c: string, z: string, d: string)
    ensures a + u + (b + t + c + z + d) == (a + u + b + t + c) + z + d
  {
  }

  /**
   * The page of a document that renders: the escaped title (or "Presentation"), the theme's
   * class and the fragments joined with the variant's separator stand where the
   * placeholders stood.
   */
  lemma PageLayout(v: Variant, table: map<string, ThemeConfig>, doc: Document, themeName: string,
                   pre: string, mid1: string, mid2: string, post: string)
    requires ResolveTheme(themeName, table).Ok?
    requires InPlace(pre, mid1, mid2, post, EscapeHtml(PageTitle(doc.title)), ResolveTheme(themeName, table).value)
    requires doc.slides.Some? && Collect(Outcomes(v, doc.slides.value)).Ok?
    ensures ApplyTemplate(v, table, doc, themeName, pre + TitleSlot + mid1 + ClassSlot + mid2 + SlidesSlot + post)
      == Ok(pre + EscapeHtml(PageTitle(doc.title)) + mid1 + ResolveTheme(themeName, table).value + mid2 +
            Join(Collect(Outcomes(v, doc.slides.value)).value, v.slideSeparator) + post)
  {
    FillLayout(pre, mid1, mid2, post, EscapeHtml(PageTitle(doc.title)), ResolveTheme(themeName, table).value,
      Join(Collect(Outcomes(v, doc.slides.value)).value, v.slideSeparator));
  }

  /** An empty slide list fills the slides placeholder with nothing. */
  lemma EmptyDeck(v: Variant)
    ensures Collect(Outcomes(v, [])) == Ok([]) && Join([], v.slideSeparator) == ""
  {
  }

  // ---------------------------------------------------------------------------------------
  // The deck

  /**
   * Reads the joined fragments back: one fragment, then either the end or the separator
   * and the next fragment.
   */
  function ReadDeck(v: Variant, s: string): (r: Option<seq<(bool, Shown)>>)
    decreases |s|
  {
    if s == [] then Some([])
    else
      var x :- ReadSlide(v, s);
      if x.2 == [] then Some([(x.0, x.1)])
      else
        var s1 :- Skip(v.slideSeparator, x.2);
        var more :- ReadDeck(v, s1);
        Some([(x.0, x.1)] + more)
  }

  /** A fragment reads back as one slide, whatever follows it. */
  ghost predicate ReadsAs(v: Variant, f: string, x: (bool, Shown))
  {
    forall rest {:trigger ReadSlide(v, f + rest)} :: ReadSlide(v, f + rest) == Some((x.0, x.1, rest))
  }

  /**
   * Joined fragments that each read back as one slide read back as those slides, in order.
   */
  lemma {:induction false} JoinedBack(v: Variant, fragments: seq<string>, shown: seq<(bool, Shown)>)
    requires |v.slideSeparator| > 0 && |fragments| == |shown|
    requires forall i :: 0 <= i < |fragments| ==> ReadsAs(v, fragments[i], shown[i])
    ensures ReadDeck(v, Join(fragments, v.slideSeparator)) == Some(shown)
    decreases |fragments|
  {
    var sep := v.slideSeparator;
    if |fragments| == 1 {
      DeckLast(v, fragments[0], shown[0]);
      assert [shown[0]] == shown;
    } else if fragments != [] {
      JoinCons(fragments, sep);
      ReadsTail(v, fragments, shown);
      JoinedBack(v, fragments[1..], shown[1..]);
      DeckNext(v, fragments[0], shown[0], Join(fragments[1..], sep), shown[1..]);
      assert [shown[0]] + shown[1..] == shown;
    }
  }

  /** A join of several parts is the first part, the separator and the join of the rest. */
  lemma JoinCons(parts: seq<string>, sep: string)
    requires |parts| > 1
    ensures Join(parts, sep) == parts[0] + (sep + Join(parts[1..], sep))
  {
    Assoc(parts[0], sep, Join(parts[1..], sep));
  }

  /** Every fragment after the first still reads back as its slide. */
  lemma ReadsTail(v: Variant, fragments: seq<string>, shown: seq<(bool, Shown)>)
    requires |fragments| == |shown| > 0
    requires forall i :: 0 <= i < |fragments| ==> ReadsAs(v, fragments[i], shown[i])
    ensures forall i :: 0 <= i < |fragments[1..]| ==> ReadsAs(v, fragments[1..][i], shown[1..][i])
  {
    forall i | 0 <= i < |fragments[1..]| ensures ReadsAs(v, fragments[1..][i], shown[1..][i]) {
      assert fragments[1..][i] == fragments[i + 1] && shown[1..][i] == shown[i + 1];
    }
  }

  /** The last fragment ends the deck. */
  lemma DeckLast(v: Variant, f: string, x: (bool, Shown))
    requires ReadsAs(v, f, x)
    ensures ReadDeck(v, f) == Some([x])
  {
    assert f + "" == f;
    assert ReadSlide(v, f + "") == Some((x.0, x.1, ""));
    assert f != [] by { assert |ReadSlide(v, f + "").value.2| < |f + ""|; }
  }

  /** A fragment followed by the separator is followed by the rest of the deck. */
  lemma DeckNext(v: Variant, f: string, x: (bool, Shown), rest: string, more: seq<(bool, Shown)>)
    requires |v.slideSeparator| > 0 && ReadsAs(v, f, x) && ReadDeck(v, rest) == Some(more)
    ensures ReadDeck(v, f + (v.slideSeparator + rest)) == Some([x] + more)
  {
    var t := v.slideSeparator + rest;
    assert ReadSlide(v, f + t) == Some((x.0, x.1, t));
    SkipLit(v.slideSeparator, rest);
  }

  /**
   * The joined fragments of records that all render read back as what the records are meant
   * to show, in order, with the active mark on the record at index 0 and on no other.
   */
  lemma DeckBack(v: Variant, slides: seq<SlideRecord>, fragments: seq<string>)
    requires |v.slideSeparator| > 0 && |fragments| == |slides|
    requires forall i :: 0 <= i < |slides| ==> Readable(v, slides[i])
    requires forall i :: 0 <= i < |slides| ==> GenerateSlide(v, slides[i], i == 0) == Ok(fragments[i])
    ensures var d := ReadDeck(v, Join(fragments, v.slideSeparator));
      d.Some? && |d.value| == |slides| &&
      forall i :: 0 <= i < |slides| ==> d.value[i].0 == (i == 0) && View(v, slides[i]) == Ok(d.value[i].1)
  {
    forall i | 0 <= i < |slides|
      ensures View(v, slides[i]).Ok? && ReadsAs(v, fragments[i], (i == 0, View(v, slides[i]).value))
    {
      FragmentBackAnywhere(v, slides[i], i == 0, fragments[i]);
    }
    var shown := seq(|slides|, i requires 0 <= i < |slides| => (i == 0, View(v, slides[i]).value));
    JoinedBack(v, fragments, shown);
  }

  /** A fragment that renders reads back as its record's display whatever follows it. */
  lemma FragmentBackAnywhere(v: Variant, r: SlideRecord, isFirst: bool, f: string)
    requires Readable(v, r) && GenerateSlide(v, r, isFirst) == Ok(f)
    ensures View(v, r).Ok? && ReadsAs(v, f, (isFirst, View(v, r).value))
  {
    SlideReadBack(v, r, isFirst, "");
    forall rest ensures ReadSlide(v, f + rest) == Some((isFirst, View(v, r).value, rest)) {
      SlideReadBack(v, r, isFirst, rest);
    }
  }

  /**
   * The page's slides of a document that renders: read back from the joined fragments, only
   * the first is active and each shows what its record is meant to show.
   */
  lemma ActiveExactlyFirst(v: Variant, slides: seq<SlideRecord>)
    requires |v.slideSeparator| > 0 && forall i :: 0 <= i < |slides| ==> Readable(v, slides[i])
    requires Collect(Outcomes(v, slides)).Ok?
    ensures var d := ReadDeck(v, Join(Collect(Outcomes(v, slides)).value, v.slideSeparator));
      d.Some? && |d.value| == |slides| &&
      (forall i :: 0 <= i < |slides| ==> (d.value[i].0 <==> i == 0)) &&
      forall i :: 0 <= i < |slides| ==> View(v, slides[i]) == Ok(d.value[i].1)
  {
    var fragments := Collect(Outcomes(v, slides)).value;
    DeckBack(v, slides, fragments);
  }

  // ---------------------------------------------------------------------------------------
  // `$` patterns in the substituted values

  /**
   * The code as written produces the corrected page whenever the theme name's key is not an
   * inherited property name and neither the title, the theme's class nor the joined
   * fragments hold a `$`.
   */
  lemma AsWrittenAgrees(v: Variant, table: map<string, ThemeConfig>, doc: Document, themeName: string,
                        base: string)
    requires ThemeKey(themeName) !in InheritedKeys && '$' !in doc.title
    requires ResolveTheme(themeName, table).Ok? ==> '$' !in ResolveTheme(themeName, table).value
    requires doc.slides.Some? && Collect(Outcomes(v, doc.slides.value)).Ok? ==>
      '$' !in Join(Collect(Outcomes(v, doc.slides.value)).value, v.slideSeparator)
    ensures ApplyTemplateAsWritten(v, table, doc, themeName, base) == ApplyTemplate(v, table, doc, themeName, base)
  {
    if ResolveTheme(themeName, table).Ok? && doc.slides.Some? && Collect(Outcomes(v, doc.slides.value)).Ok? {
      assert '$' !in PageTitle(doc.title);
      EscapeOmits(PageTitle(doc.title), '$');
    }
  }

  /**
   * A theme named "Constructor" on a template that is just the class placeholder: the code
   * as written renders the page with the class "undefined", where the corrected lookup
   * reports the unknown theme.
   */
  lemma ConstructorPage()
    ensures EdgeApplyTemplate(Document("", Some([])), "Constructor", ClassSlot) == Ok("undefined")
    ensures ApplyTemplate(EdgeRuntime, ThemesConfig, Document("", Some([])), "Constructor", ClassSlot)
      == Err(UnknownTheme("Constructor"))
  {
    ConstructorKey();
    InheritedNamesAccepted("Constructor");
    EmptyDeck(EdgeRuntime);
    ConstructorFill();
  }

  /** The class placeholder alone takes the class "undefined"; the other two are absent. */
  lemma ConstructorFill()
    ensures FillAsWritten(ClassSlot, EscapeHtml(PageTitle("")), "undefined", "") == "undefined"
  {
    UndefinedFill(ClassSlot, EscapeHtml(PageTitle("")), "undefined", "");
  }

  /** `ConstructorFill`, with the template and the values held in variables. */
  lemma UndefinedFill(base: string, t: string, u: string, e: string)
    requires base == ClassSlot && u == "undefined" && e == ""
    ensures FillAsWritten(base, t, u, e) == u
  {
    NoTitleInClass();
    ReplaceFirstSpec(base, TitleSlot, t);
    assert "" + base + "" == base;
    ReplaceAtFirst("", ClassSlot, "", u);
    assert "" + u + "" == u;
    ShorterUnchanged(u, SlidesSlot, e);
  }

  /** The class placeholder does not hold the title placeholder. */
  lemma NoTitleInClass()
    ensures !Contains(ClassSlot, TitleSlot)
  {
    forall j | 0 <= j && j + |TitleSlot| <= |ClassSlot| ensures !OccursAt(ClassSlot, TitleSlot, j) {
      if j == 0 {
        MismatchAt(ClassSlot, TitleSlot, j, 3);
      } else if j == 1 {
        MismatchAt(ClassSlot, TitleSlot, j, 1);
      } else {
        MismatchAt(ClassSlot, TitleSlot, j, 0);
      }
    }
  }

  /**
   * A document titled "$$" on a template that is just the title placeholder: the code as
   * written produces a page holding a single `$`, where the verbatim substitution keeps both.
   */
  lemma DollarTitleCollapses()
    ensures EdgeApplyTemplate(Document("$$", Some([])), DefaultThemeName, TitleSlot) == Ok("$")
    ensures ApplyTemplate(EdgeRuntime, ThemesConfig, Document("$$", Some([])), DefaultThemeName, TitleSlot)
      == Ok("$$")
  {
    DollarInputs();
    DollarFillAsWritten();
    DollarFill();
  }

  /** What the "$$" document contributes: the default theme's class, its title, no slides. */
  lemma DollarInputs()
    ensures ResolveTheme(DefaultThemeName, ThemesConfig) == Ok("theme-dark-tech")
    ensures ResolveThemeAsWritten(DefaultThemeName, ThemesConfig) == Ok("theme-dark-tech")
    ensures EscapeHtml(PageTitle("$$")) == "$$"
    ensures Collect(Outcomes(EdgeRuntime, [])) == Ok([]) && Join([], EdgeRuntime.slideSeparator) == ""
  {
    ResolveDarkTech();
    EscapePlain("$$");
  }

  /** `replace` turns the "$$" title into a single `$`; the other placeholders are absent. */
  lemma DollarFillAsWritten()
    ensures FillAsWritten(TitleSlot, "$$", "theme-dark-tech", "") == "$"
  {
    assert "" + TitleSlot + "" == TitleSlot;
    ReplaceCollapsesDollars("", TitleSlot, "");
    assert "" + "$" + "" == "$";
    ShorterUnchanged("$", ClassSlot, "theme-dark-tech");
    ShorterUnchanged("$", SlidesSlot, "");
  }

  /** The verbatim substitution keeps the "$$" title as it is. */
  lemma DollarFill()
    ensures Fill(TitleSlot, "$$", "theme-dark-tech", "") == "$$"
  {
    assert "" + TitleSlot + "" == TitleSlot;
    LiteralAtFirst("", TitleSlot, "", "$$");
    assert "" + "$$" + "" == "$$";
    ShorterUnchanged("$$", ClassSlot, "theme-dark-tech");
    ShorterUnchanged("$$", SlidesSlot, "");
  }
}
