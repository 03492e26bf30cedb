# Slide renderer model

This project models the core of an HTML slide-deck generator. A presentation document has
a title and a list of slide records. Each record carries a `type` tag and the fields of
that layout. The generator does three things:

- it resolves a human-readable theme name ("Dark Tech") to a CSS class ("theme-dark-tech")
  through a theme table;
- it renders every record to an HTML fragment, marking only the first one `active`;
- it substitutes the escaped page title, the theme class and the joined fragments into a
  base HTML template at the `{{TITLE}}`, `{{THEME_CLASS}}` and `{{SLIDES_HTML}}`
  placeholders.

The repository holds two copies of the renderer. `scripts/apply-template.js` runs in an edge
runtime and has the theme table built in. `scripts/generator.js` is a command-line tool that
reads the table and the template from disk. Apart from where the table and
the template come from, the two copies differ in four literals. Three of them are captured
by one renderer parameterised by a `Variant`:

- the separator between fragments;
- the default title emoji;
- the prefix in front of a quote's author.

The fourth is the default theme name 'Dark Tech' of `generatePresentation`
(scripts/generator.js:20), which `applyTemplate` does not have.

The generator.js copy stores the emoji and the dash as mis-decoded UTF-8, and the model
keeps those exact code points.

The files:

- `wrappers.dfy`: `Option`, `Result` and the two failures. One is the unknown theme. The
  other is a required list that is missing, which in the source is a `TypeError` thrown by
  `.map`.
- `text.dfy`: the JavaScript string operations the renderer relies on:
  - `String.prototype.replace` with a string pattern, which replaces the first occurrence
    only and expands `$$`, `$&`, `` $` `` and `$'` in the replacement;
  - a verbatim first-occurrence replacement;
  - `Array.prototype.join`;
  - ASCII lower-casing.
- `escape.dfy`: `escapeHtml`, plus an unescaping inverse used to state what a fragment
  displays.
- `themes.dfy`: the theme table, theme-key normalisation and resolution.
- `slides.dfy`: the eight slide layouts, the catch-all fragment, `generateSlide`'s dispatch,
  and `View`, which says what each record is meant to display.
- `reader.dfy`: a reader that parses a fragment back into what it displays. The round-trip
  lemmas prove that every fragment shows exactly its record's texts and lists, in order,
  with the defaults applied. An optional paragraph (a subheading or a submessage) reads
  back as absent exactly when its text is empty.
- `presentation.dfy`: `applyTemplate` and the pure part of `generatePresentation`. This
  covers error order, template filling and the whole-deck read-back. `EdgeApplyTemplate`
  and `GeneratePresentation` are the two entry points as coded
  (`ApplyTemplateAsWritten`). `ApplyTemplate` is the corrected assembly of the two
  Findings below, and the layout and read-back lemmas are stated about it.
  `AsWrittenAgrees` says when the two give the same page.

## Model

| member | source | states |
|---|---|---|
| Text.FindFirstSpec | scripts/apply-template.js:48-51 | the position the pattern search returns is the first occurrence of the pattern, and it returns one exactly when the pattern occurs |
| Text.ReplaceFirstSpec | scripts/apply-template.js:48-51 | `ReplaceFirst`, the model of `replace` with a string pattern, leaves a string without the pattern unchanged; otherwise it keeps the text before and after the first occurrence and puts the `$`-expanded replacement in its place |
| Text.ReplaceFirstLiteralSpec | scripts/apply-template.js:48-51 | verbatim replacement leaves a string without the pattern unchanged; otherwise it replaces only the first occurrence by the replacement text itself |
| Text.ReplaceAgrees | scripts/apply-template.js:48-51 | a replacement text without `$` is inserted verbatim by `replace` |
| Text.ShorterUnchanged | scripts/apply-template.js:48-51 | a string shorter than the pattern is left unchanged by both replacements |
| Text.ReplaceCollapsesDollars | scripts/apply-template.js:48-51 | the replacement text `$$` is inserted as a single `$` |
| Text.Join | scripts/apply-template.js:43-45 | `join` of no fragments is the empty text, and the joined fragments begin with the first fragment |
| Text.LowerAt | scripts/apply-template.js:35 | lower-casing keeps the length and lowers each character on its own |

| Text.ToLowerAscii | scripts/apply-template.js:35 | lower-casing keeps the length (Text.LowerAt gives each character) |
| Escape.EscapeHtml | scripts/apply-template.js:202-212 | the empty text escapes to the empty text, escaping never shortens, and the output holds no `<`, `>`, `"` or `'` |
| Escape.EscapeChar | scripts/apply-template.js:204-211 | a character other than the five reserved ones is copied as it is; a reserved one becomes an entity that starts with `&` and ends with `;` |
| Escape.EscapePlain | scripts/apply-template.js:202-212 | a text with none of the five reserved characters is unchanged |
| Escape.EscapeAppend | scripts/apply-template.js:202-212 | escaping works character by character: escaping a concatenation concatenates the escapes |
| Escape.UnescapeEscapeAppend | scripts/apply-template.js:202-212 | unescaping an escaped text followed by anything gives back the text followed by the unescaped rest |
| Escape.EscapeRoundTrip | scripts/apply-template.js:202-212 | unescaping an escaped text gives back the original text |
| Escape.EscapeInjective | scripts/apply-template.js:202-212 | two different texts never escape to the same output |
| Escape.EscapeOmits | scripts/apply-template.js:202-212 | a character that is not in the text and not used in any entity does not appear in the escaped text |
| Themes.ResolveTheme | scripts/apply-template.js:35-40 | the theme resolves exactly when its normalised key is in the table, to that entry's class; otherwise the error is "Unknown theme" naming the name as given |
| Themes.ResolveThemeAsWritten | scripts/apply-template.js:35-40 | the lookup as coded fails exactly when the key is neither in the table nor an inherited object property name, with "Unknown theme" naming the name as given, and it agrees with the corrected lookup on table keys |
| Themes.ThemeKeyOneWord | scripts/apply-template.js:35 | a name without spaces is only lower-cased |
| Themes.ThemeKeyTwoWords | scripts/apply-template.js:35 | in a name of two words separated by a space, that space becomes a hyphen and both words are lower-cased |
| Themes.ThemeKeyChars | scripts/apply-template.js:35 | `ThemeKey`, the normalised key, has the name's length; its first space is a hyphen and every other character is lower-cased |
| Themes.LowerKeepsSpaces | scripts/apply-template.js:35 | lower-casing neither adds nor removes spaces in any prefix |
| Themes.OneWordKey | scripts/apply-template.js:35 | a one-word name's key is its character-wise lower-casing |
| Themes.DarkTechKey | scripts/apply-template.js:35 | "Dark Tech" normalises to "dark-tech" |
| Themes.DarkTechProKey | scripts/apply-template.js:35 | in "Dark Tech Pro" only the first space becomes a hyphen |
| Themes.BuiltInClasses | scripts/apply-template.js:7-24 | every built-in theme's class is "theme-" followed by its key |
| Themes.ResolveBuiltIn | scripts/apply-template.js:35-40 | a name whose key is built in resolves to "theme-" followed by the key |
| Themes.ResolveDarkTech | scripts/apply-template.js:35-40 | "Dark Tech" resolves to "theme-dark-tech" |
| Themes.ResolveCorporate | scripts/apply-template.js:35-40 | "corporate" resolves to "theme-corporate" |
| Themes.ResolveDarkTechPro | scripts/apply-template.js:35-40 | "Dark Tech Pro" is an unknown theme |
| Themes.ResolveUnknownExample | scripts/apply-template.js:38-39 | "Neon" is an unknown theme, and the error message is "Unknown theme: Neon" |
| Themes.DisplayNamesAreKeys | scripts/apply-template.js:7-24 | every built-in theme's display name normalises to its own key |
| Themes.InheritedNamesAccepted | scripts/apply-template.js:35-40 | a name whose key is an inherited property name is not a theme, yet the code as written accepts it and inserts "undefined" |
| Themes.ConstructorKey | scripts/apply-template.js:35 | "Constructor" normalises to the inherited property name "constructor" |
| Slides.Entry | scripts/apply-template.js:95 | a list entry begins with the first literal of its layout |
| Slides.GenerateSlide | scripts/apply-template.js:59-82 | the only way rendering a slide can fail is a missing required list, and a rendered slide begins with the opening tag that carries `active` exactly when it is the first |
| Slides.FragmentOpens | scripts/apply-template.js:85 | every fragment begins with the slide's opening tag, which carries `active` exactly for the first |
| Slides.TitleSlide | scripts/apply-template.js:84-92 | a title fragment opens with the slide's opening tag; Reader.TitleBack shows it displays the emoji, heading and subheading |
| Slides.BulletsSlide | scripts/apply-template.js:94-102 | fails exactly when the items are absent, with that list named; otherwise opens with the slide's opening tag (Reader.BulletsBack gives what it displays) |
| Slides.Grid2x2Slide | scripts/apply-template.js:104-117 | fails exactly when the cards are absent, with that list named; otherwise opens with the slide's opening tag (Reader.Grid2x2Back gives what it displays) |
| Slides.Grid3ColSlide | scripts/apply-template.js:119-132 | fails exactly when the cards are absent, with that list named; otherwise opens with the slide's opening tag (Reader.Grid3ColBack gives what it displays) |
| Slides.TwoColumnSlide | scripts/apply-template.js:134-154 | fails exactly when the left or the right items are absent, the left reported first; otherwise opens with the slide's opening tag (Reader.TwoColumnBack gives what it displays) |
| Slides.QuoteSlide | scripts/apply-template.js:156-163 | a quote fragment opens with the slide's opening tag; Reader.QuoteBack shows it displays the quote and the author |
| Slides.NumberedSlide | scripts/apply-template.js:165-179 | fails exactly when the steps are absent, with that list named; otherwise opens with the slide's opening tag (Reader.NumberedBack gives what it displays) |
| Slides.ConclusionSlide | scripts/apply-template.js:181-193 | a conclusion fragment opens with the slide's opening tag; Reader.ConclusionBack shows it displays the heading, message and submessage |
| Slides.DefaultSlide | scripts/apply-template.js:195-200 | the catch-all fragment opens with the slide's opening tag; Reader.DefaultBack shows it displays the heading (or "Slide") and the tag |
| Slides.UnknownTagDefault | scripts/apply-template.js:195-200 | any tag outside the eight layouts, an absent one included, gives the catch-all fragment, which shows the heading (or "Slide") and the tag as it prints |
| Slides.OpensDiffer | scripts/apply-template.js:60 | the active and the plain opening tags differ (at a known position), and the plain one is not a prefix of the active one |
| Reader.EntryRoundTrip | scripts/apply-template.js:95 | reading a rendered list entry gives back its fields and the rest of the input |
| Reader.RowsRoundTrip | scripts/apply-template.js:95 | reading a non-empty joined list gives back its rows in order |
| Reader.BlockRoundTrip | scripts/apply-template.js:95-99 | reading a joined list, empty or not, gives back its rows in order |
| Reader.ItemsBack | scripts/apply-template.js:94-102 | the bullet rows read back as the original items |
| Reader.CardsBack | scripts/apply-template.js:104-117 | the card rows read back as the original cards |
| Reader.StepsBack | scripts/apply-template.js:165-179 | the step rows read back as the original steps |
| Reader.FragmentBack | scripts/apply-template.js:59-82 | a fragment reads back as its first-slide flag and its body's display, leaving the rest of the input |
| Reader.HeadedBack | scripts/apply-template.js:94-102 | a fragment with a heading reads back as the escaped heading and its layout's display |
| Reader.CenteredBack | scripts/apply-template.js:84-92 | a centred body is told apart from the heading and quote bodies and read as centred |
| Reader.TitleBack | scripts/apply-template.js:84-92 | a title slide reads back as its emoji (the default when none is given), its heading and its subheading, which is absent exactly when it is empty |
| Reader.ConclusionBack | scripts/apply-template.js:181-193 | a conclusion slide reads back as its heading, its message and its submessage, which is absent exactly when it is empty |
| Reader.QuoteBack | scripts/apply-template.js:156-163 | a quote slide reads back as its quote and author |
| Reader.ListBack | scripts/apply-template.js:94-102 | a list body's opening, joined rows and closing are read in order |
| Reader.BulletsBack | scripts/apply-template.js:94-102 | a bullets slide with items renders and reads back as its heading and items |
| Reader.Grid2x2Back | scripts/apply-template.js:104-117 | a two-by-two grid with cards renders and reads back as its heading and cards |
| Reader.Grid3ColBack | scripts/apply-template.js:119-132 | a three-column grid with cards renders and reads back as its heading and cards |
| Reader.TwoColumnBack | scripts/apply-template.js:134-154 | a two-column slide with both item lists renders and reads back as its heading and both columns' titles and items |
| Reader.NumberedBack | scripts/apply-template.js:165-179 | a numbered slide with steps renders and reads back as its heading and steps |
| Reader.DefaultBack | scripts/apply-template.js:195-200 | the catch-all fragment reads back as the heading (or "Slide") and the tag |
| Reader.TitleCase | scripts/apply-template.js:63-64 | a title record renders and reads back as what it is meant to display |
| Reader.BulletsCase | scripts/apply-template.js:65-66 | a bullets record fails exactly when its items are missing, and otherwise reads back as what it is meant to display |
| Reader.Grid2x2Case | scripts/apply-template.js:67-68 | a two-by-two grid record fails exactly when its cards are missing, and otherwise reads back as what it is meant to display |
| Reader.Grid3ColCase | scripts/apply-template.js:69-70 | a three-column grid record fails exactly when its cards are missing, and otherwise reads back as what it is meant to display |
| Reader.TwoColumnCase | scripts/apply-template.js:71-72 | a two-column record fails exactly when the left or the right items are missing, the left being reported first, and otherwise reads back as what it is meant to display |
| Reader.QuoteCase | scripts/apply-template.js:73-74 | a quote record renders and reads back as what it is meant to display |
| Reader.NumberedCase | scripts/apply-template.js:75-76 | a numbered record fails exactly when its steps are missing, and otherwise reads back as what it is meant to display |
| Reader.ConclusionCase | scripts/apply-template.js:77-78 | a conclusion record renders and reads back as what it is meant to display |
| Reader.DefaultCase | scripts/apply-template.js:79-80 | any other record renders the catch-all fragment and reads back as what it is meant to display |
| Reader.SlideReadBack | scripts/apply-template.js:59-82 | for every record, rendering fails exactly when the record is meant to fail, with the same missing list; otherwise the fragment reads back as the record's display and the first-slide flag |
| Presentation.PageTitle | scripts/apply-template.js:49 | the page title is never empty, and it is the document's title whenever that is non-empty |
| Presentation.Outcomes | scripts/apply-template.js:43-44 | one outcome per slide, each the rendering of that slide with only the first marked first |
| Presentation.Collect | scripts/apply-template.js:43-45 | the fragments are collected exactly when every slide renders, one fragment per slide and in order |
| Presentation.CollectFailsAtFirst | scripts/apply-template.js:43-45 | a failed collection reports the error of a failing slide, and every slide before it renders |
| Presentation.ApplyTemplate | scripts/apply-template.js:33-54 | an unknown theme fails first; then an absent slide list; the page is produced exactly when the theme resolves, the list is present and every slide renders |
| Presentation.ApplyTemplateAsWritten | scripts/apply-template.js:33-54 | the assembly as coded: an unknown theme (by the as-coded lookup) fails first, then an absent slide list; the page is produced exactly when the theme resolves as coded, the list is present and every slide renders; for a key that is not an inherited property name, exactly when the corrected page is |
| Presentation.EdgeApplyTemplate | scripts/apply-template.js:33-54 | with the built-in table, a page is produced only for a built-in key or an inherited property name, and for a built-in key exactly when the list is present and every slide renders |
| Presentation.GeneratePresentation | scripts/generator.js:20-47 | without a theme name, "Dark Tech" is used: a table without "dark-tech" reports it as unknown, and a table with it produces a page exactly when the list is present and every slide renders |
| Presentation.ErrorOrder | scripts/apply-template.js:33-54 | an error names a theme exactly when the theme does not resolve; with a resolved theme and a present list, the error is that of the first slide that fails, and every earlier slide renders |
| Presentation.FillLayout | scripts/apply-template.js:48-51 | a template holding the three placeholders in order, each the first of its kind when its turn to be replaced comes, receives the title, the class and the slides at their places, with the text around them kept |
| Presentation.Fill | scripts/apply-template.js:48-51 | the verbatim substitution returns a template without placeholders unchanged |
| Presentation.PageLayout | scripts/apply-template.js:33-54 | for such a template and the escaped title and theme class of the document, the corrected page is the template with the escaped title, the theme class and the joined fragments in place of the placeholders |
| Presentation.BraceFreeInPlace | scripts/apply-template.js:48-51 | a template whose text before the last placeholder holds no `{`, with a title and a class that hold none either, has every placeholder first of its kind when its turn comes |
| Presentation.FillClassFirst | scripts/apply-template.js:48-51 | a template holding the class placeholder before the title placeholder: the title is still replaced first, and each placeholder that is first of its kind at its turn receives its value at its place |
| Presentation.TitleTakesClass | scripts/apply-template.js:48-51 | since the placeholders are replaced one after the other, a title that spells the class placeholder receives the class, and the template's own class placeholder stays |
| Presentation.EmptyDeck | scripts/apply-template.js:43-45 | an empty slide list renders to an empty slides section |
| Presentation.FragmentBackAnywhere | scripts/apply-template.js:59-82 | a rendered fragment reads back as its record's display whatever text follows it |
| Presentation.JoinedBack | scripts/apply-template.js:43-45 | fragments joined with the slide separator, each reading back as one slide, read back as exactly those slides in order |
| Presentation.DeckBack | scripts/apply-template.js:43-45 | the joined fragments read back, slide by slide and in order, as the records' displays, with each slide's first-slide flag |
| Presentation.ActiveExactlyFirst | scripts/apply-template.js:43-45 | in a rendered deck, exactly the first slide is active, and every slide shows what its record is meant to show |
| Presentation.FillAsWritten | scripts/apply-template.js:48-51 | when no inserted value holds a `$`, the substitution as coded equals the verbatim one |
| Presentation.AsWrittenAgrees | scripts/apply-template.js:33-54 | for a theme key that is not an inherited property name and a `$`-free title, class and joined fragments, the page as coded is the corrected page |
| Presentation.ConstructorPage | scripts/apply-template.js:35-51 | the theme "Constructor" on a template that is just the class placeholder renders "undefined" as coded, where the corrected assembly reports the unknown theme |
| Presentation.DollarTitleCollapses | scripts/apply-template.js:48-51 | a document titled `$$` gets the page title `$` from the edge renderer as coded, and `$$` with verbatim substitution |

The `generator.js` copy has the same structure at these lines:

- theme resolution at scripts/generator.js:22-27;
- join at 36-38;
- substitution at 41-44;
- `generateSlide` at 55-79;
- the layouts at 84-233;
- `escapeHtml` at 238-248.

Its `Variant` is `NodeCli`, and `EdgeRuntime` is the one for apply-template.js.

## Left out

- Reading `themes.json` and `base.html` from disk (scripts/generator.js:10-12 and 30-33): the
  theme table and the template are parameters of the model.
- The command-line entry point `main` and the module exports (scripts/generator.js:253-288),
  which are argument parsing, file I/O and process exit.
- The `console.warn` for an unknown slide type (scripts/generator.js:76): it is output only,
  and the fragment it goes with is modelled.
- scripts/edge-function-example.js is not part of this model. It is the HTTP wrapper around
  `applyTemplate`.
- Lower-casing is ASCII only. `toLowerCase` also lowers non-ASCII letters, and the model
  keeps them unchanged.
- Slide fields are modelled as strings, with "" standing for an absent or falsy value. A
  truthy value that is not a string (a number, `true`, an object) in an escaped field makes
  `escapeHtml` throw a `TypeError`, because it has no `replace` method
  (scripts/apply-template.js:203-211). That error path is not modelled. The emoji and the
  tag, which are inserted without escaping, would print such a value instead.
- A `null` or non-object slide element makes `generateSlide` throw a `TypeError` when it reads
  `slide.type` (scripts/apply-template.js:59-62). The same holds for a `null` card, column
  or step in a list (for instance `card.title` at scripts/apply-template.js:106). These
  throws are not modelled: records, cards, columns and steps are always values here, and
  only an absent list or column is an error (`MissingList`).
- A `type` tag is a string or absent. A `null` or non-string tag is not modelled.
- A missing required list is modelled as `MissingList` naming the list. The source throws a
  `TypeError` whose message text depends on the JavaScript engine.
- A list is modelled as present or absent. A non-array value in a list field is not
  modelled.
- Reader.SlideReadBack: the read-back requires that a title's unescaped emoji and a
  catch-all tag hold no `<`. Both are inserted without escaping, so a `<` in them could look
  like markup. Every other field is escaped and needs no such condition.
- Presentation.GeneratePresentation: states only the default-theme case. A named theme is
  `ApplyTemplateAsWritten` with the `NodeCli` variant and is covered by its contract.
- The exact CSS classes, indentation and newlines of each fragment are kept as constants in
  slides.dfy. The reader checks every one of them.

## Findings

| source | as written | input that shows it | evidently intended | confidence | as-written member | corrected member |
|---|---|---|---|---|---|---|
| scripts/apply-template.js:35-40 | the theme is looked up with `THEMES_CONFIG[key]`, which also finds properties every object inherits | theme name "Constructor" (key "constructor") is accepted, and the class "undefined" is inserted | only the table's own keys resolve, and any other name is "Unknown theme" | not executed | Themes.ResolveThemeAsWritten (shown by Themes.InheritedNamesAccepted, Themes.ConstructorKey and Presentation.ConstructorPage) | Themes.ResolveTheme |
| scripts/apply-template.js:48-51 | `replace` with a string replacement expands `$$`, `$&`, `` $` `` and `$'` in the inserted title, class and slides | a document titled `$$` with template `{{TITLE}}` produces `$` | the escaped title and the fragments are inserted verbatim | not executed | Presentation.FillAsWritten, used by Presentation.ApplyTemplateAsWritten and Presentation.EdgeApplyTemplate (shown by Presentation.DollarTitleCollapses) | Presentation.Fill, used by Presentation.ApplyTemplate |
