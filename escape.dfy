/**
 * `escapeHtml`: the five characters that are special in HTML text and attribute values are
 * replaced by their entities, one character at a time; every other character is copied.
 */
module Escape {

  /** The five reserved characters. */
  predicate Reserved(c: char)
  {
    c == '&' || c == '<' || c == '>' || c == '"' || c == '\''
  }

  /** The replacement of one character: its entity when reserved, otherwise itself. */
  function EscapeChar(c: char): (e: string)
    ensures !Reserved(c) ==> e == [c]
    ensures Reserved(c) ==> |e| >= 4 && e[0] == '&' && e[|e| - 1] == ';'
  {
    match c
    case '&' => "&amp;"
    case '<' => "&lt;"
    case '>' => "&gt;"
    case '"' => "&quot;"
    case '\'' => "&#039;"
    case _ => [c]
  }

  /**
   * `escapeHtml(text)`. A falsy argument (undefined, null, the empty string) gives `""`;
   * absent text is represented by the empty string throughout this model.
   */
  function EscapeHtml(text: string): (r: string)
    ensures text == [] ==> r == []
    ensures |r| >= |text|
    ensures forall i :: 0 <= i < |r| ==> r[i] != '<' && r[i] != '>' && r[i] != '"' && r[i] != '\''
  {
    if text == [] then [] else EscapeChar(text[0]) + EscapeHtml(text[1..])
  }

  /** Escaping works character by character, so it distributes over concatenation. */
  lemma {:induction false} EscapeAppend(a: string, b: string)
    ensures EscapeHtml(a + b) == EscapeHtml(a) + EscapeHtml(b)
  {
    if a != [] {
      assert (a + b)[0] == a[0] && (a + b)[1..] == a[1..] + b;
      EscapeAppend(a[1..], b);
      calc {
        EscapeHtml(a + b);
        EscapeChar(a[0]) + EscapeHtml(a[1..] + b);
        EscapeChar(a[0]) + (EscapeHtml(a[1..]) + EscapeHtml(b));
        (EscapeChar(a[0]) + EscapeHtml(a[1..])) + EscapeHtml(b);
      }
    } else {
      assert a + b == b;
    }
  }

  /** Text without reserved characters is left exactly as it is. */
  lemma {:induction false} EscapePlain(text: string)
    requires forall i :: 0 <= i < |text| ==> !Reserved(text[i])
    ensures EscapeHtml(text) == text
  {
    if text != [] {
      EscapePlain(text[1..]);
    }
  }

  /**
   * The inverse of escaping: the five entities become their characters again, every other
   * character is copied.
   */
  function UnescapeHtml(s: string): string
  {
    if s == [] then []
    else if |s| >= 5 && s[..5] == "&amp;" then "&" + UnescapeHtml(s[5..])
    else if |s| >= 4 && s[..4] == "&lt;" then "<" + UnescapeHtml(s[4..])
    else if |s| >= 4 && s[..4] == "&gt;" then ">" + UnescapeHtml(s[4..])
    else if |s| >= 6 && s[..6] == "&quot;" then "\"" + UnescapeHtml(s[6..])
    else if |s| >= 6 && s[..6] == "&#039;" then "'" + UnescapeHtml(s[6..])
    else [s[0]] + UnescapeHtml(s[1..])
  }

  /** An unreserved character is copied by unescaping. */
  lemma UnescapePlainAppend(c: char, w: string)
    requires !Reserved(c)
    ensures UnescapeHtml([c] + w) == [c] + UnescapeHtml(w)
  {
    var s := [c] + w;
    assert s[0] == c && s[1..] == w;
    assert forall k :: 1 <= k <= |s| ==> s[..k][0] == c;
  }

  /** `&amp;` unescapes to `&`. */
  lemma UnescapeAmpAppend(w: string)
    ensures UnescapeHtml("&amp;" + w) == "&" + UnescapeHtml(w)
  {
    var s := "&amp;" + w;
    assert s[..5] == "&amp;" && s[5..] == w;
  }

  /** `&lt;` unescapes to `<`. */
  lemma UnescapeLtAppend(w: string)
    ensures UnescapeHtml("&lt;" + w) == "<" + UnescapeHtml(w)
  {
    var s := "&lt;" + w;
    assert s[1] == 'l';
    assert s[..4] == "&lt;" && s[4..] == w;
  }

  /** `&gt;` unescapes to `>`. */
  lemma UnescapeGtAppend(w: string)
    ensures UnescapeHtml("&gt;" + w) == ">" + UnescapeHtml(w)
  {
    var s := "&gt;" + w;
    assert s[1] == 'g';
    assert s[..4] == "&gt;" && s[4..] == w;
  }

  /** `&quot;` unescapes to `"`. */
  lemma UnescapeQuotAppend(w: string)
    ensures UnescapeHtml("&quot;" + w) == "\"" + UnescapeHtml(w)
  {
    var s := "&quot;" + w;
    assert s[1] == 'q';
    assert s[..6] == "&quot;" && s[6..] == w;
  }

  /** `&#039;` unescapes to `'`. */
  lemma UnescapeAposAppend(w: string)
    ensures UnescapeHtml("&#039;" + w) == "'" + UnescapeHtml(w)
  {
    var s := "&#039;" + w;
    assert s[1] == '#';
    assert s[..6] == "&#039;" && s[6..] == w;
  }

  /** Unescaping one escaped character and then any text `w`. */
  lemma UnescapeCharAppend(c: char, w: string)
    ensures UnescapeHtml(EscapeChar(c) + w) == [c] + UnescapeHtml(w)
  {
    if !Reserved(c) {
      UnescapePlainAppend(c, w);
    } else if c == '&' {
      UnescapeAmpAppend(w);
    } else if c == '<' {
      UnescapeLtAppend(w);
    } else if c == '>' {
      UnescapeGtAppend(w);
    } else if c == '"' {
      UnescapeQuotAppend(w);
    } else {
      UnescapeAposAppend(w);
    }
  }

  /** Escaped text followed by anything unescapes to the original text followed by the rest. */
  lemma {:induction false} UnescapeEscapeAppend(text: string, w: string)
    ensures UnescapeHtml(EscapeHtml(text) + w) == text + UnescapeHtml(w)
  {
    if text == [] {
      assert EscapeHtml(text) + w == w;
    } else {
      EscapeConsAppend(text, w);
      UnescapeCharAppend(text[0], EscapeHtml(text[1..]) + w);
      UnescapeEscapeAppend(text[1..], w);
      ConsAppend(text, UnescapeHtml(w));
    }
  }

  /** Escaped text followed by `w`, split after the first character's replacement. */
  lemma EscapeConsAppend(text: string, w: string)
    requires text != []
    ensures EscapeHtml(text) + w == EscapeChar(text[0]) + (EscapeHtml(text[1..]) + w)
  {
  }

  /** A non-empty text is its first character followed by the rest. */
  lemma ConsAppend(text: string, u: string)
    requires text != []
    ensures [text[0]] + (text[1..] + u) == text + u
  {
    assert text == [text[0]] + text[1..];
  }

  /** Escaping loses nothing: unescaping recovers the original text. */
  lemma EscapeRoundTrip(text: string)
    ensures UnescapeHtml(EscapeHtml(text)) == text
  {
    UnescapeEscapeAppend(text, []);
    assert EscapeHtml(text) + [] == EscapeHtml(text);
  }

  /** Escaping is injective: two texts with the same escaped form are equal. */
  lemma EscapeInjective(a: string, b: string)
    requires EscapeHtml(a) == EscapeHtml(b)
    ensures a == b
  {
    EscapeRoundTrip(a);
    EscapeRoundTrip(b);
  }

  /** The characters the five entities are spelled with. */
  predicate EntityChar(c: char)
  {
    c == '&' || c == ';' || c == '#' || 'a' <= c <= 'z' || '0' <= c <= '9'
  }

  /** Escaping introduces no character other than those the entities are spelled with. */
  lemma {:induction false} EscapeOmits(text: string, c: char)
    requires c !in text && !EntityChar(c)
    ensures c !in EscapeHtml(text)
  {
    if text != [] {
      assert c !in text[1..] by { assert forall k :: 0 <= k < |text| - 1 ==> text[1..][k] == text[k + 1]; }
      EscapeOmits(text[1..], c);
      assert c !in EscapeChar(text[0]);
    }
  }
}
