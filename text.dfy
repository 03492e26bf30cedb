/**
 * The JavaScript string operations the renderer is built from: first-occurrence search,
 * `String.prototype.replace` with a string pattern, `Array.prototype.join` and an ASCII
 * `toLowerCase`.
 */
module Text {
  import opened Wrappers

  /** `pat` occurs in `s` starting at index `j`. */
  predicate OccursAt(s: string, pat: string, j: int)
  {
    0 <= j && j + |pat| <= |s| && s[j..j + |pat|] == pat
  }

  /** `pat` occurs somewhere in `s`. */
  ghost predicate Contains(s: string, pat: string)
  {
    exists j :: OccursAt(s, pat, j)
  }

  /** The first index at or after `i` where `pat` occurs in `s` (the search behind `indexOf`). */
  function FindFrom(s: string, pat: string, i: nat): (r: Option<nat>)
    requires i <= |s|
    ensures r.Some? ==> i <= r.value && r.value + |pat| <= |s|
    decreases |s| - i
  {
    if i + |pat| > |s| then None
    else if (pat == [] || s[i] == pat[0]) && s[i..i + |pat|] == pat then Some(i)
    else FindFrom(s, pat, i + 1)
  }

  /** The search finds the first occurrence at or after `i`, and fails only when there is none. */
  lemma {:induction false} FindFromSpec(s: string, pat: string, i: nat)
    requires i <= |s|
    ensures FindFrom(s, pat, i).Some? ==>
      var k := FindFrom(s, pat, i).value;
      i <= k && OccursAt(s, pat, k) && forall j :: i <= j < k ==> !OccursAt(s, pat, j)
    ensures FindFrom(s, pat, i).None? ==> forall j :: i <= j ==> !OccursAt(s, pat, j)
    decreases |s| - i
  {
    if i + |pat| <= |s| && !((pat == [] || s[i] == pat[0]) && s[i..i + |pat|] == pat) {
      FindFromSpec(s, pat, i + 1);
    }
  }

  /** The first occurrence of `pat` in `s`, if any. */
  function FindFirst(s: string, pat: string): Option<nat>
  {
    FindFrom(s, pat, 0)
  }

  /** `k` is where `pat` first occurs in `s`. */
  predicate FirstOccurrence(s: string, pat: string, k: int)
  {
    OccursAt(s, pat, k) && forall j :: 0 <= j < k ==> !OccursAt(s, pat, j)
  }

  /** The search result is the first occurrence, and there is none exactly when it fails. */
  lemma FindFirstSpec(s: string, pat: string)
    ensures FindFirst(s, pat).Some? <==> Contains(s, pat)
    ensures FindFirst(s, pat).Some? ==> FirstOccurrence(s, pat, FindFirst(s, pat).value)
  {
    FindFromSpec(s, pat, 0);
  }

  /**
   * The replacement text of `String.prototype.replace` for a string pattern (the
   * GetSubstitution operation of the ECMAScript language specification): `$$` gives `$`,
   * `$&` the matched text, `` $` `` the text before the match, `$'` the text after it; a
   * string pattern has no capture groups, so every other `$` is copied as it stands.
   */
  function Expand(rep: string, before: string, matched: string, after: string): string
  {
    if rep == [] then []
    else if rep[0] == '$' && |rep| >= 2 && rep[1] == '$' then "$" + Expand(rep[2..], before, matched, after)
    else if rep[0] == '$' && |rep| >= 2 && rep[1] == '&' then matched + Expand(rep[2..], before, matched, after)
    else if rep[0] == '$' && |rep| >= 2 && rep[1] == '`' then before + Expand(rep[2..], before, matched, after)
    else if rep[0] == '$' && |rep| >= 2 && rep[1] == '\'' then after + Expand(rep[2..], before, matched, after)
    else [rep[0]] + Expand(rep[1..], before, matched, after)
  }

  /** A replacement without `$` is inserted verbatim. */
  lemma {:induction false} ExpandPlain(rep: string, before: string, matched: string, after: string)
    requires '$' !in rep
    ensures Expand(rep, before, matched, after) == rep
  {
    if rep != [] {
      assert rep[0] != '$';
      assert '$' !in rep[1..] by { assert forall k :: 0 <= k < |rep| - 1 ==> rep[1..][k] == rep[k + 1]; }
      ExpandPlain(rep[1..], before, matched, after);
    }
  }

  /**
   * `s.replace(pat, rep)` for a string pattern: only the first occurrence of `pat` is
   * replaced, by the expansion of `rep`; without an occurrence `s` is returned unchanged.
   */
  function ReplaceFirst(s: string, pat: string, rep: string): string
  {
    match FindFirst(s, pat)
    case None => s
    case Some(k) => s[..k] + Expand(rep, s[..k], pat, s[k + |pat|..]) + s[k + |pat|..]
  }

  /**
   * What `replace` does, told by occurrences: without one the text is returned as it is;
   * otherwise the text before the first occurrence and the text after it are kept, and the
   * expanded replacement stands between them.
   */
  lemma ReplaceFirstSpec(s: string, pat: string, rep: string)
    ensures !Contains(s, pat) ==> ReplaceFirst(s, pat, rep) == s
    ensures forall k :: FirstOccurrence(s, pat, k) ==>
      ReplaceFirst(s, pat, rep) == s[..k] + Expand(rep, s[..k], pat, s[k + |pat|..]) + s[k + |pat|..]
  {
    FindFirstSpec(s, pat);
    forall k | FirstOccurrence(s, pat, k)
      ensures FindFirst(s, pat) == Some(k)
    {
    }
  }

  /**
   * Replacing the first occurrence of `pat` by `rep` inserted verbatim: what the placeholder
   * substitution is meant to do, without the `$` patterns of `replace`.
   */
  function ReplaceFirstLiteral(s: string, pat: string, rep: string): string
  {
    match FindFirst(s, pat)
    case None => s
    case Some(k) => s[..k] + rep + s[k + |pat|..]
  }

  /**
   * The verbatim replacement told by occurrences: without one the text is returned as it
   * is; otherwise the first occurrence, and only it, gives way to `rep`.
   */
  lemma ReplaceFirstLiteralSpec(s: string, pat: string, rep: string)
    ensures !Contains(s, pat) ==> ReplaceFirstLiteral(s, pat, rep) == s
    ensures forall k :: FirstOccurrence(s, pat, k) ==>
      ReplaceFirstLiteral(s, pat, rep) == s[..k] + rep + s[k + |pat|..]
  {
    FindFirstSpec(s, pat);
    forall k | FirstOccurrence(s, pat, k)
      ensures FindFirst(s, pat) == Some(k)
    {
    }
  }

  /** `replace` and the verbatim replacement agree whenever the replacement holds no `$`. */
  lemma ReplaceAgrees(s: string, pat: string, rep: string)
    requires '$' !in rep
    ensures ReplaceFirst(s, pat, rep) == ReplaceFirstLiteral(s, pat, rep)
  {
    match FindFirst(s, pat)
    case None =>
    case Some(k) =>
      ExpandPlain(rep, s[..k], pat, s[k + |pat|..]);
  }

  /** The occurrence of `pat` between `a` and `b` is the first when none starts inside `a`. */
  lemma FirstAt(a: string, pat: string, b: string)
    requires forall j :: 0 <= j < |a| ==> !OccursAt(a + pat + b, pat, j)
    ensures FirstOccurrence(a + pat + b, pat, |a|)
    ensures (a + pat + b)[..|a|] == a && (a + pat + b)[|a| + |pat|..] == b
  {
    var s := a + pat + b;
    assert s[|a|..|a| + |pat|] == pat;
  }

  /** The replacement `$$` expands to a single `$`. */
  lemma ExpandDollars(before: string, matched: string, after: string)
    ensures Expand("$$", before, matched, after) == "$"
  {
    assert Expand("$$", before, matched, after) == "$" + Expand([], before, matched, after);
  }

  /**
   * When `pat` does not start before the end of `a` in `a + pat + b`, the verbatim
   * replacement puts `rep` exactly where that occurrence stood.
   */
  lemma LiteralAtFirst(a: string, pat: string, b: string, rep: string)
    requires forall j :: 0 <= j < |a| ==> !OccursAt(a + pat + b, pat, j)
    ensures ReplaceFirstLiteral(a + pat + b, pat, rep) == a + rep + b
  {
    var s := a + pat + b;
    FirstAt(a, pat, b);
    ReplaceFirstLiteralSpec(s, pat, rep);
  }

  /** A text shorter than the pattern is left alone by both replacements. */
  lemma ShorterUnchanged(s: string, pat: string, rep: string)
    requires |s| < |pat|
    ensures ReplaceFirst(s, pat, rep) == s && ReplaceFirstLiteral(s, pat, rep) == s
  {
  }

  /**
   * `replace` does not insert a replacement of `$$` verbatim: it inserts a single `$`
   * where the first occurrence stood.
   */
  lemma ReplaceCollapsesDollars(a: string, pat: string, b: string)
    requires forall j :: 0 <= j < |a| ==> !OccursAt(a + pat + b, pat, j)
    ensures ReplaceFirst(a + pat + b, pat, "$$") == a + "$" + b
  {
    var s := a + pat + b;
    FirstAt(a, pat, b);
    ReplaceFirstSpec(s, pat, "$$");
    ExpandDollars(a, pat, b);
  }

  /**
   * Replacing the first occurrence: when `pat` does not occur before the end of `a` in
   * `a + pat + b` (for instance because `a` holds no `{` and `pat` starts with one), a
   * `$`-free replacement lands exactly where that occurrence stood and nothing else moves.
   */
  lemma ReplaceAtFirst(a: string, pat: string, b: string, rep: string)
    requires forall j :: 0 <= j < |a| ==> !OccursAt(a + pat + b, pat, j)
    requires '$' !in rep
    ensures ReplaceFirst(a + pat + b, pat, rep) == a + rep + b
  {
    var s := a + pat + b;
    FirstAt(a, pat, b);
    ReplaceFirstSpec(s, pat, rep);
    ExpandPlain(rep, a, pat, b);
  }

  /**
   * Replacing the first occurrence of a single character by another character (other than
   * `$`), described index by index.
   */
  lemma ReplaceFirstCharAt(s: string, c: char, d: char)
    requires d != '$'
    ensures |ReplaceFirst(s, [c], [d])| == |s|
    ensures forall i :: 0 <= i < |s| ==>
      ReplaceFirst(s, [c], [d])[i] == if s[i] == c && c !in s[..i] then d else s[i]
  {
    var r := ReplaceFirst(s, [c], [d]);
    FindFirstSpec(s, [c]);
    match FindFirst(s, [c])
    case None =>
      forall i | 0 <= i < |s| ensures s[i] != c {
        assert !OccursAt(s, [c], i);
        assert s[i..i + 1] == [s[i]];
      }
    case Some(k) =>
      ExpandPlain([d], s[..k], [c], s[k + 1..]);
      assert s[k] == c by { assert s[k..k + 1] == [c]; }
      assert r == s[..k] + [d] + s[k + 1..];
      forall i | 0 <= i < |s| ensures r[i] == if s[i] == c && c !in s[..i] then d else s[i] {
        if i < k {
          assert s[i] == c ==> OccursAt(s, [c], i);
          assert c !in s[..i] by {
            forall j | 0 <= j < i ensures s[j] != c {
              assert s[j] == c ==> OccursAt(s, [c], j);
            }
          }
        } else if i == k {
          forall j | 0 <= j < i ensures s[j] != c {
            assert s[j] == c ==> OccursAt(s, [c], j);
          }
        } else {
          assert s[..i][k] == c;
        }
      }
  }

  /** A string none of whose characters is `c` holds no occurrence of a pattern that starts with `c`. */
  lemma NoOccurrenceWithout(s: string, pat: string, j: int)
    requires |pat| > 0 && 0 <= j < |s| && s[j] != pat[0]
    ensures !OccursAt(s, pat, j)
  {
  }

  /** A character that does not occur in `s` is not found. */
  lemma FindAbsentChar(s: string, c: char)
    requires c !in s
    ensures FindFirst(s, [c]) == None
  {
    forall j | 0 <= j < |s| ensures !OccursAt(s, [c], j) {
      NoOccurrenceWithout(s, [c], j);
    }
    FindFirstSpec(s, [c]);
  }

  /** The pieces of a template literal, concatenated in order. */
  function Concat(pieces: seq<string>): string
  {
    if pieces == [] then "" else pieces[0] + Concat(pieces[1..])
  }

  /** `Array.prototype.join`: the parts in order, with `sep` between neighbours. */
  function Join(parts: seq<string>, sep: string): (r: string)
    ensures parts == [] ==> r == ""
    ensures parts != [] ==> |r| >= |parts[0]| && r[..|parts[0]|] == parts[0]
  {
    if parts == [] then ""
    else if |parts| == 1 then parts[0]
    else
      assert (parts[0] + sep + Join(parts[1..], sep))[..|parts[0]|] == parts[0];
      parts[0] + sep + Join(parts[1..], sep)
  }

  /** `c` lowered when it is an ASCII capital letter. */
  function LowerChar(c: char): (d: char)
    ensures 'A' <= c <= 'Z' ==> 'a' <= d <= 'z' && d as int - c as int == 32
    ensures !('A' <= c <= 'Z') ==> d == c
  {
    if 'A' <= c <= 'Z' then (c as int + 32) as char else c
  }

  /** Lowering works character by character. */
  lemma {:induction false} LowerAppend(a: string, b: string)
    ensures ToLowerAscii(a + b) == ToLowerAscii(a) + ToLowerAscii(b)
  {
    if a == [] {
      assert a + b == b;
    } else {
      assert (a + b)[0] == a[0] && (a + b)[1..] == a[1..] + b;
      LowerAppend(a[1..], b);
    }
  }

  /** `toLowerCase` restricted to ASCII letters. */
  function ToLowerAscii(s: string): (r: string)
    ensures |r| == |s|
  {
    if s == [] then [] else [LowerChar(s[0])] + ToLowerAscii(s[1..])
  }

  /** Lowering keeps the length and lowers each character in place. */
  lemma {:induction false} LowerAt(s: string)
    ensures |ToLowerAscii(s)| == |s|
    ensures forall i :: 0 <= i < |s| ==> ToLowerAscii(s)[i] == LowerChar(s[i])
  {
    if s != [] {
      LowerAt(s[1..]);
    }
  }
}
