/**
 * Theme resolution: a human-readable theme name is lowered, its first space becomes a
 * hyphen, and the resulting key is looked up in the theme table.
 */
module Themes {
  import opened Wrappers
  import opened Text

  /** One entry of the theme table. */
  datatype ThemeConfig = ThemeConfig(name: string, className: string)

  /** The table built into the edge-runtime renderer. */
  const ThemesConfig: map<string, ThemeConfig> := map[
    "dark-tech" := ThemeConfig("Dark Tech", "theme-dark-tech"),
    "corporate" := ThemeConfig("Corporate", "theme-corporate"),
    "minimal" := ThemeConfig("Minimal", "theme-minimal"),
    "playful" := ThemeConfig("Playful", "theme-playful")
  ]

  /**
   * `themeName.toLowerCase().replace(' ', '-')`: every ASCII capital is lowered and only the
   * first space, if there is one, becomes a hyphen; later spaces stay.
   */
  function ThemeKey(themeName: string): string
  {
    ReplaceFirst(ToLowerAscii(themeName), " ", "-")
  }

  /**
   * Resolving a theme name to its CSS class. A key outside the table is the terminal
   * "Unknown theme" error, which names the name as given, before normalisation.
   */
  function ResolveTheme(themeName: string, table: map<string, ThemeConfig>): (r: Result<string, Failure>)
    ensures r.Ok? <==> ThemeKey(themeName) in table
    ensures r.Ok? ==> r.value == table[ThemeKey(themeName)].className
    ensures r.Err? ==> r.error == UnknownTheme(themeName)
  {
    var key := ThemeKey(themeName);
    if key in table then Ok(table[key].className) else Err(UnknownTheme(themeName))
  }

  /**
   * The all-lower-case property names every JavaScript object inherits from
   * `Object.prototype`; indexing the table with one of them yields a truthy value.
   */
  const InheritedKeys: set<string> := {"constructor", "__proto__"}

  /**
   * Resolution as the code performs it: `table[key]` also finds the inherited properties,
   * whose value has no `className`, so `undefined` passes the truthiness test and the
   * string "undefined" is what reaches the template.
   */
  function ResolveThemeAsWritten(themeName: string, table: map<string, ThemeConfig>): (r: Result<string, Failure>)
    ensures r.Err? <==> ThemeKey(themeName) !in table && ThemeKey(themeName) !in InheritedKeys
    ensures ThemeKey(themeName) in table ==> r == ResolveTheme(themeName, table)
    ensures r.Err? ==> r.error == UnknownTheme(themeName)
  {
    var key := ThemeKey(themeName);
    if key in table then Ok(table[key].className)
    else if key in InheritedKeys then Ok("undefined")
    else Err(UnknownTheme(themeName))
  }

  /** A name without spaces is only lowered. */
  lemma ThemeKeyOneWord(themeName: string)
    requires ' ' !in themeName
    ensures ThemeKey(themeName) == ToLowerAscii(themeName)
  {
    var lower := ToLowerAscii(themeName);
    LowerAt(themeName);
    assert ' ' !in lower by {
      forall i | 0 <= i < |lower| ensures lower[i] != ' ' {
        assert themeName[i] != ' ';
      }
    }
    FindAbsentChar(lower, ' ');
  }

  /** A name of two words: its first space, and only that one, becomes the hyphen. */
  lemma ThemeKeyTwoWords(first: string, rest: string)
    requires ' ' !in first
    ensures ThemeKey(first + " " + rest) == ToLowerAscii(first) + "-" + ToLowerAscii(rest)
  {
    var lf, lr := ToLowerAscii(first), ToLowerAscii(rest);
    LowerAt(first);
    LowerAppend(first + " ", rest);
    LowerAppend(first, " ");
    assert ToLowerAscii(" ") == " ";
    forall j | 0 <= j < |lf| ensures !OccursAt(lf + " " + lr, " ", j) {
      assert lf[j] == LowerChar(first[j]) && first[j] != ' ';
      NoOccurrenceWithout(lf + " " + lr, " ", j);
    }
    ReplaceAtFirst(lf, " ", lr, "-");
  }

  /** A one-word name's key, checked character by character. */
  lemma OneWordKey(themeName: string, key: string)
    requires ' ' !in themeName
    requires |key| == |themeName| && forall i :: 0 <= i < |key| ==> key[i] == LowerChar(themeName[i])
    ensures ThemeKey(themeName) == key
  {
    ThemeKeyOneWord(themeName);
    LowerAt(themeName);
  }

  /** Lower-casing checked character by character. */
  lemma LowerIs(s: string, t: string)
    requires |t| == |s| && forall i :: 0 <= i < |s| ==> t[i] == LowerChar(s[i])
    ensures ToLowerAscii(s) == t
  {
    LowerAt(s);
  }

  /** The key of the documented example name "Dark Tech". */
  lemma DarkTechKey()
    ensures ThemeKey("Dark" + " " + "Tech") == "dark-tech"
  {
    ThemeKeyTwoWords("Dark", "Tech");
    LowerIs("Dark", "dark");
    LowerIs("Tech", "tech");
  }

  /** Only the first of two spaces becomes a hyphen. */
  lemma DarkTechProKey()
    ensures ThemeKey("Dark" + " " + "Tech Pro") == "dark-tech pro"
  {
    ThemeKeyTwoWords("Dark", "Tech Pro");
    LowerDark();
    LowerTechPro();
    assert "dark" + "-" + "tech pro" == "dark-tech pro";
  }

  /** "Dark" lowered. */
  lemma LowerDark()
    ensures ToLowerAscii("Dark") == "dark"
  {
    LowerIs("Dark", "dark");
  }

  /** "Tech Pro" lowered: the space is kept. */
  lemma LowerTechPro()
    ensures ToLowerAscii("Tech Pro") == "tech pro"
  {
    LowerIs("Tech Pro", "tech pro");
  }

  /** Every built-in theme's class is its key prefixed with "theme-". */
  lemma BuiltInClasses()
    ensures forall key :: key in ThemesConfig ==> ThemesConfig[key].className == "theme-" + key
  {
  }

  /** A name whose key is built in resolves to "theme-" followed by that key. */
  lemma ResolveBuiltIn(themeName: string)
    requires ThemeKey(themeName) in ThemesConfig
    ensures ResolveTheme(themeName, ThemesConfig) == Ok("theme-" + ThemeKey(themeName))
  {
    BuiltInClasses();
  }

  /** "Dark Tech" resolves to the dark technology class. */
  lemma ResolveDarkTech()
    ensures ResolveTheme("Dark" + " " + "Tech", ThemesConfig) == Ok("theme-dark-tech")
  {
    DarkTechKey();
  }

  /** "corporate", already lower-case, resolves to the corporate class. */
  lemma ResolveCorporate()
    ensures ResolveTheme("corporate", ThemesConfig) == Ok("theme-corporate")
  {
    OneWordKey("corporate", "corporate");
  }

  /** A name with a second space is unknown, since only its first space is replaced. */
  lemma ResolveDarkTechPro()
    ensures ResolveTheme("Dark" + " " + "Tech Pro", ThemesConfig) == Err(UnknownTheme("Dark Tech Pro"))
  {
    DarkTechProKey();
    assert "dark-tech pro" !in ThemesConfig;
    assert "Dark" + " " + "Tech Pro" == "Dark Tech Pro";
  }

  /** An unknown name is the terminal error naming it. */
  lemma ResolveUnknownExample()
    ensures ResolveTheme("Neon", ThemesConfig) == Err(UnknownTheme("Neon"))
    ensures UnknownTheme("Neon").Message() == "Unknown theme: Neon"
  {
    OneWordKey("Neon", "neon");
  }

  /** The display name of every built-in theme has that theme's key. */
  lemma DisplayNamesAreKeys()
    ensures forall key :: key in ThemesConfig ==> ThemeKey(ThemesConfig[key].name) == key
  {
    forall key | key in ThemesConfig
      ensures ThemeKey(ThemesConfig[key].name) == key
    {
      NameIsKey(ThemesConfig[key].name, key);
    }
  }

  /** One built-in theme's display name and its key. */
  lemma NameIsKey(name: string, key: string)
    requires key in ThemesConfig && name == ThemesConfig[key].name
    ensures ThemeKey(name) == key
  {
    if key == "corporate" {
      CorporateKey();
    } else if key == "minimal" {
      MinimalKey();
    } else if key == "playful" {
      PlayfulKey();
    } else {
      DarkTechKey();
      assert "Dark" + " " + "Tech" == name;
    }
  }

  /** "Corporate" lowers to its key. */
  lemma CorporateKey()
    ensures ThemeKey("Corporate") == "corporate"
  {
    OneWordKey("Corporate", "corporate");
  }

  /** "Minimal" lowers to its key. */
  lemma MinimalKey()
    ensures ThemeKey("Minimal") == "minimal"
  {
    OneWordKey("Minimal", "minimal");
  }

  /** "Playful" lowers to its key. */
  lemma PlayfulKey()
    ensures ThemeKey("Playful") == "playful"
  {
    OneWordKey("Playful", "playful");
  }

  /**
   * A name whose key is an inherited property name is not a theme, yet the code accepts it
   * and inserts "undefined" as the theme class; "Constructor" is one such name.
   */
  lemma InheritedNamesAccepted(themeName: string)
    requires ThemeKey(themeName) in InheritedKeys
    ensures ResolveTheme(themeName, ThemesConfig) == Err(UnknownTheme(themeName))
    ensures ResolveThemeAsWritten(themeName, ThemesConfig) == Ok("undefined")
  {
  }

  /** "Constructor" lowers to an inherited property name. */
  lemma ConstructorKey()
    ensures ThemeKey("Constructor") == "constructor" && "constructor" in InheritedKeys
  {
    OneWordKey("Constructor", "constructor");
  }

  /** The character-by-character description of the theme key. */
  lemma ThemeKeyChars(themeName: string)
    ensures var key := ThemeKey(themeName);
      |key| == |themeName| &&
      forall i :: 0 <= i < |themeName| ==>
        key[i] == if themeName[i] == ' ' && ' ' !in themeName[..i] then '-' else LowerChar(themeName[i])
  {
    var lower := ToLowerAscii(themeName);
    LowerAt(themeName);
    ReplaceFirstCharAt(lower, ' ', '-');
    forall i | 0 <= i <= |lower|
      ensures (' ' in lower[..i]) == (' ' in themeName[..i])
    {
      LowerKeepsSpaces(themeName, i);
    }
  }

  /** Lowering neither adds nor removes spaces. */
  lemma LowerKeepsSpaces(s: string, i: nat)
    requires i <= |s|
    ensures (' ' in ToLowerAscii(s)[..i]) == (' ' in s[..i])
  {
    var lower := ToLowerAscii(s);
    LowerAt(s);
    if ' ' in s[..i] {
      var j :| 0 <= j < i && s[..i][j] == ' ';
      assert lower[..i][j] == ' ';
    }
    if ' ' in lower[..i] {
      var j :| 0 <= j < i && lower[..i][j] == ' ';
      assert s[..i][j] == ' ';
    }
  }
}
