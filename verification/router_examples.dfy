/** Worked commands for the router: each one is derived from the general
    normalisation lemmas of `Router`. */
module RouterExamples {
  import opened Wrappers
  import opened Text
  import opened Router

  /** A navigation target that normalisation keeps as it is. */
  predicate CleanWord(w: string) {
    w != [] && w[0] !in "#./" && !IsSpace(w[0]) && !IsSpace(w[|w| - 1])
  }

  lemma NormalizeGoto(w: string)
    requires CleanWord(w)
    ensures Normalize("goto " + w) == w
  {
    GotoStripped(w);
    NormalizeWord("goto " + w, w);
  }

  lemma GotoStripped(w: string)
    requires CleanWord(w)
    ensures StripVerb("goto " + w) == w
  {
    StripGoTo("", " ", w);
    GotoShape(w);
  }

  lemma GotoShape(w: string)
    ensures "goto " + w == "go" + "" + ("to" + " " + w)
  {
  }

  lemma NormalizeGoTo(w: string)
    requires CleanWord(w)
    ensures Normalize("go to " + w) == w
  {
    GoToStripped(w);
    NormalizeWord("go to " + w, w);
  }

  lemma GoToStripped(w: string)
    requires CleanWord(w)
    ensures StripVerb("go to " + w) == w
  {
    StripGoTo(" ", " ", w);
    GoToShape(w);
  }

  lemma GoToShape(w: string)
    ensures "go to " + w == "go" + " " + ("to" + " " + w)
  {
  }

  lemma NormalizeCdSlash(w: string)
    requires CleanWord(w)
    ensures Normalize("cd /" + w) == w
  {
    StripPlainVerb("cd", " ", "/" + w);
    assert "cd /" + w == "cd" + " " + ("/" + w);
    NormalizeParts("cd /" + w, "/", w);
  }

  lemma NormalizeHash(w: string)
    requires CleanWord(w)
    ensures Normalize("#" + w) == w
  {
    var c := "#" + w;
    assert c[0] == '#';
    StripNoVerb(c);
    NormalizeParts(c, "#", w);
  }

  /** Only one verb is stripped. */
  lemma NormalizeDoubledVerb(w: string)
    requires CleanWord(w)
    ensures Normalize("cd cd " + w) == "cd " + w
  {
    var rest := "cd " + w;
    DoubledVerbStripped(w);
    assert rest[|rest| - 1] == w[|w| - 1];
    NormalizeWord("cd cd " + w, rest);
  }

  lemma DoubledVerbStripped(w: string)
    requires CleanWord(w)
    ensures StripVerb("cd cd " + w) == "cd " + w
  {
    StripPlainVerb("cd", " ", "cd " + w);
    assert "cd cd " + w == "cd" + " " + ("cd " + w);
  }

  /** Navigation through a verb and an alias: `goto <alias>` ... */
  lemma ClassifyGotoAlias(n: string, i: nat)
    requires CleanWord(n) && IsLower(n) && DigitSection(n).None?
    requires i < |Aliases| && n in Aliases[i]
    ensures Classify("goto " + n) == Nav(i)
  {
    GotoIsClean(n);
    assert "goto " + n != [];
    DecideNav("goto " + n, n, i);
  }

  lemma GotoIsClean(n: string)
    requires CleanWord(n) && IsLower(n)
    ensures Classify("goto " + n) == Decide("goto " + n, n)
    ensures ThemeCommand(Lower("goto " + n)).None?
  {
    var raw := "goto " + n;
    PrefixedLower("goto ", n);
    assert raw[|raw| - 1] == n[|n| - 1] && raw[0] == 'g';
    ClassifyClean(raw);
    NormalizeGoto(n);
    VerbNoTheme(raw);
  }

  /** ... and `go to <alias>`. */
  lemma ClassifyGoToAlias(n: string, i: nat)
    requires CleanWord(n) && IsLower(n) && DigitSection(n).None?
    requires i < |Aliases| && n in Aliases[i]
    ensures Classify("go to " + n) == Nav(i)
  {
    GoToIsClean(n);
    assert "go to " + n != [];
    DecideNav("go to " + n, n, i);
  }

  lemma GoToIsClean(n: string)
    requires CleanWord(n) && IsLower(n)
    ensures Classify("go to " + n) == Decide("go to " + n, n)
    ensures ThemeCommand(Lower("go to " + n)).None?
  {
    var raw := "go to " + n;
    PrefixedLower("go to ", n);
    assert raw[|raw| - 1] == n[|n| - 1] && raw[0] == 'g';
    ClassifyClean(raw);
    NormalizeGoTo(n);
    VerbNoTheme(raw);
  }

  /** A command opening with `g` is never a theme command. */
  lemma VerbNoTheme(raw: string)
    requires IsLower(raw) && raw != [] && raw[0] == 'g'
    ensures ThemeCommand(Lower(raw)).None?
  {
    LowerOfLower(raw);
    NoThemeCommand(raw);
  }

  lemma PrefixedLower(p: string, n: string)
    requires IsLower(p) && IsLower(n)
    ensures IsLower(p + n)
  {
    assert forall j :: |p| <= j < |p + n| ==> (p + n)[j] == n[j - |p|];
  }

  /** `go` and a target that does not start with `t`. */
  lemma ClassifyAfterGo(rest: string)
    requires rest != [] && !IsSpace(rest[|rest| - 1]) && IsLower(rest) && !IsSpace(rest[0]) && rest[0] !in "#./" && (|rest| < 2 || rest[..2] != "to")
    ensures Classify("go " + rest) == Decide("go " + rest, rest)
  {
    var raw := "go " + rest;
    assert IsLower(raw) by {
      assert forall i :: 3 <= i < |raw| ==> raw[i] == rest[i - 3];
    }
    assert raw[|raw| - 1] == rest[|rest| - 1];
    ClassifyClean(raw);
    NormalizeAfterGo(rest);
  }

  lemma NormalizeAfterGo(rest: string)
    requires rest != [] && !IsSpace(rest[|rest| - 1]) && !IsSpace(rest[0]) && rest[0] !in "#./" && (|rest| < 2 || rest[..2] != "to")
    ensures Normalize("go " + rest) == rest
  {
    assert "go " + rest == "go" + " " + rest;
    StripGo(" ", rest);
    NormalizeWord("go " + rest, rest);
  }

  /** The last rule: nothing matched and no selector was typed. */
  lemma DecideNothing(original: string, c: string)
    requires original != [] && IsLower(original) && ThemeCommand(original).None?
    requires c !in ThemeWords && DigitSection(c).None? && AliasSection(c).None? && !StartsSelector(original)
    ensures Decide(original, c) == Ignore
  {
    LowerOfLower(original);
  }

  /** Navigation through a numeric shortcut. */
  lemma ClassifyDigit()
    ensures Classify("2") == Nav(1)
  {
    assert IsLower("2");
    ClassifyPlain("2");
    assert ThemeCommand("2").None?;
    DecideNav("2", "2", 1);
  }

  lemma UpperThemeLowered()
    ensures Lower(Trim("THEME blue")) == "theme blue"
  {
    TrimClean("THEME blue");
    LowerThemeBlue();
  }

  lemma LowerThemeBlue()
    ensures Lower("THEME blue") == "theme blue"
  {
  }

  /** Theme commands ignore letter case. */
  lemma ClassifyUpperTheme()
    ensures Classify("THEME blue") == Theme(Blue)
  {
    UpperThemeLowered();
    ThemeBlueSentence();
    ClassifyTheme("THEME blue", Blue);
  }

  lemma ThemeBlueSentence()
    ensures IsThemeSentence("theme blue", Blue)
  {
    var t := "theme blue";
    assert t[..5] == "theme";
    assert t[5..6] == " ";
    assert t[6..] == "blue";
  }

  /** Any whitespace run may separate the theme word from the colour. */
  lemma ClassifySpacedTheme()
    ensures Classify("theme   blue") == Theme(Blue)
  {
    var t := "theme   blue";
    SpacedThemeLowered();
    SpacedThemeSentence();
    ClassifyTheme(t, Blue);
  }

  lemma SpacedThemeLowered()
    ensures Lower(Trim("theme   blue")) == "theme   blue"
  {
    var t := "theme   blue";
    TrimClean(t);
    assert IsLower(t);
    LowerOfLower(t);
  }

  lemma SpacedThemeSentence()
    ensures IsThemeSentence("theme   blue", Blue)
  {
    var t := "theme   blue";
    assert t[..5] == "theme";
    assert t[5..8] == "   ";
    assert t[8..] == "blue";
  }

  /** An unknown colour changes nothing. */
  lemma ClassifyUnknownColour()
    ensures Classify("theme purple") == Ignore
  {
    PurplePlain();
    PurpleDecided();
  }

  lemma PurplePlain()
    ensures Classify("theme purple") == Decide("theme purple", "theme purple")
  {
    var t := "theme purple";
    assert IsLower(t);
    assert !VerbLetters(t) by { assert t[0] == 't' && t[1] == 'h'; }
    ClassifyPlain(t);
  }

  lemma PurpleDecided()
    ensures Decide("theme purple", "theme purple") == Ignore
  {
    var t := "theme purple";
    PurpleFacts();
    PurpleNotTheme();
    PurpleNotAlias();
    DecideNothing(t, t);
  }

  lemma PurpleFacts()
    ensures var t := "theme purple";
      IsLower(t) && t !in ThemeWords && DigitSection(t).None? && !StartsSelector(t)
  {
  }

  lemma PurpleNotTheme()
    ensures ThemeCommand("theme purple").None?
  {
    var t := "theme purple";
    assert t[..5] == "theme";
    assert t[5..] == " purple" && t[6..] == "purple";
    assert LeadingSpaces(t[5..]) == 1;
    assert ThemeWordEnd(t) == Some(6);
  }

  lemma PurpleNotAlias()
    ensures AliasSection("theme purple").None?
  {
  }

  lemma ThemeBlueNotAlias()
    ensures AliasSection("theme blue").None?
  {
  }

  /** The theme rule looks at the whole command, so a verb in front of it
      turns it into an unknown navigation target. */
  lemma ClassifyVerbBeforeTheme()
    ensures Classify("go theme blue") == Ignore
  {
    VerbThemeStripped();
    VerbThemeDecided();
  }

  lemma VerbThemeStripped()
    ensures Classify("go theme blue") == Decide("go theme blue", "theme blue")
  {
    assert "go " + "theme blue" == "go theme blue";
    var rest := "theme blue";
    assert IsLower(rest);
    assert rest[0] == 't' && rest[1] == 'h' && rest[|rest| - 1] == 'e';
    assert rest[..2] != "to" by { assert rest[..2][1] == 'h'; }
    ClassifyAfterGo(rest);
  }

  lemma VerbThemeNotTheme()
    ensures ThemeCommand("go theme blue").None?
  {
    var t := "go theme blue";
    assert t[0] == 'g';
    assert forall i :: 0 < i <= |t| ==> t[..i][0] == 'g';
    assert ThemeWordEnd(t).None?;
  }

  lemma VerbThemeDecided()
    ensures Decide("go theme blue", "theme blue") == Ignore
  {
    var t := "go theme blue";
    assert IsLower(t);
    VerbThemeNotTheme();
    ThemeBlueNotAlias();
    assert "theme blue" !in ThemeWords;
    assert DigitSection("theme blue").None?;
    assert !StartsSelector(t);
    DecideNothing(t, "theme blue");
  }
}
