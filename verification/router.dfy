/** The site shell (frontend/src/App.jsx): the terminal command classifier,
    the accent/palette choice and the scroll-driven section tracker. */
module Router {
  import opened Wrappers
  import opened Text

  // ---------------------------------------------------------------------
  // Theme keys
  // ---------------------------------------------------------------------

  datatype ThemeKey = Red | Blue | Green | Yellow | Peach | Black | White

  function ThemeName(k: ThemeKey): string {
    match k
    case Red => "red"
    case Blue => "blue"
    case Green => "green"
    case Yellow => "yellow"
    case Peach => "peach"
    case Black => "black"
    case White => "white"
  }

  /** Reads a colour word back into its key: the inverse of `ThemeName`. */
  function ParseTheme(s: string): (r: Option<ThemeKey>)
    ensures r.Some? ==> ThemeName(r.value) == s
    ensures forall k :: ThemeName(k) == s ==> r == Some(k)
  {
    if s == "red" then Some(Red)
    else if s == "blue" then Some(Blue)
    else if s == "green" then Some(Green)
    else if s == "yellow" then Some(Yellow)
    else if s == "peach" then Some(Peach)
    else if s == "black" then Some(Black)
    else if s == "white" then Some(White)
    else None
  }

  /** The words that introduce a theme command. */
  const ThemeWords: seq<string> := ["theme", "color", "accent"]

  // ---------------------------------------------------------------------
  // Word-and-whitespace matching (the regular expressions of the router)
  // ---------------------------------------------------------------------

  /** When `s` starts with `w` followed by at least one whitespace character,
      the index just past that whole whitespace run (a greedy `w\s+`). */
  function AfterWord(s: string, w: string): (r: Option<nat>)
    ensures r.Some? <==> (w <= s && |w| < |s| && IsSpace(s[|w|]))
    ensures r.Some? ==> |w| < r.value <= |s| && s[..|w|] == w && AllSpace(s[|w|..r.value])
    ensures r.Some? && r.value < |s| ==> !IsSpace(s[r.value])
  {
    if w <= s then
      var k := LeadingSpaces(s[|w|..]);
      if k > 0 then
        assert s[|w|..|w| + k] == s[|w|..][..k];
        Some(|w| + k)
      else None
    else None
  }

  /** `LeadingSpaces` is the exact length of the whitespace run it reports. */
  lemma {:induction false} LeadingSpacesExact(s: string, m: nat)
    requires m <= |s| && AllSpace(s[..m]) && (m < |s| ==> !IsSpace(s[m]))
    ensures LeadingSpaces(s) == m
    decreases m
  {
    if m > 0 {
      assert s[..m][0] == s[0];
      var t := s[1..];
      assert t[..m - 1] == s[..m][1..];
      LeadingSpacesExact(t, m - 1);
    }
  }

  /** A word, a non-empty whitespace run and text that does not start with
      whitespace: the word rule consumes exactly the word and the run. */
  lemma WordThenSpaces(w: string, ws: string, rest: string)
    requires ws != [] && AllSpace(ws) && (rest == [] || !IsSpace(rest[0]))
    ensures AfterWord(w + ws + rest, w) == Some(|w| + |ws|)
    ensures (w + ws + rest)[|w| + |ws|..] == rest
  {
    var c := w + ws + rest;
    assert c[..|w|] == w;
    assert c[|w|..] == ws + rest;
    assert (ws + rest)[..|ws|] == ws;
    LeadingSpacesExact(ws + rest, |ws|);
  }

  /** Two maximal whitespace runs starting at the same index end together. */
  lemma SpaceRunUnique(s: string, i: nat, m: nat, n: nat)
    requires i <= m <= |s| && i <= n <= |s|
    requires AllSpace(s[i..m]) && (m < |s| ==> !IsSpace(s[m]))
    requires AllSpace(s[i..n]) && (n < |s| ==> !IsSpace(s[n]))
    ensures m == n
  {
  }

  // ---------------------------------------------------------------------
  // Theme commands: `^(theme|color|accent)\s+(red|...|white)\s*$`
  // ---------------------------------------------------------------------

  /** `t` opens with the theme word `t[..i]` and the whitespace run
      `t[i..n]`, which is as long as it can be. */
  ghost predicate ThemeWordSplit(t: string, i: nat, n: nat) {
    0 < i < n <= |t| && t[..i] in ThemeWords && AllSpace(t[i..n]) && (n < |t| ==> !IsSpace(t[n]))
  }

  /** End of the leading theme word and its whitespace, if any. */
  function ThemeWordEnd(t: string): (r: Option<nat>)
    ensures r.Some? ==> exists i :: ThemeWordSplit(t, i, r.value)
    ensures forall i :: 0 < i < |t| && t[..i] in ThemeWords && IsSpace(t[i]) ==> r.Some?
  {
    var theme := AfterWord(t, "theme");
    var color := AfterWord(t, "color");
    var accent := AfterWord(t, "accent");
    assert theme.Some? ==> ThemeWordSplit(t, 5, theme.value);
    assert color.Some? ==> ThemeWordSplit(t, 5, color.value);
    assert accent.Some? ==> ThemeWordSplit(t, 6, accent.value);
    assert forall i :: 0 < i < |t| && t[..i] in ThemeWords && IsSpace(t[i]) ==> t[..i] <= t;
    if theme.Some? then theme
    else if color.Some? then color
    else accent
  }

  /** The key of a theme command, for text that is already trimmed (so the
      trailing `\s*` of the pattern can only match the empty string). */
  function ThemeCommand(t: string): (r: Option<ThemeKey>)
    ensures r.Some? ==> |ThemeName(r.value)| < |t| && t[|t| - |ThemeName(r.value)|..] == ThemeName(r.value)
  {
    match ThemeWordEnd(t)
    case Some(n) => ParseTheme(t[n..])
    case None => None
  }

  /** Reference reading of the theme pattern: a theme word, a non-empty
      whitespace run, and exactly one colour word. */
  ghost predicate IsThemeSentence(t: string, k: ThemeKey) {
    exists i, j :: 0 < i < j <= |t| && t[..i] in ThemeWords && AllSpace(t[i..j]) && t[j..] == ThemeName(k)
  }

  lemma ThemeCommandSound(t: string)
    requires ThemeCommand(t).Some?
    ensures IsThemeSentence(t, ThemeCommand(t).value)
  {
    var n := ThemeWordEnd(t).value;
    var i: nat :| ThemeWordSplit(t, i, n);
    assert t[n..] == ThemeName(ThemeCommand(t).value);
  }

  /** The theme words start with different letters, so at most one of them
      opens a given text. */
  lemma ThemeWordUnique(t: string, i: nat, i': nat)
    requires i <= |t| && i' <= |t| && t[..i] in ThemeWords && t[..i'] in ThemeWords
    ensures i == i'
  {
    assert t[..i][0] == t[0] == t[..i'][0];
  }

  lemma ThemeCommandComplete(t: string, k: ThemeKey)
    requires IsThemeSentence(t, k)
    ensures ThemeCommand(t) == Some(k)
  {
    var i, j :| 0 < i < j <= |t| && t[..i] in ThemeWords && AllSpace(t[i..j]) && t[j..] == ThemeName(k);
    assert t[i..j][0] == t[i];
    var n := ThemeWordEnd(t).value;
    var i': nat :| ThemeWordSplit(t, i', n);
    ThemeWordUnique(t, i, i');
    assert t[j..][0] == ThemeName(k)[0];
    SpaceRunUnique(t, i, n, j);
  }

  /** A theme command is recognised exactly when the text has the shape
      `<theme word> <whitespace> <colour>`. */
  lemma ThemeCommandIff(t: string, k: ThemeKey)
    ensures ThemeCommand(t) == Some(k) <==> IsThemeSentence(t, k)
  {
    if ThemeCommand(t) == Some(k) {
      ThemeCommandSound(t);
    }
    if IsThemeSentence(t, k) {
      ThemeCommandComplete(t, k);
    }
  }

  // ---------------------------------------------------------------------
  // Normalisation: one leading verb, then one run of `#`, `.` and `/`
  // ---------------------------------------------------------------------

  const VerbWords: seq<string> := ["cd", "goto", "go", "open", "nav", "to"]

  /** Reference reading of the verb alternatives `cd|go\s*to|goto|go|open|nav|to`. */
  predicate IsVerbPhrase(p: string) {
    || p in VerbWords
    || (|p| >= 4 && p[..2] == "go" && p[|p| - 2..] == "to" && AllSpace(p[2..|p| - 2]))
  }

  /** `c` opens with the verb phrase `c[..i]` and the whitespace run
      `c[i..n]`, which is as long as it can be. */
  ghost predicate VerbSplit(c: string, i: nat, n: nat) {
    0 < i < n <= |c| && IsVerbPhrase(c[..i]) && AllSpace(c[i..n]) && (n < |c| ==> !IsSpace(c[n]))
  }

  /** One plain verb word followed by whitespace. */
  function AfterVerbWord(c: string, w: string): (r: Option<nat>)
    requires w in VerbWords
    ensures r.Some? ==> VerbSplit(c, |w|, r.value)
    ensures r.Some? <==> (w <= c && |w| < |c| && IsSpace(c[|w|]))
  {
    AfterWord(c, w)
  }

  /** `go\s*to` followed by whitespace. */
  function AfterGoTo(c: string): (r: Option<nat>)
    ensures r.Some? ==> exists i :: VerbSplit(c, i, r.value)
  {
    if "go" <= c then
      var k := LeadingSpaces(c[2..]);
      var rest := c[2 + k..];
      match AfterWord(rest, "to")
      case Some(m) =>
        GoToSplit(c, k, m);
        Some(2 + k + m)
      case None => None
    else None
  }

  /** The pieces `AfterGoTo` matched form one verb phrase and a maximal
      whitespace run. */
  lemma GoToSplit(c: string, k: nat, m: nat)
    requires "go" <= c && k == LeadingSpaces(c[2..])
    requires AfterWord(c[2 + k..], "to") == Some(m)
    ensures VerbSplit(c, 2 + k + 2, 2 + k + m)
  {
    var rest := c[2 + k..];
    var i := 2 + k + 2;
    var p := c[..i];
    assert p[..2] == c[..2];
    assert rest[..2] == "to";
    assert p[i - 2..] == rest[..2];
    assert p[2..i - 2] == c[2..][..k];
    assert IsVerbPhrase(p);
    assert 2 < m <= |rest| && AllSpace(rest[2..m]);
    assert c[i..2 + k + m] == rest[2..m] by {
      forall j | 0 <= j < m - 2 ensures c[i..2 + k + m][j] == rest[2..m][j] {
        assert rest[2 + j] == c[i + j];
      }
    }
  }

  /** `^\s*(cd|go\s*to|goto|go|open|nav|to)\s+` on text that is already
      trimmed: the index where the remainder starts, if a verb matched. */
  function VerbEnd(c: string): (r: Option<nat>)
    ensures r.Some? ==> exists i :: VerbSplit(c, i, r.value)
  {
    // Alternatives are tried left to right, as in the regular expression.
    var cd := AfterVerbWord(c, "cd");
    if cd.Some? then cd else
    var goTo := AfterGoTo(c);
    if goTo.Some? then goTo else
    var goto := AfterVerbWord(c, "goto");
    if goto.Some? then goto else
    var go := AfterVerbWord(c, "go");
    if go.Some? then go else
    var open := AfterVerbWord(c, "open");
    if open.Some? then open else
    var nav := AfterVerbWord(c, "nav");
    if nav.Some? then nav else
    AfterVerbWord(c, "to")
  }

  function StripVerb(c: string): (r: string)
    ensures |r| <= |c| && r == c[|c| - |r|..]
    ensures r != c ==> r == [] || !IsSpace(r[0])
  {
    match VerbEnd(c)
    case Some(n) => c[n..]
    case None => c
  }

  /** Whatever the verb rule removes is one verb phrase and the whitespace
      after it; the remainder starts at the first non-space character. */
  lemma StripVerbSound(c: string) returns (i: nat, j: nat)
    requires |StripVerb(c)| < |c|
    ensures VerbSplit(c, i, j) && c[j..] == StripVerb(c)
  {
    j := VerbEnd(c).value;
    i :| VerbSplit(c, i, j);
  }

  /** Conversely, text that starts with a verb phrase and whitespace always
      loses a verb. */
  lemma StripVerbComplete(c: string, i: nat)
    requires i < |c| && IsVerbPhrase(c[..i]) && IsSpace(c[i])
    ensures |StripVerb(c)| < |c|
  {
    var p := c[..i];
    assert p <= c;
    if p !in VerbWords {
      GoToPhraseMatches(c, i);
    } else {
      assert AfterWord(c, p).Some?;
    }
  }

  /** A `go`, whitespace, `to` phrase followed by whitespace is matched by
      the go-to alternative. */
  lemma GoToPhraseMatches(c: string, i: nat)
    requires i < |c| && IsSpace(c[i]) && IsVerbPhrase(c[..i]) && c[..i] !in VerbWords
    ensures AfterGoTo(c).Some?
  {
    var p := c[..i];
    var k := LeadingSpaces(c[2..]);
    assert c[2..][..i - 4] == p[2..i - 2];
    assert c[2..][i - 4] == p[i - 2];
    LeadingSpacesExact(c[2..], i - 4);
    assert c[2 + k..][..2] == p[i - 2..];
    assert AfterWord(c[2 + k..], "to").Some?;
  }

  /** A plain verb other than the `go` family strips itself and the
      whitespace after it, and nothing more. */
  lemma StripPlainVerb(w: string, ws: string, rest: string)
    requires w == "cd" || w == "open" || w == "nav" || w == "to"
    requires ws != [] && AllSpace(ws) && (rest == [] || !IsSpace(rest[0]))
    ensures StripVerb(w + ws + rest) == rest
  {
    var c := w + ws + rest;
    WordThenSpaces(w, ws, rest);
    assert c[0] == w[0] && c[1] == w[1];
    if w != "cd" {
      NotPrefix(c, "cd");
      NotPrefix(c, "go");
      NotPrefix(c, "goto");
      if w != "open" {
        NotPrefix(c, "open");
        if w != "nav" {
          NotPrefix(c, "nav");
        }
      }
    }
  }

  /** `go`, optional whitespace, `to` and whitespace form one verb phrase,
      which also covers `goto`. */
  lemma StripGoTo(ws1: string, ws2: string, rest: string)
    requires AllSpace(ws1) && ws2 != [] && AllSpace(ws2) && (rest == [] || !IsSpace(rest[0]))
    ensures StripVerb("go" + ws1 + ("to" + ws2 + rest)) == rest
  {
    var c := "go" + ws1 + ("to" + ws2 + rest);
    var n := GoToEnd(ws1, ws2, rest);
    assert c[0] == 'g';
    NotPrefix(c, "cd");
    VerbEndGoTo(c);
  }

  /** Where `AfterGoTo` stops on such text: right before `rest`. */
  lemma GoToEnd(ws1: string, ws2: string, rest: string) returns (n: nat)
    requires AllSpace(ws1) && ws2 != [] && AllSpace(ws2) && (rest == [] || !IsSpace(rest[0]))
    ensures var c := "go" + ws1 + ("to" + ws2 + rest);
      n <= |c| && AfterGoTo(c) == Some(n) && c[n..] == rest
  {
    var tail := "to" + ws2 + rest;
    var c := "go" + ws1 + tail;
    GoThenSpaces(ws1, tail);
    WordThenSpaces("to", ws2, rest);
    assert c[2 + |ws1|..] == tail;
    n := AfterGoToAt(c, |ws1|, tail, 2 + |ws2|);
    assert c[n..] == tail[2 + |ws2|..];
  }

  /** `AfterGoTo` once its two whitespace runs are known. */
  lemma AfterGoToAt(c: string, k: nat, tail: string, m: nat) returns (n: nat)
    requires "go" <= c && 2 + k <= |c| && LeadingSpaces(c[2..]) == k
    requires c[2 + k..] == tail && AfterWord(tail, "to") == Some(m)
    ensures n == 2 + k + m && n <= |c| && AfterGoTo(c) == Some(n)
  {
    n := 2 + k + m;
  }

  /** When the text does not open with `cd`, the `go\s*to` alternative is
      tried next. */
  lemma VerbEndGoTo(c: string)
    requires !("cd" <= c) && AfterGoTo(c).Some?
    ensures VerbEnd(c) == AfterGoTo(c)
  {
  }

  /** `go` and a whitespace run, possibly empty, in front of text that does
      not start with whitespace. */
  lemma GoThenSpaces(ws: string, tail: string)
    requires AllSpace(ws) && (tail == [] || !IsSpace(tail[0]))
    ensures var c := "go" + ws + tail;
      "go" <= c && LeadingSpaces(c[2..]) == |ws| && c[2 + |ws|..] == tail
  {
    var c := "go" + ws + tail;
    assert c[..2] == "go";
    assert c[2..] == ws + tail;
    assert (ws + tail)[..|ws|] == ws;
    LeadingSpacesExact(ws + tail, |ws|);
  }

  /** A bare `go` strips itself when what follows is not `to`. */
  lemma StripGo(ws: string, rest: string)
    requires ws != [] && AllSpace(ws) && rest != [] && !IsSpace(rest[0]) && (|rest| < 2 || rest[..2] != "to")
    ensures StripVerb("go" + ws + rest) == rest
  {
    var c := "go" + ws + rest;
    assert c[0] == 'g' && c[1] == 'o';
    NotPrefix(c, "cd");
    GoThenSpaces(ws, rest);
    assert !("to" <= rest);
    assert AfterGoTo(c).None?;
    assert c[2] == ws[0] && c[2] != "goto"[2];
    WordThenSpaces("go", ws, rest);
  }

  /** Text whose first two letters start no verb word is left alone. */
  lemma StripNoVerb(c: string)
    requires !VerbLetters(c)
    ensures StripVerb(c) == c
  {
    NotPrefix(c, "cd");
    NotPrefix(c, "go");
    NotPrefix(c, "goto");
    NotPrefix(c, "open");
    NotPrefix(c, "nav");
    NotPrefix(c, "to");
    assert VerbEnd(c).None?;
  }

  /** Whether `c` opens with the first two letters of some verb word. */
  predicate VerbLetters(c: string) {
    |c| >= 2 &&
    ((c[0] == 'c' && c[1] == 'd') || (c[0] == 'g' && c[1] == 'o') ||
     (c[0] == 'o' && c[1] == 'p') || (c[0] == 'n' && c[1] == 'a') ||
     (c[0] == 't' && c[1] == 'o'))
  }

  lemma NotPrefix3(c: string, w: string)
    requires |w| >= 3 && (|c| < 3 || c[0] != w[0] || c[1] != w[1] || c[2] != w[2])
    ensures !(w <= c)
  {
  }

  lemma NotPrefix(c: string, w: string)
    requires |w| >= 2 && (|c| < 2 || c[0] != w[0] || c[1] != w[1])
    ensures !(w <= c)
  {
  }

  function SymbolRun(s: string): (n: nat)
    ensures n <= |s|
    ensures forall i :: 0 <= i < n ==> s[i] in "#./"
    ensures n < |s| ==> s[n] !in "#./"
  {
    if |s| > 0 && s[0] in "#./" then 1 + SymbolRun(s[1..]) else 0
  }

  /** `replace(/^[#./]+/, '')`. */
  function StripSymbols(s: string): (r: string)
    ensures r == [] || r[0] !in "#./"
    ensures |r| <= |s| && r == s[|s| - |r|..]
    ensures forall i :: 0 <= i < |s| - |r| ==> s[i] in "#./"
  {
    s[SymbolRun(s)..]
  }

  /** The navigation target hidden in a lower-cased, trimmed command. */
  function Normalize(t: string): (r: string)
    ensures Within(r, t)
  {
    NormalizeWithin(t);
    Trim(StripSymbols(Trim(StripVerb(t))))
  }

  lemma NormalizeWithin(t: string)
    ensures Within(Trim(StripSymbols(Trim(StripVerb(t)))), t)
  {
    var trimmed := Trim(StripVerb(t));
    TrimmedPiece(t);
    TrimmedSuffix(trimmed);
    WithinTrans(Trim(StripSymbols(trimmed)), trimmed, t);
  }

  lemma TrimmedPiece(t: string)
    ensures Within(Trim(StripVerb(t)), t)
  {
    var stripped := StripVerb(t);
    TrimWithin(stripped);
    WithinSuffix(stripped, t);
    WithinTrans(Trim(stripped), stripped, t);
  }

  lemma TrimmedSuffix(u: string)
    ensures Within(Trim(StripSymbols(u)), u)
  {
    var bare := StripSymbols(u);
    TrimWithin(bare);
    WithinSuffix(bare, u);
    WithinTrans(Trim(bare), bare, u);
  }

  /** `r` is the piece of `t` that starts at index `i`. */
  predicate PieceAt(r: string, t: string, i: int) {
    0 <= i <= |t| - |r| && r == t[i..i + |r|]
  }

  /** `r` is a contiguous piece of `t`. */
  ghost predicate Within(r: string, t: string) {
    exists i :: PieceAt(r, t, i)
  }

  lemma TrimWithin(s: string)
    ensures Within(Trim(s), s)
  {
    assert PieceAt(Trim(s), s, LeadingSpaces(s));
  }

  lemma WithinSuffix(r: string, t: string)
    requires |r| <= |t| && r == t[|t| - |r|..]
    ensures Within(r, t)
  {
    assert PieceAt(r, t, |t| - |r|);
  }

  lemma WithinTrans(a: string, b: string, c: string)
    requires Within(a, b) && Within(b, c)
    ensures Within(a, c)
  {
    var i :| PieceAt(a, b, i);
    var j :| PieceAt(b, c, j);
    forall k | 0 <= k < |a| ensures a[k] == c[j + i + k] {
      assert a[k] == b[i + k];
    }
    assert a == c[j + i..j + i + |a|];
    assert PieceAt(a, c, j + i);
  }

  /** Text that loses its verb and leaves a clean word normalises to it. */
  lemma NormalizeWord(t: string, word: string)
    requires StripVerb(t) == word
    requires word != [] && word[0] !in "#./" && !IsSpace(word[0]) && !IsSpace(word[|word| - 1])
    ensures Normalize(t) == word
  {
    assert [] + word == word;
    CleanTarget([], word);
  }

  /** Once the verb is gone, only the path symbols in front of a clean word
      are left to remove. */
  lemma NormalizeParts(t: string, sym: string, word: string)
    requires StripVerb(t) == sym + word
    requires forall i :: 0 <= i < |sym| ==> sym[i] in "#./"
    requires word != [] && word[0] !in "#./" && !IsSpace(word[0]) && !IsSpace(word[|word| - 1])
    ensures Normalize(t) == word
  {
    CleanTarget(sym, word);
  }

  /** A run of path symbols in front of a clean word is all that the last two
      normalisation steps remove. */
  lemma CleanTarget(sym: string, word: string)
    requires forall i :: 0 <= i < |sym| ==> sym[i] in "#./"
    requires word != [] && word[0] !in "#./" && !IsSpace(word[0]) && !IsSpace(word[|word| - 1])
    ensures Trim(StripSymbols(Trim(sym + word))) == word
  {
    var s := sym + word;
    assert s[|s| - 1] == word[|word| - 1];
    assert s[0] == if sym != [] then sym[0] else word[0];
    TrimClean(s);
    assert forall i :: 0 <= i < |sym| ==> s[i] == sym[i];
    assert s[|sym|] == word[0];
    SymbolRunExact(s, |sym|);
    assert s[|sym|..] == word;
    TrimClean(word);
  }

  lemma {:induction false} SymbolRunExact(s: string, m: nat)
    requires m <= |s| && (forall i :: 0 <= i < m ==> s[i] in "#./") && (m < |s| ==> s[m] !in "#./")
    ensures SymbolRun(s) == m
    decreases m
  {
    if m > 0 {
      SymbolRunExact(s[1..], m - 1);
    }
  }

  // ---------------------------------------------------------------------
  // Sections and aliases
  // ---------------------------------------------------------------------

  const Sections: seq<string> := ["home", "about", "experiences", "projects", "contact"]

  /** Alias lists, one per entry of `Sections` and in the same order. */
  const Aliases: seq<seq<string>> := [
    ["home", "top", "start", "root", "index"],
    ["about", "whoami", "bio", "me"],
    ["experiences", "experience", "xp", "workexp"],
    ["projects", "project", "work", "repo", "repos", "portfolio"],
    ["contact", "reach", "email", "connect", "get in touch"]
  ]

  /** The numeric shortcuts `1`..`5`. */
  function DigitSection(c: string): (r: Option<nat>)
    ensures r.Some? <==> (|c| == 1 && '1' <= c[0] <= '5')
    ensures r.Some? ==> r.value < |Sections| && c[0] as int == '1' as int + r.value
  {
    if c == "1" then Some(0)
    else if c == "2" then Some(1)
    else if c == "3" then Some(2)
    else if c == "4" then Some(3)
    else if c == "5" then Some(4)
    else None
  }

  /** The first alias list, from index `from` on, that contains `c`. */
  function AliasFrom(c: string, from: nat): (r: Option<nat>)
    requires from <= |Aliases|
    ensures r.Some? ==> from <= r.value < |Aliases| && c in Aliases[r.value]
    ensures r.Some? ==> forall j :: from <= j < r.value ==> c !in Aliases[j]
    ensures r.None? <==> forall j :: from <= j < |Aliases| ==> c !in Aliases[j]
    decreases |Aliases| - from
  {
    if from == |Aliases| then None
    else if c in Aliases[from] then Some(from)
    else AliasFrom(c, from + 1)
  }

  function AliasSection(c: string): Option<nat> {
    AliasFrom(c, 0)
  }

  /** No alias belongs to two sections. */
  lemma AliasesDisjoint()
    ensures forall i, j, a :: 0 <= i < j < |Aliases| && a in Aliases[i] ==> a !in Aliases[j]
  {
  }

  /** Every alias leads to the index of its own section, and each section
      name is one of its own aliases. */
  lemma AliasLeadsToOwnSection(c: string, i: nat)
    requires i < |Aliases| && c in Aliases[i]
    ensures AliasSection(c) == Some(i)
  {
    AliasesDisjoint();
  }

  lemma SectionNamesAreAliases()
    ensures |Aliases| == |Sections|
    ensures forall i :: 0 <= i < |Sections| ==> Sections[i] in Aliases[i]
  {
  }

  // ---------------------------------------------------------------------
  // The classifier
  // ---------------------------------------------------------------------

  datatype Action =
    | Theme(key: ThemeKey)
    | Nav(section: nat)
    | Selector(query: string)
    | Ignore

  predicate StartsSelector(s: string) {
    |s| > 0 && (s[0] == '#' || s[0] == '.')
  }

  /** `onTerminalCommand`: what a submitted command asks the page to do. */
  function Classify(raw: string): (r: Action)
    ensures Trim(raw) == [] ==> r == Ignore
    ensures r.Nav? ==> r.section < |Sections|
    ensures r.Selector? ==> r.query == Trim(raw) && StartsSelector(r.query)
  {
    var original := Trim(raw);
    Decide(original, Normalize(Lower(original)))
  }

  /** The rules in priority order, given the trimmed command `original` and
      its normalised navigation target `c`. */
  function Decide(original: string, c: string): (r: Action)
    ensures original == [] ==> r == Ignore
    ensures r.Nav? ==> r.section < |Sections|
    ensures r.Selector? ==> r.query == original && StartsSelector(r.query)
  {
    var t := Lower(original);
    if t == [] then Ignore
    else
      match ThemeCommand(t)
      case Some(k) => Theme(k)
      case None =>
        if c in ThemeWords then Ignore
        else if DigitSection(c).Some? then Nav(DigitSection(c).value)
        else if AliasSection(c).Some? then Nav(AliasSection(c).value)
        else if StartsSelector(original) then Selector(original)
        else Ignore
  }

  /** Rule 1: a theme command is recognised on the whole trimmed,
      lower-cased text, before any navigation rule. */
  lemma ClassifyTheme(raw: string, k: ThemeKey)
    ensures Classify(raw) == Theme(k) <==> IsThemeSentence(Lower(Trim(raw)), k)
  {
    var original := Trim(raw);
    assert Classify(raw) == Decide(original, Normalize(Lower(original)));
    DecideTheme(original, Normalize(Lower(original)), k);
  }

  lemma DecideTheme(original: string, c: string, k: ThemeKey)
    ensures Decide(original, c) == Theme(k) <==> IsThemeSentence(Lower(original), k)
  {
    ThemeCommandIff(Lower(original), k);
  }

  /** Rule 2: a bare theme word left after normalisation is ignored, and
      this wins over every navigation rule. */
  lemma BareThemeWordIgnored(raw: string)
    requires ThemeCommand(Lower(Trim(raw))).None?
    requires Normalize(Lower(Trim(raw))) in ThemeWords
    ensures Classify(raw) == Ignore
  {
    var original := Trim(raw);
    assert Classify(raw) == Decide(original, Normalize(Lower(original)));
  }

  lemma DecideNav(original: string, c: string, i: nat)
    requires original != [] && ThemeCommand(Lower(original)).None?
    ensures Decide(original, c) == Nav(i) <==>
      i < |Sections| && (c == [('1' as int + i) as char] || (DigitSection(c).None? && c in Aliases[i]))
  {
    if i < |Aliases| && c in Aliases[i] {
      AliasLeadsToOwnSection(c, i);
    }
    if i < |Sections| && c == [('1' as int + i) as char] {
      assert DigitSection(c) == Some(i);
    }
  }

  /** Rules 3 and 4: a navigation target is reached through its digit or
      through any of its aliases, once the theme rule has declined. */
  lemma ClassifyNav(raw: string, i: nat)
    requires Trim(raw) != [] && ThemeCommand(Lower(Trim(raw))).None?
    ensures Classify(raw) == Nav(i) <==>
      var c := Normalize(Lower(Trim(raw)));
      i < |Sections| && (c == [('1' as int + i) as char] || (DigitSection(c).None? && c in Aliases[i]))
  {
    var original := Trim(raw);
    assert Classify(raw) == Decide(original, Normalize(Lower(original)));
    DecideNav(original, Normalize(Lower(original)), i);
  }

  lemma DecideSelector(original: string, c: string)
    ensures Decide(original, c).Selector? <==>
      && StartsSelector(original)
      && ThemeCommand(Lower(original)).None?
      && c !in ThemeWords
      && DigitSection(c).None?
      && (forall j :: 0 <= j < |Aliases| ==> c !in Aliases[j])
  {
  }

  /** Rule 5: the selector fallback fires only when nothing earlier matched,
      and carries the trimmed text with its original letter case. */
  lemma ClassifySelector(raw: string)
    ensures Classify(raw).Selector? <==>
      var t := Lower(Trim(raw));
      var c := Normalize(t);
      && StartsSelector(Trim(raw))
      && ThemeCommand(t).None?
      && c !in ThemeWords
      && DigitSection(c).None?
      && (forall j :: 0 <= j < |Aliases| ==> c !in Aliases[j])
  {
    var original := Trim(raw);
    assert Classify(raw) == Decide(original, Normalize(Lower(original)));
    DecideSelector(original, Normalize(Lower(original)));
  }

  /** A command that is already trimmed and lower-case goes straight to the
      rules. */
  lemma ClassifyClean(raw: string)
    requires raw != [] && !IsSpace(raw[0]) && !IsSpace(raw[|raw| - 1]) && IsLower(raw)
    ensures Classify(raw) == Decide(raw, Normalize(raw))
  {
    TrimClean(raw);
    LowerOfLower(raw);
  }

  /** A trimmed, lower-case command with no verb and no path symbol in
      front is its own navigation target. */
  lemma ClassifyPlain(raw: string)
    requires raw != [] && !IsSpace(raw[|raw| - 1]) && IsLower(raw) && !IsSpace(raw[0]) && raw[0] !in "#./" && !VerbLetters(raw)
    ensures Classify(raw) == Decide(raw, raw)
  {
    ClassifyClean(raw);
    NormalizePlain(raw);
  }

  lemma NormalizePlain(raw: string)
    requires raw != [] && !IsSpace(raw[|raw| - 1]) && !IsSpace(raw[0]) && raw[0] !in "#./" && !VerbLetters(raw)
    ensures Normalize(raw) == raw
  {
    StripNoVerb(raw);
    assert raw == "" + raw;
    CleanTarget("", raw);
  }

  /** Whether `t` opens with the first three letters of a theme word. */
  predicate ThemeLetters(t: string) {
    |t| >= 3 &&
    ((t[0] == 't' && t[1] == 'h' && t[2] == 'e') ||
     (t[0] == 'c' && t[1] == 'o' && t[2] == 'l') ||
     (t[0] == 'a' && t[1] == 'c' && t[2] == 'c'))
  }

  lemma NoThemeCommand(t: string)
    requires !ThemeLetters(t)
    ensures ThemeCommand(t).None?
  {
    NotPrefix3(t, "theme");
    NotPrefix3(t, "color");
    NotPrefix3(t, "accent");
  }

  /** A bare `theme`, `color` or `accent` names no colour. */
  lemma BareThemeWord(t: string)
    requires t in ThemeWords
    ensures ThemeCommand(t).None?
  {
    assert AfterWord(t, "theme").None? && AfterWord(t, "color").None? && AfterWord(t, "accent").None?;
  }

  /** Typing a section's own name navigates to that section. */
  lemma ClassifySectionName(i: nat)
    requires i < |Sections|
    ensures Classify(Sections[i]) == Nav(i)
  {
    SectionNameFacts(i);
    SectionNamesAreAliases();
    ClassifyPlainAlias(Sections[i], i);
  }

  /** A clean command that is an alias and nothing else navigates to the
      alias's section. */
  lemma ClassifyPlainAlias(n: string, i: nat)
    requires n != [] && !IsSpace(n[0]) && !IsSpace(n[|n| - 1]) && n[0] !in "#./"
    requires IsLower(n) && !VerbLetters(n) && !ThemeLetters(n)
    requires i < |Aliases| && n in Aliases[i] && DigitSection(n).None?
    ensures Classify(n) == Nav(i)
  {
    ClassifyPlain(n);
    LowerOfLower(n);
    NoThemeCommand(n);
    DecideNav(n, n, i);
  }

  lemma SectionNameFacts(i: nat)
    requires i < |Sections|
    ensures var n := Sections[i];
      && n != [] && !IsSpace(n[0]) && !IsSpace(n[|n| - 1]) && n[0] !in "#./"
      && IsLower(n) && !VerbLetters(n) && !ThemeLetters(n)
      && DigitSection(n).None? && n !in ThemeWords && n != "clear"
  {
  }

  // ---------------------------------------------------------------------
  // Accent and palette (`applyAccent`)
  // ---------------------------------------------------------------------

  datatype Accent = Accent(hex: string, rgb: string, contrast: string)
  datatype Scheme = Scheme(siteBg: string, siteFg: string, terminalBg: string, terminalFg: string)

  /** What `applyAccent` leaves behind: the stored key, the accent variables
      and the site/terminal colours. */
  datatype Look = Look(key: string, accent: Accent, scheme: Scheme)

  const RedAccent := Accent("#ef4444", "239,68,68", "#ffffff")
  const BlueAccent := Accent("#74b0d6", "116,176,214", "#000000")
  const GreenAccent := Accent("#34d399", "52,211,153", "#000000")
  const YellowAccent := Accent("#f59e0b", "245,158,11", "#000000")
  const PeachAccent := Accent("#ffc6a1", "255,198,161", "#000000")
  const BlackAccent := Accent("#111827", "17,24,39", "#ffffff")
  const WhiteAccent := Accent("#ffffff", "255,255,255", "#000000")

  const BlackScheme := Scheme("#0b0b0b", "#e5e5e5", "rgba(0,0,0,0.78)", "#e5e7eb")
  const WhiteScheme := Scheme("#f8fafc", "#0b0f13", "rgba(255,255,255,0.80)", "#0b0f13")
  const DefaultScheme := Scheme("#0f0b0a", "#ffe5d6", "rgba(0, 0, 0, 0.70)", "#e8f5fc")

  /** The `ACCENTS` table. */
  function AccentEntry(key: string): (r: Option<Accent>)
    ensures r.Some? <==> ParseTheme(key).Some?
  {
    if key == "red" then Some(RedAccent)
    else if key == "blue" then Some(BlueAccent)
    else if key == "green" then Some(GreenAccent)
    else if key == "yellow" then Some(YellowAccent)
    else if key == "peach" then Some(PeachAccent)
    else if key == "black" then Some(BlackAccent)
    else if key == "white" then Some(WhiteAccent)
    else None
  }

  function ApplyAccent(key: string): (r: Look)
    ensures r.key == key
    ensures key == "black" || key == "white" || AccentEntry(key).None? ==> r.accent == BlueAccent
    ensures key != "black" && key != "white" && AccentEntry(key).Some? ==> r.accent == AccentEntry(key).value
    ensures r.accent in {RedAccent, BlueAccent, GreenAccent, YellowAccent, PeachAccent}
    ensures r.scheme == (if key == "black" then BlackScheme else if key == "white" then WhiteScheme else DefaultScheme)
  {
    var useKey := if key == "white" || key == "black" then "blue" else key;
    var entry := AccentEntry(useKey).GetOr(BlueAccent);
    var scheme := if key == "black" then BlackScheme
                  else if key == "white" then WhiteScheme
                  else DefaultScheme;
    Look(key, entry, scheme)
  }

  /** Start-up hydration from the stored key (`None` when storage is empty
      or throws). */
  function Hydrate(saved: Option<string>): (r: Look)
    ensures ParseTheme(r.key).Some?
    ensures saved.Some? && ParseTheme(saved.value).Some? ==> r.key == saved.value
    ensures saved.None? || ParseTheme(saved.value).None? ==> r == ApplyAccent("blue")
  {
    match saved
    case Some(k) => if k != "" && AccentEntry(k).Some? then ApplyAccent(k) else ApplyAccent("blue")
    case None => ApplyAccent("blue")
  }

  /** Reloading the page restores the look a theme command produced: the key
      `applyAccent` stores is read back to the same look. */
  lemma ThemeSurvivesReload(k: ThemeKey)
    ensures Hydrate(Some(ApplyAccent(ThemeName(k)).key)) == ApplyAccent(ThemeName(k))
  {
  }

  // ---------------------------------------------------------------------
  // The page: current section and look
  // ---------------------------------------------------------------------

  datatype Site = Site(section: nat, look: Look)

  /** Applies a classified command to the page. Navigation scrolls and
      records the section; a selector only scrolls, so the state is kept. */
  function Route(s: Site, a: Action): (r: Site)
    requires a.Nav? ==> a.section < |Sections|
    ensures s.section < |Sections| ==> r.section < |Sections|
    ensures !a.Nav? ==> r.section == s.section
    ensures !a.Theme? ==> r.look == s.look
    ensures a.Nav? ==> r.section == a.section
    ensures a.Theme? ==> r.look == ApplyAccent(ThemeName(a.key))
  {
    match a
    case Theme(k) => s.(look := ApplyAccent(ThemeName(k)))
    case Nav(i) => s.(section := i)
    case Selector(_) => s
    case Ignore => s
  }

  /** Repeating a command changes nothing more. */
  lemma RouteTwice(s: Site, a: Action)
    requires a.Nav? ==> a.section < |Sections|
    ensures Route(Route(s, a), a) == Route(s, a)
  {
  }

  /** Submitting a command keeps the current section a valid index. */
  lemma SubmitKeepsSection(s: Site, raw: string)
    requires s.section < |Sections|
    ensures Route(s, Classify(raw)).section < |Sections|
  {
  }

  // ---------------------------------------------------------------------
  // Section tracker (`onScroll`)
  // ---------------------------------------------------------------------

  /** Anchor `i` exists and its top is at or above the viewport midpoint. */
  predicate Reached(tops: seq<Option<int>>, i: nat, mid: int)
    requires i < |tops|
  {
    tops[i].Some? && tops[i].value <= mid
  }

  /** The section the tracker selects: the last anchor whose top is at or
      above the midpoint `mid`, scanning from the end; `current` when none. */
  function Tracked(current: nat, tops: seq<Option<int>>, mid: int): (r: nat)
    ensures (forall i :: 0 <= i < |tops| ==> !Reached(tops, i, mid)) ==> r == current
    ensures (exists i :: 0 <= i < |tops| && Reached(tops, i, mid)) ==>
      && r < |tops| && Reached(tops, r, mid)
      && forall j :: r < j < |tops| ==> !Reached(tops, j, mid)
  {
    if |tops| == 0 then current
    else if Reached(tops, |tops| - 1, mid) then |tops| - 1
    else
      var front := tops[..|tops| - 1];
      assert forall i :: 0 <= i < |front| ==> (Reached(front, i, mid) <==> Reached(tops, i, mid));
      Tracked(current, front, mid)
  }

  /** Scrolling further down never moves the tracked section backwards, once
      some anchor has been reached. */
  lemma TrackedMonotone(current: nat, tops: seq<Option<int>>, mid1: int, mid2: int)
    requires mid1 <= mid2
    requires exists i :: 0 <= i < |tops| && Reached(tops, i, mid1)
    ensures Tracked(current, tops, mid1) <= Tracked(current, tops, mid2)
  {
    var r1 := Tracked(current, tops, mid1);
    assert Reached(tops, r1, mid2);
  }
}
