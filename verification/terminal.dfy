/** The hero terminal (`TerminalWindow`): a scroll-back log and an input
    line. A submitted command is echoed after the prompt, answered from a
    fixed table, and handed on to the page's command router. */
module Terminal {
  import opened Wrappers
  import opened Text
  import Router

  const Prompt := "ya@asmara:~$"

  const Welcome: seq<string> := [
    "welcome to asmara.dev \U{2014} minimal linux + three.js",
    "type `help` or click a command below",
    "tip: theme <red|blue|green|yellow|peach|black|white>"
  ]

  const HelpLines: seq<string> := [
    "commands:",
    "  home    \U{2014} back to top",
    "  about   \U{2014} who am i",
    "  experiences \U{2014} brief roles",
    "  projects\U{2014} selected repos",
    "  contact \U{2014} get in touch",
    "  theme <color> \U{2014} switch accent color",
    "  clear   \U{2014} clear terminal"
  ]

  const NotFound := "command not found. try 'help'"
  const ClearedLine := "[screen cleared]"

  /** The commands offered as buttons under the input line. */
  const Buttons: seq<string> := ["help", "home", "about", "experiences", "projects", "contact", "clear"]

  function Echo(t: string): string {
    Prompt + " " + t
  }

  function NavLine(name: string): string {
    "navigating to section: " + name + "\U{2026}"
  }

  function SwitchLine(k: Router.ThemeKey): string {
    "switching theme to " + Router.ThemeName(k) + "\U{2026}"
  }

  datatype Term = Term(lines: seq<string>, input: string)

  const Initial := Term(Welcome, "")

  /** Editing the input line touches nothing else, and submitting the form
      afterwards forwards exactly what running the typed text forwards; for
      non-blank text the whole outcome is the same (blank text stays in the
      input line). */
  function Edit(s: Term, text: string): (r: Term)
    ensures r.lines == s.lines
    ensures Submit(r).forwarded == Run(s, text).forwarded
    ensures Trim(text) != [] ==> Submit(r) == Run(s, text)
  {
    s.(input := text)
  }

  /** The keys of the answer table. */
  const TableKeys: seq<string> := ["help"] + Router.Sections + ["clear"]

  /** The fixed answer table, looked up by the exact trimmed text, with the
      not-found line as fallback. */
  function Reply(t: string): (r: seq<string>)
    ensures t == "help" ==> r == HelpLines
    ensures t in Router.Sections ==> r == [NavLine(t)]
    ensures r == [NotFound] <==> t !in TableKeys
  {
    // The asserts tell the not-found line apart from every table entry.
    if t == "help" then assert |HelpLines| == 8; HelpLines
    else if t in Router.Sections then assert NavLine(t)[0] != NotFound[0]; [NavLine(t)]
    else if t == "clear" then assert ClearedLine[0] != NotFound[0]; [ClearedLine]
    else [NotFound]
  }

  /** Only a section's own name, in lower case, draws its navigation line. */
  lemma ReplyNavIff(t: string, i: nat)
    requires i < |Router.Sections|
    ensures Reply(t) == [NavLine(Router.Sections[i])] <==> t == Router.Sections[i]
  {
    if t == "help" {
      assert |HelpLines| == 8;
    } else if t == "clear" {
      assert ClearedLine[0] != NavLine(Router.Sections[i])[0];
    } else if t !in Router.Sections {
      assert NotFound[0] != NavLine(Router.Sections[i])[0];
    } else if Reply(t) == [NavLine(Router.Sections[i])] {
      NavLineInjective(t, Router.Sections[i]);
    }
  }

  lemma NavLineInjective(a: string, b: string)
    requires NavLine(a) == NavLine(b)
    ensures a == b
  {
    var p := "navigating to section: ";
    assert a == NavLine(a)[|p|..|p| + |a|];
    assert b == NavLine(b)[|p|..|p| + |b|];
  }

  lemma SwitchLineInjective(k: Router.ThemeKey, k': Router.ThemeKey)
    requires SwitchLine(k) == SwitchLine(k')
    ensures k == k'
  {
    var p := "switching theme to ";
    var a, b := Router.ThemeName(k), Router.ThemeName(k');
    assert a == SwitchLine(k)[|p|..|p| + |a|];
    assert b == SwitchLine(k')[|p|..|p| + |b|];
    assert Router.ParseTheme(a) == Some(k);
  }

  /** What one submission leaves behind: the terminal, and the text handed
      on to the page's router, if any. */
  datatype Outcome = Outcome(term: Term, forwarded: Option<string>)

  /** What `run` prints after the echo of a non-blank, non-`clear`
      command: a switch line for a theme command naming a colour, nothing
      for a bare theme word, and the table entry otherwise. */
  function Answer(t: string): (r: seq<string>)
    ensures Lower(t) in Router.ThemeWords ==> r == []
    ensures Router.ThemeCommand(Lower(t)).Some? ==> NotFound !in r
    ensures Router.ThemeCommand(Lower(t)).None? && Lower(t) !in Router.ThemeWords ==> r == Reply(t)
  {
    var low := Lower(t);
    BareWordNotCommand(low);
    match Router.ThemeCommand(low)
    case Some(k) => assert SwitchLine(k)[0] != NotFound[0]; [SwitchLine(k)]
    case None => if low in Router.ThemeWords then [] else Reply(t)
  }

  /** A bare theme word names no colour. */
  lemma BareWordNotCommand(t: string)
    ensures t in Router.ThemeWords ==> Router.ThemeCommand(t).None?
  {
    if t in Router.ThemeWords {
      Router.BareThemeWord(t);
    }
  }

  /** `run`: blank input is ignored outright; `clear` empties the log and is
      not passed on; every other command is echoed, answered, clears the
      input and is forwarded. */
  function Run(s: Term, cmd: string): (r: Outcome)
    ensures Trim(cmd) == [] ==> r == Outcome(s, None)
    ensures Trim(cmd) == "clear" ==> r == Outcome(Term([], ""), None)
    ensures Trim(cmd) != [] && Trim(cmd) != "clear" ==>
      && r.forwarded == Some(Trim(cmd))
      && r.term.input == ""
      && |r.term.lines| >= |s.lines| + 1
      && r.term.lines[..|s.lines| + 1] == s.lines + [Echo(Trim(cmd))]
      && r.term.lines == s.lines + [Echo(Trim(cmd))] + Answer(Trim(cmd))
  {
    var t := Trim(cmd);
    if t == [] then Outcome(s, None)
    else if t == "clear" then Outcome(Term([], ""), None)
    else
      var echoed := s.lines + [Echo(t)];
      assert (echoed + Answer(t))[..|s.lines| + 1] == echoed;
      Outcome(Term(echoed + Answer(t), ""), Some(t))
  }

  /** `onSubmit` of the form runs the current input line. */
  function Submit(s: Term): (r: Outcome)
    ensures Trim(s.input) == [] ==> r == Outcome(s, None)
    ensures Trim(s.input) == "clear" ==> r == Outcome(Term([], ""), None)
    ensures Trim(s.input) != [] && Trim(s.input) != "clear" ==>
      && r.forwarded == Some(Trim(s.input))
      && r.term.input == ""
      && r.term.lines == s.lines + [Echo(Trim(s.input))] + Answer(Trim(s.input))
  {
    Run(s, s.input)
  }

  /** The buttons run their own label whatever the input line holds. */
  lemma ButtonsForward(s: Term, i: nat)
    requires i < |Buttons| - 1
    ensures Run(s, Buttons[i]).forwarded == Some(Buttons[i])
    ensures Run(s, Buttons[i]).term.input == ""
  {
    TrimClean(Buttons[i]);
  }

  /** The log after a command is `lines + [echo, x]` exactly when the
      answer is the single line `x`. */
  lemma PrintedOne(s: Term, cmd: string, x: string)
    ensures Run(s, cmd).term.lines == s.lines + [Echo(Trim(cmd)), x] <==>
      Trim(cmd) != [] && Trim(cmd) != "clear" && Answer(Trim(cmd)) == [x]
  {
    var t := Trim(cmd);
    var r := Run(s, cmd);
    if t != [] && t != "clear" {
      assert r.term.lines == s.lines + [Echo(t)] + Answer(t);
      if r.term.lines == s.lines + [Echo(t), x] {
        assert Answer(t) == r.term.lines[|s.lines| + 1..];
      }
    } else if t == "clear" {
      assert |r.term.lines| == 0;
    } else {
      assert |r.term.lines| == |s.lines|;
    }
  }

  /** The log after a command ends in the not-found line exactly when the
      command is neither blank nor `clear`, is no theme command or bare
      theme word, and is not a key of the answer table. */
  lemma NotFoundIff(s: Term, cmd: string)
    ensures var t := Trim(cmd);
      Run(s, cmd).term.lines == s.lines + [Echo(t), NotFound] <==>
      && t != [] && t != "clear"
      && Router.ThemeCommand(Lower(t)).None? && Lower(t) !in Router.ThemeWords
      && t !in TableKeys
  {
    var t := Trim(cmd);
    PrintedOne(s, cmd, NotFound);
    if t != [] && t != "clear" && Router.ThemeCommand(Lower(t)).Some? {
      assert NotFound in [NotFound];
    }
  }

  lemma AnswerSwitchIff(t: string, k: Router.ThemeKey)
    ensures Answer(t) == [SwitchLine(k)] <==> Router.ThemeCommand(Lower(t)) == Some(k)
  {
    match Router.ThemeCommand(Lower(t))
    case Some(k') =>
      if Answer(t) == [SwitchLine(k)] {
        SwitchLineInjective(k, k');
      }
    case None =>
      ReplyNotSwitch(t, k);
  }

  lemma ReplyNotSwitch(t: string, k: Router.ThemeKey)
    ensures Reply(t) != [SwitchLine(k)]
  {
    if t == "help" {
      assert |HelpLines| == 8;
    } else if t in Router.Sections {
      assert NavLine(t)[0] != SwitchLine(k)[0];
    } else if t == "clear" {
      assert ClearedLine[0] != SwitchLine(k)[0];
    } else {
      assert NotFound[0] != SwitchLine(k)[0];
    }
  }

  lemma AnswerNavIff(t: string, i: nat)
    requires i < |Router.Sections|
    ensures Answer(t) == [NavLine(Router.Sections[i])] <==> t == Router.Sections[i]
  {
    var n := Router.Sections[i];
    if t == n {
      Router.SectionNameFacts(i);
      Router.NoThemeCommand(n);
      LowerOfLower(n);
    }
    match Router.ThemeCommand(Lower(t))
    case Some(k') =>
      assert NavLine(n)[0] != SwitchLine(k')[0];
    case None =>
      ReplyNavIff(t, i);
  }

  /** The terminal prints a switch line for colour `k` exactly when the text
      it forwards makes the page switch to `k`. */
  lemma SwitchLineIffTheme(s: Term, cmd: string, k: Router.ThemeKey)
    ensures var r := Run(s, cmd);
      r.term.lines == s.lines + [Echo(Trim(cmd)), SwitchLine(k)] <==>
      r.forwarded.Some? && Router.Classify(r.forwarded.value) == Router.Theme(k)
  {
    var t := Trim(cmd);
    PrintedOne(s, cmd, SwitchLine(k));
    if t != [] && t != "clear" {
      TrimClean(t);
      AnswerSwitchIff(t, k);
      Router.ThemeCommandIff(Lower(t), k);
      Router.ClassifyTheme(t, k);
    }
  }

  /** The terminal announces a section exactly when the command is that
      section's name. */
  lemma NavLineIffSectionName(s: Term, cmd: string, i: nat)
    requires i < |Router.Sections|
    ensures Run(s, cmd).term.lines == s.lines + [Echo(Trim(cmd)), NavLine(Router.Sections[i])] <==>
      Trim(cmd) == Router.Sections[i]
  {
    var n := Router.Sections[i];
    PrintedOne(s, cmd, NavLine(n));
    AnswerNavIff(Trim(cmd), i);
    Router.SectionNameFacts(i);
  }

  /** ... and the text it forwards then takes the page to that section. */
  lemma SectionNameForwarded(s: Term, cmd: string, i: nat)
    requires i < |Router.Sections| && Trim(cmd) == Router.Sections[i]
    ensures Run(s, cmd).forwarded == Some(Router.Sections[i])
    ensures Router.Classify(Router.Sections[i]) == Router.Nav(i)
  {
    Router.SectionNameFacts(i);
    Router.ClassifySectionName(i);
  }

  // ---------------------------------------------------------------------
  // The hero: the terminal wired to the page's router
  // ---------------------------------------------------------------------

  datatype Hero = Hero(site: Router.Site, term: Term)

  /** One submission: the terminal reacts, and whatever it forwards is
      classified and routed. */
  function Send(h: Hero, cmd: string): (r: Hero)
    requires h.site.section < |Router.Sections|
    ensures r.term == Run(h.term, cmd).term
    ensures r.site.section < |Router.Sections|
    ensures Run(h.term, cmd).forwarded.None? ==> r.site == h.site
  {
    var o := Run(h.term, cmd);
    match o.forwarded
    case None => Hero(h.site, o.term)
    case Some(t) =>
      Router.SubmitKeepsSection(h.site, t);
      Hero(Router.Route(h.site, Router.Classify(t)), o.term)
  }

  /** Typing a section's name both announces it and scrolls to it. */
  lemma SendSectionName(h: Hero, i: nat)
    requires h.site.section < |Router.Sections| && i < |Router.Sections|
    ensures Send(h, Router.Sections[i]).site.section == i
    ensures Send(h, Router.Sections[i]).term.lines ==
      h.term.lines + [Echo(Router.Sections[i]), NavLine(Router.Sections[i])]
  {
    Router.SectionNameFacts(i);
    TrimClean(Router.Sections[i]);
    NavLineIffSectionName(h.term, Router.Sections[i], i);
    SectionNameForwarded(h.term, Router.Sections[i], i);
  }

  /** `clear` only empties the log; the page stays where it is. */
  lemma ClearKeepsPage(h: Hero, cmd: string)
    requires h.site.section < |Router.Sections| && Trim(cmd) == "clear"
    ensures Send(h, cmd) == Hero(h.site, Term([], ""))
  {
  }
}
