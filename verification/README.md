# asmara.dev portfolio: the logic under the pages and the games

The portfolio is a React single page with three.js scenery. Under the rendering are five pieces of plain integer and string logic, and this project models and proves them in Dafny:

- **Command router** (`App.jsx`, module `Router`):
  - the terminal command classifier `onTerminalCommand`;
  - the accent and palette choice `applyAccent` and its start-up hydration;
  - the scroll-driven section tracker `onScroll`.
- **Hero terminal** (`TerminalWindow.jsx`, module `Terminal`): `run` decides what is echoed, what is printed, and what is forwarded to the router. The module also wires the terminal to the router (`Send`).
- **Falling-block game** (`GameTetris.jsx`, module `Tetris`):
  - the shapes, `rotate`, `collides`, `merge` and `clearLines`;
  - the line score and the gravity tick;
  - the key handler with its guarded moves and hard drop;
  - `reset`.
- **Card game** (`GameRoguelite.jsx`, module `Roguelite`):
  - the card effects;
  - `playCard` as a record update;
  - the opening and `reset` states.
- **Branching story** (`GameMegastructure.jsx`, module `Megastructure`):
  - the node graph;
  - `clamp`, `applyEffect` and `onChoose`;
  - the node lookup with its fallback;
  - `onCollectShard`.

The project has eight files:
- `wrappers.dfy` holds `Option`.
- `text.dfy` holds the ASCII readings of JavaScript's `trim`, `toLowerCase` and `\s`.
- The other six files hold one module each, in the structure of the program.
- `router_examples.dfy` derives the worked commands (`goto about`, `cd /about`, `theme purple`, …) from the general lemmas of `Router`.

Randomness is an input throughout:
- The tetris spawn receives the drawn kind.
- `playCard` receives the drawn card and the relic roll, as `found: Option<Relic>`.
- The card game's opening hand is a parameter.

Where a regular expression is involved, the model gives two things and proves them equal:
- an operational reading, which follows the alternatives left to right (`VerbEnd`, `ThemeWordEnd`);
- a declarative reference predicate (`IsVerbPhrase`/`VerbSplit`, `IsThemeSentence`).

Where the JavaScript uses a loop, the Dafny has both:
- a method that follows the loop (`CollidesLoop`, `MergeLoop`, `ClearLinesLoop`);
- a reference function that the method is proved to compute (`Collides`, `Merged`, `Cleared`).

## Model

| member | source | states |
|---|---|---|
| Text.Trim | frontend/src/App.jsx:102 | The result is the slice of the input that starts right after the leading whitespace run and is followed by whitespace only, and it neither starts nor ends with whitespace. |
| Text.TrimClean | frontend/src/components/TerminalWindow.jsx:32 | Text with no whitespace at either end is its own trimmed form. |
| Text.Lower | frontend/src/App.jsx:102 | Length is kept and every character is lower-cased independently (ASCII capitals only). |
| Text.LowerOfLower | frontend/src/App.jsx:102 | Text without capitals is unchanged by lower-casing. |
| Router.ParseTheme | frontend/src/App.jsx:110 | Reads one of the seven colour words back into its key: the exact inverse of `ThemeName`, `None` on any other text. |
| Router.AfterWord | frontend/src/App.jsx:106 | Matches `w\s+` greedily: some exactly when the text starts with `w` followed by whitespace, and the end lies past the whole whitespace run. |
| Router.LeadingSpacesExact | frontend/src/App.jsx:106 | A whitespace prefix followed by a non-space is exactly what the leading-space count reports. |
| Router.WordThenSpaces | frontend/src/App.jsx:106 | A word, a whitespace run and a non-space remainder: the word rule consumes exactly the word and the run. |
| Router.ThemeWordEnd | frontend/src/App.jsx:110 | Finds a leading `theme`, `color` or `accent` with its maximal whitespace run, and always succeeds when such a word is followed by whitespace. |
| Router.ThemeCommandIff | frontend/src/App.jsx:110-115 | The theme match succeeds with key k exactly when the text is a theme word, a non-empty whitespace run and the colour word of k (the reference `IsThemeSentence`). |
| Router.ThemeCommandSound | frontend/src/App.jsx:110 | A recognised theme command has the reference shape. |
| Router.ThemeCommandComplete | frontend/src/App.jsx:110 | Every text of the reference shape is recognised, with its key. |
| Router.ThemeCommand | frontend/src/App.jsx:110 | A recognised theme command ends with the name of the colour it reports, with something in front of it. |
| Router.BareThemeWord | frontend/src/App.jsx:110-119 | A bare `theme`, `color` or `accent` is not a theme command: the command needs a colour. |
| Router.AfterVerbWord | frontend/src/App.jsx:106 | A plain verb alternative matches exactly when the verb is followed by whitespace, and what it matches is one verb phrase plus a maximal whitespace run. |
| Router.AfterGoTo | frontend/src/App.jsx:106 | The `go\s*to\s+` alternative only ever matches a verb phrase and a maximal whitespace run. |
| Router.GoToSplit | frontend/src/App.jsx:106 | The pieces `go`, optional whitespace and `to` form one verb phrase of the reference reading. |
| Router.VerbEnd | frontend/src/App.jsx:106 | Whatever the alternatives (tried in the order cd, go-to, goto, go, open, nav, to) match is a verb phrase and a maximal whitespace run. |
| Router.StripVerbSound | frontend/src/App.jsx:106 | Whatever verb stripping removes is one verb phrase plus the whitespace after it, and the remainder starts at the first non-space character. |
| Router.StripVerbComplete | frontend/src/App.jsx:106 | Conversely, text that opens with a verb phrase and whitespace always loses a verb. |
| Router.StripPlainVerb | frontend/src/App.jsx:106 | `cd`, `open`, `nav` or `to` plus whitespace is stripped, and nothing more. |
| Router.StripGoTo | frontend/src/App.jsx:106 | `go`, optional whitespace, `to` and whitespace are stripped as one verb (this covers `goto`). |
| Router.GoToEnd | frontend/src/App.jsx:106 | On such text the go-to alternative stops right before the remainder. |
| Router.StripGo | frontend/src/App.jsx:106 | A bare `go` plus whitespace is stripped when no `to` follows. |
| Router.StripNoVerb | frontend/src/App.jsx:106 | Text whose first two letters start no verb word is left alone. |
| Router.StripVerb | frontend/src/App.jsx:106 | The result is a suffix of the command, and when a verb was stripped it is empty or starts with a non-space. |
| Router.SymbolRun | frontend/src/App.jsx:107 | Length of the maximal leading run of `#`, `.` and `/`. |
| Router.StripSymbols | frontend/src/App.jsx:107 | The result is a suffix of the input, everything removed is `#`, `.` or `/`, and the result does not start with one of them. |
| Router.CleanTarget | frontend/src/App.jsx:106-107 | A run of path symbols in front of a clean word is all that the last two normalisation steps remove. |
| Router.NormalizeWord | frontend/src/App.jsx:106-107 | Text that loses its verb and leaves a clean word normalises to that word. |
| Router.NormalizeParts | frontend/src/App.jsx:106-107 | Text that loses its verb and leaves path symbols before a clean word normalises to the word. |
| Router.NormalizePlain | frontend/src/App.jsx:106-107 | A clean word with no verb and no path symbol in front is its own normal form. |
| Router.Normalize | frontend/src/App.jsx:106-107 | The navigation target is a contiguous piece of the command: normalisation only removes text at the ends. |
| Router.DigitSection | frontend/src/App.jsx:122-126 | Some exactly for the one-character texts `1`..`5`, mapping digit d to section d-1. |
| Router.AliasFrom | frontend/src/App.jsx:136-142 | Finds the first alias list (in table order) that contains the text, and `None` exactly when no list does. |
| Router.AliasesDisjoint | frontend/src/App.jsx:129-135 | No alias belongs to two sections. |
| Router.AliasLeadsToOwnSection | frontend/src/App.jsx:136-141 | Every alias leads to the index of its own section. |
| Router.SectionNamesAreAliases | frontend/src/App.jsx:90-135 | One alias list per section, in section order, and each section's name is among its own aliases. |
| Router.Classify | frontend/src/App.jsx:100-154 | Blank input is ignored, navigation always names an existing section, and a selector carries the trimmed text and starts with `#` or `.`. |
| Router.Decide | frontend/src/App.jsx:103-153 | The rules in priority order give the same guarantees for a trimmed command and its normalised target. |
| Router.ClassifyTheme | frontend/src/App.jsx:110-115 | A command switches to colour k exactly when its trimmed, lower-cased whole text is a theme sentence for k; this is decided before any navigation rule. |
| Router.DecideTheme | frontend/src/App.jsx:110-115 | The same iff, stated for the rule chain itself. |
| Router.BareThemeWordIgnored | frontend/src/App.jsx:116-119 | A bare `theme`, `color` or `accent` left after normalisation is ignored, ahead of the digit, alias and selector rules. |
| Router.DecideNav | frontend/src/App.jsx:121-142 | Once the theme rule declines, the result is Nav(i) exactly when the target is digit i+1, or is not a digit and is one of section i's aliases. |
| Router.ClassifyNav | frontend/src/App.jsx:121-142 | The same iff for raw input, in terms of its normalised target. |
| Router.DecideSelector | frontend/src/App.jsx:144-153 | A selector is produced exactly when the trimmed text starts with `#` or `.` and no earlier rule (theme, bare theme word, digit, alias) matched. |
| Router.ClassifySelector | frontend/src/App.jsx:144-153 | The same iff for raw input. |
| Router.ClassifyClean | frontend/src/App.jsx:101-102 | Trimming and lower-casing do nothing to a command that is already trimmed and lower-case. |
| Router.ClassifyPlain | frontend/src/App.jsx:100-107 | A clean command with no verb or symbol prefix is its own navigation target. |
| Router.NoThemeCommand | frontend/src/App.jsx:110 | Text that does not start like a theme word is never a theme command. |
| Router.ClassifySectionName | frontend/src/App.jsx:128-141 | Typing a section's own name navigates to that section. |
| Router.ClassifyPlainAlias | frontend/src/App.jsx:128-141 | A clean command that is an alias of section i, and not a digit, navigates to i. |
| Router.AccentEntry | frontend/src/App.jsx:12-20 | The accent table has an entry exactly for the seven colour keys. |
| Router.ApplyAccent | frontend/src/App.jsx:22-49 | The stored key is always the key passed in. Black, white and unknown keys use blue's accent; any other known key uses its own. The accent is never the black or white entry. The palette is the black set, the white set or the default set according to the key. |
| Router.Hydrate | frontend/src/App.jsx:58-71 | The hydrated key is always a known colour: the stored one when it is known, and blue otherwise. |
| Router.ThemeSurvivesReload | frontend/src/App.jsx:50-66 | Reading back the key that `applyAccent` stored restores the same look. |
| Router.Route | frontend/src/App.jsx:91-97 | A theme changes only the look, to its colour's accent; navigation changes only the section, to the named one; a selector and an ignored command change nothing. A valid section stays valid. |
| Router.RouteTwice | frontend/src/App.jsx:91-97 | Routing the same action twice ends in the same page state as routing it once. |
| Router.SubmitKeepsSection | frontend/src/App.jsx:91-97 | Whatever is submitted, the current section stays a valid index. |
| Router.Tracked | frontend/src/App.jsx:157-163 | The index kept when no anchor is at or above the midpoint; otherwise an anchor that is, and no later anchor is. |
| Router.TrackedMonotone | frontend/src/App.jsx:157-163 | Once an anchor is reached, scrolling further down never moves the tracked section backwards. |
| RouterExamples.NormalizeGoto | frontend/src/App.jsx:106-107 | `goto <w>` normalises to w for any clean word w. |
| RouterExamples.NormalizeGoTo | frontend/src/App.jsx:106-107 | `go to <w>` normalises to w. |
| RouterExamples.NormalizeCdSlash | frontend/src/App.jsx:106-107 | `cd /<w>` normalises to w. |
| RouterExamples.NormalizeHash | frontend/src/App.jsx:106-107 | `#<w>` normalises to w. |
| RouterExamples.NormalizeDoubledVerb | frontend/src/App.jsx:106 | `cd cd <w>` normalises to `cd <w>`: only one verb is stripped. |
| RouterExamples.ClassifyGotoAlias | frontend/src/App.jsx:100-142 | `goto <alias of section i>` navigates to section i. |
| RouterExamples.ClassifyGoToAlias | frontend/src/App.jsx:100-142 | `go to <alias of section i>` navigates to section i. |
| RouterExamples.ClassifyAfterGo | frontend/src/App.jsx:106 | After a bare `go`, the rest of the command is the navigation target. |
| RouterExamples.DecideNothing | frontend/src/App.jsx:144-154 | With no rule matching and no selector prefix, the command is ignored. |
| RouterExamples.ClassifyDigit | frontend/src/App.jsx:122-123 | `2` navigates to the second section. |
| RouterExamples.ClassifyUpperTheme | frontend/src/App.jsx:110-115 | `THEME blue` switches to blue: letter case is ignored. |
| RouterExamples.ClassifySpacedTheme | frontend/src/App.jsx:110-115 | `theme   blue` switches to blue: any whitespace run separates word and colour. |
| RouterExamples.ClassifyUnknownColour | frontend/src/App.jsx:110-154 | `theme purple` changes nothing. |
| RouterExamples.ClassifyVerbBeforeTheme | frontend/src/App.jsx:106-154 | `go theme blue` is not a theme command and changes nothing. |
| Terminal.Edit | frontend/src/components/TerminalWindow.jsx:95-102 | Typing changes only the input line. Submitting afterwards forwards what running the typed text forwards, and for non-blank text it has exactly the same outcome. |
| Terminal.Reply | frontend/src/components/TerminalWindow.jsx:36-71 | `help` gets the eight help lines and a section's name its navigation line. The not-found line comes back exactly for text that is not a key of the table. |
| Terminal.Answer | frontend/src/components/TerminalWindow.jsx:60-72 | A bare theme word prints nothing, a theme command never prints the not-found line, and any other text gets the table's reply. |
| Terminal.ReplyNavIff | frontend/src/components/TerminalWindow.jsx:37-54 | The table answers with a section's navigation line exactly for that section's own name. |
| Terminal.Run | frontend/src/components/TerminalWindow.jsx:31-76 | Blank input changes nothing and forwards nothing. `clear` leaves an empty log and input and forwards nothing. Any other command appends the echo `<prompt> <trimmed>` and then the command's answer after the old log, clears the input and forwards the trimmed text. |
| Terminal.Submit | frontend/src/components/TerminalWindow.jsx:95 | Submitting the form runs the input line: blank input changes nothing, `clear` empties the terminal, and any other input is echoed, answered, cleared and forwarded. |
| Terminal.ButtonsForward | frontend/src/components/TerminalWindow.jsx:113-116 | Every button except `clear` forwards its own label and clears the input line. |
| Terminal.PrintedOne | frontend/src/components/TerminalWindow.jsx:34-73 | The log grows by exactly the echo and one line x exactly when the command is neither blank nor `clear` and its answer is x. |
| Terminal.NotFoundIff | frontend/src/components/TerminalWindow.jsx:31-73 | The log grows by the echo and the not-found line exactly when the command is neither blank nor `clear`, is not matched by the theme pattern, and is not a key of the table. |
| Terminal.AnswerSwitchIff | frontend/src/components/TerminalWindow.jsx:62-67 | The answer is the switch line for colour k exactly when the lower-cased command is a theme command for k. |
| Terminal.ReplyNotSwitch | frontend/src/components/TerminalWindow.jsx:72 | The answer table never produces a switch line. |
| Terminal.AnswerNavIff | frontend/src/components/TerminalWindow.jsx:61-73 | The answer is a section's navigation line exactly when the command is that section's name. |
| Terminal.SwitchLineIffTheme | frontend/src/components/TerminalWindow.jsx:62-68 | The terminal prints a switch line for k exactly when the text it forwards makes the page switch to k. |
| Terminal.NavLineIffSectionName | frontend/src/components/TerminalWindow.jsx:48-52 | The terminal announces a section exactly when the trimmed command is that section's name. |
| Terminal.SectionNameForwarded | frontend/src/components/TerminalWindow.jsx:72-75 | A section's name is forwarded, and the router sends it to that section. |
| Terminal.Send | frontend/src/components/TerminalWindow.jsx:68-75 | The terminal reacts as `run` does, the page's section stays valid, and nothing forwarded means the page is unchanged. |
| Terminal.SendSectionName | frontend/src/components/TerminalWindow.jsx:48-75 | Typing a section's name both announces it and scrolls to it. |
| Terminal.ClearKeepsPage | frontend/src/components/TerminalWindow.jsx:56-59 | `clear` only empties the terminal; the page stays as it was. |
| Tetris.ColorOf | frontend/src/components/GameTetris.jsx:20-28 | Every piece colour is non-zero, so merged cells count as filled. |
| Tetris.Spawn | frontend/src/components/GameTetris.jsx:37-41 | A new piece has its kind and its kind's shape, at column 4, row 0. The shape is a rectangle with a filled cell, and the piece fits on the empty board. |
| Tetris.EmptyGrid | frontend/src/components/GameTetris.jsx:152 | The empty board is 20 x 10 and every cell is 0. |
| Tetris.StandardShapes | frontend/src/components/GameTetris.jsx:11-19 | Every standard shape is a rectangle with a filled cell, at most 2 x 4. |
| Tetris.Rotate | frontend/src/components/GameTetris.jsx:30-35 | An h x w rectangle becomes a w x h rectangle. |
| Tetris.RotateMoves | frontend/src/components/GameTetris.jsx:33 | The cell at (y, x) moves to (x, h-1-y). |
| Tetris.RotateFour | frontend/src/components/GameTetris.jsx:30-35 | Four clockwise turns give back the original shape. |
| Tetris.RotateCells | frontend/src/components/GameTetris.jsx:30-35 | The filled cells of the rotated shape are exactly the turned filled cells of the original. |
| Tetris.RotateKeepsCells | frontend/src/components/GameTetris.jsx:30-35 | Rotation keeps the number of filled cells, and so whether there is one. |
| Tetris.CollidesLoop | frontend/src/components/GameTetris.jsx:43-53 | The two loops with early exits return true exactly when some filled cell lies off either side, below the floor, or (at a row >= 0) on an occupied cell. |
| Tetris.FitsAboveFloor | frontend/src/components/GameTetris.jsx:48 | A shape with a filled cell that fits at row y has y < 20. |
| Tetris.SpawnFitsEmpty | frontend/src/components/GameTetris.jsx:37-41 | Every standard piece fits where it spawns on an empty board. |
| Tetris.Merged | frontend/src/components/GameTetris.jsx:55-66 | The board stays 20 x 10. |
| Tetris.MergeLoop | frontend/src/components/GameTetris.jsx:55-66 | The loops write the piece's colour into exactly the in-bounds cells its shape covers; every other cell keeps its value. |
| Tetris.Keep | frontend/src/components/GameTetris.jsx:68-79 | The kept rows are never full and are no more than the original rows. |
| Tetris.KeepFrom | frontend/src/components/GameTetris.jsx:68-79 | Every kept row is a row of the original board. |
| Tetris.KeepAndCount | frontend/src/components/GameTetris.jsx:68-79 | Every row is either kept or counted as full. |
| Tetris.ClearedShape | frontend/src/components/GameTetris.jsx:68-79 | After clearing, the board is still 20 x 10 and has no full row, and the kept rows sit below as many new rows as were full. |
| Tetris.ClearLinesLoop | frontend/src/components/GameTetris.jsx:68-79 | The bottom-up scan that re-tests a row after each splice returns the number of full rows and the cleared board. |
| Tetris.Splice | frontend/src/components/GameTetris.jsx:72-73 | Removing a full row and adding an empty one on top keeps the scan's invariant. |
| Tetris.LineScore | frontend/src/components/GameTetris.jsx:181 | Zero points exactly for zero rows. |
| Tetris.LineScoreMonotone | frontend/src/components/GameTetris.jsx:181 | Clearing more rows at once never pays less, and four or more pay 800. |
| Tetris.Start | frontend/src/components/GameTetris.jsx:149-155 | A fresh component is valid, not over and at score 0. |
| Tetris.Reset | frontend/src/components/GameTetris.jsx:162-166 | After `reset` the board is empty, the score is 0, and the game is not over and is valid. The entered, paused, in-view and focus flags are untouched. |
| Tetris.Tick | frontend/src/components/GameTetris.jsx:169-189 | The tick does nothing unless entered, not over, not paused and in view. It keeps the game valid, never lowers the score, and leaves the flags alone. |
| Tetris.TickFalls | frontend/src/components/GameTetris.jsx:174-176 | With room below, the tick moves the piece down one row and changes nothing else: column, shape, kind, board, score and flags stay. |
| Tetris.TickLocks | frontend/src/components/GameTetris.jsx:177-188 | A blocked piece locks: the board becomes the cleared merge and the score rises by the line score. The game ends exactly when the next piece cannot enter at (4, 0), and otherwise that piece becomes active. |
| Tetris.DropRow | frontend/src/components/GameTetris.jsx:218-221 | The landing row is at or below the start; every row passed on the way fits, and the row below the landing row collides. |
| Tetris.TryMove | frontend/src/components/GameTetris.jsx:210-217 | A move is committed exactly when the target fits; otherwise nothing changes. |
| Tetris.Turned | frontend/src/components/GameTetris.jsx:214-215 | Rotation keeps the game valid and changes only the piece's shape: it takes the rotated shape when that fits and changes nothing when it collides. |
| Tetris.Dropped | frontend/src/components/GameTetris.jsx:218-221 | The hard drop keeps the game valid and changes only the piece's row. |
| Tetris.Press | frontend/src/components/GameTetris.jsx:195-226 | Keys are ignored before entry, after game over and without focus. No key touches the board, score or over flag, and the pause key moves nothing. |
| Tetris.PauseKeyToggles | frontend/src/components/GameTetris.jsx:206-209 | While the handler listens, `p` or `P` flips the pause and changes nothing else. |
| Tetris.UnboundKeyIgnored | frontend/src/components/GameTetris.jsx:206-222 | While the handler listens, a key with no binding changes nothing. |
| Tetris.FittingMoveIsTaken | frontend/src/components/GameTetris.jsx:210-217 | While the handler listens, a left, right, soft-drop or rotate key whose target fits moves the piece by one column or row, or turns it, and changes nothing else. |
| Tetris.CommandOf | frontend/src/components/GameTetris.jsx:201-222 | The nine keys whose default is prevented are exactly the keys that move, rotate or drop the piece, and only `p` and `P` toggle the pause. |
| Tetris.HardDropRests | frontend/src/components/GameTetris.jsx:218-222 | The hard drop changes only the piece's row, to the first row at or below it whose next row collides: every row passed fits. It does not lock. |
| Tetris.BlockedMoveIsNoop | frontend/src/components/GameTetris.jsx:210-217 | A blocked left, right, rotate or soft-drop key leaves the game unchanged: there is no wall kick. |
| Tetris.Replay | frontend/src/components/GameTetris.jsx:169-226 | Any sequence of ticks and key presses keeps the game valid, so a running piece never overlaps the board. |
| Roguelite.Fresh | frontend/src/components/GameRoguelite.jsx:162-189 | The opening and reset state satisfies the invariant, is not over, has score 0 and 10 turns. |
| Roguelite.Effect | frontend/src/components/GameRoguelite.jsx:73-79 | Spark +3, Gem +5, Void to max(0, score-2), Boost bonus +1, x2 multiplier 2; nothing else changes. |
| Roguelite.Play | frontend/src/components/GameRoguelite.jsx:191-232 | A play after game over is a no-op. Otherwise one turn is spent and only the played slot is refilled. Bonus never drops, and a relic is added only while fewer than three are held. The game ends exactly on reaching the goal or spending the last turn, and it is won exactly on reaching the goal. |
| Roguelite.Scored | frontend/src/components/GameRoguelite.jsx:199-206 | A positive gain is multiplied by a pending multiplier, which is used up, and raised by the pre-play bonus. |
| Roguelite.Streak | frontend/src/components/GameRoguelite.jsx:207-216 | A gain extends the combo and every third adds a bonus point; anything else resets it. |
| Roguelite.Find | frontend/src/components/GameRoguelite.jsx:217-223 | A relic is kept only while fewer than three are held; an ember adds a bonus point, a lens raises the multiplier to at least 2. |
| Roguelite.Settle | frontend/src/components/GameRoguelite.jsx:230-232 | The win check precedes the loss check. |
| Roguelite.PositiveGain | frontend/src/components/GameRoguelite.jsx:199-206 | score' = score + gain x mult + bonus on a positive gain; the combo grows, and the multiplier is used up unless a lens comes with the same play. |
| Roguelite.NoGain | frontend/src/components/GameRoguelite.jsx:199-216 | Without a positive gain the score is the card's own result and the combo resets. |
| Roguelite.ComboBonus | frontend/src/components/GameRoguelite.jsx:208-213 | Every third gain in a row adds one to the bonus. |
| Roguelite.GemWithDoubleAndBonus | frontend/src/components/GameRoguelite.jsx:199-206 | With a pending x2 and one bonus point, a gem is worth 11. |
| Roguelite.PlayKeepsInv | frontend/src/components/GameRoguelite.jsx:191-232 | Every play keeps the invariant: score and bonus non-negative, multiplier at least 1, at most three relics, three cards, over exactly with a win or a spent run. |
| Roguelite.PlayAll | frontend/src/components/GameRoguelite.jsx:191-232 | Any sequence of plays keeps the invariant. |
| Roguelite.RunEnds | frontend/src/components/GameRoguelite.jsx:224-232 | As many plays as turns remain always end the game. |
| Roguelite.OverStays | frontend/src/components/GameRoguelite.jsx:192 | Once over, further plays change nothing. |
| Roguelite.FreshRunEnds | frontend/src/components/GameRoguelite.jsx:162-232 | Ten plays always finish a fresh game. |
| Megastructure.Captions | frontend/src/components/GameMegastructure.jsx:8-243 | One button label per choice of each node. |
| Megastructure.Choices | frontend/src/components/GameMegastructure.jsx:8-243 | Every node offers one or two choices. Exactly the two endings' choices reset, exactly the resetting choices carry the all-zero effect, and they lead to `wakeup`. |
| Megastructure.Clamp | frontend/src/components/GameMegastructure.jsx:245 | The result lies in [a, b] and equals n when n already does; below a gives a, above b gives b. |
| Megastructure.ApplyEffect | frontend/src/components/GameMegastructure.jsx:319-328 | No effect keeps the stats, and the all-zero effect clears them. Otherwise each stat becomes clamp(old + change), with a missing change counted as 0, so the stats stay in [0, 999]. |
| Megastructure.EmptyEffectKeeps | frontend/src/components/GameMegastructure.jsx:319-327 | The empty effect `{}` is not the zeroing one: it leaves in-range stats as they were. |
| Megastructure.EffectAdds | frontend/src/components/GameMegastructure.jsx:323-327 | A change that stays within range is applied exactly. |
| Megastructure.CollectShard | frontend/src/components/GameMegastructure.jsx:355-356 | The signal becomes clamp(signal + 1), and depth and entropy stay. |
| Megastructure.ShardKeepsRange | frontend/src/components/GameMegastructure.jsx:355-356 | In-range stats stay in range, and a full signal stays full. |
| Megastructure.IndexFrom | frontend/src/components/GameMegastructure.jsx:331 | Gives the first position in `NODES` order whose id matches, or `None` exactly when no node has that id. |
| Megastructure.Lookup | frontend/src/components/GameMegastructure.jsx:331 | A known id gives its node, and an unknown id falls back to the first node. |
| Megastructure.Choose | frontend/src/components/GameMegastructure.jsx:333-336 | The node becomes `next`, a resetting choice zeroes the stats whatever its effect, any other applies its effect, and the stats stay in range. |
| Megastructure.Pick | frontend/src/components/GameMegastructure.jsx:333-336 | Clicking a button moves to that choice's target with stats in range. |
| Megastructure.SigIdentifies | frontend/src/components/GameMegastructure.jsx:8-243 | Each node is recovered from the length and first two letters of its id. |
| Megastructure.IdsUnique | frontend/src/components/GameMegastructure.jsx:8-243 | Node ids are unique. |
| Megastructure.Position | frontend/src/components/GameMegastructure.jsx:8-243 | Every node appears in `NODES`. |
| Megastructure.LookupOwnId | frontend/src/components/GameMegastructure.jsx:331 | Every node is found under its own id. |
| Megastructure.SomeChoice | frontend/src/components/GameMegastructure.jsx:8-243 | Every node offers one or two choices. |
| Megastructure.PickStaysInGraph | frontend/src/components/GameMegastructure.jsx:8-243 | Every choice names an existing node, so the lookup fallback is never used while playing. |
| Megastructure.Descends | frontend/src/components/GameMegastructure.jsx:8-243 | Every node other than `wakeup` has a choice one step closer to it. |
| Megastructure.PathHome | frontend/src/components/GameMegastructure.jsx:8-243 | The path back has `Rank(p)` clicks: the number of clicks `PathHome` takes back to `wakeup`, which is not claimed to be the shortest. |
| Megastructure.HomeReachable | frontend/src/components/GameMegastructure.jsx:8-243 | From every node, that path of clicks leads to `wakeup`. |
| Megastructure.HomeFromAnywhere | frontend/src/components/GameMegastructure.jsx:8-243 | From any known id, some sequence of clicks returns to `wakeup`. |
| Megastructure.Unentered | frontend/src/components/GameMegastructure.jsx:8-243 | No choice leads into `atrium` or `reservoir`. |
| Megastructure.EndingRestarts | frontend/src/components/GameMegastructure.jsx:224-242 | The choice under either ending returns the game to `wakeup` with zeroed stats. |

## Left out

- Rendering is not modelled: the three.js/React scenes, meshes, animation frames and textures. Card ids and textures, log strings, toasts and node text are also left out. Button captions are kept.
- Randomness becomes inputs: `mulberry32` and `Math.random`. So the drawn tetris kind, the drawn card and the relic roll (`found`) are parameters, and the model makes no claim about their distribution.
- Persistence is not modelled: `localStorage` for the best card score, `mega-node` and `mega-stats`. The story's restore on mount (frontend/src/components/GameMegastructure.jsx:343-350) is left out. `onChoose` saves the stats from before its own update, so a save/restore round trip would not hold anyway. Start-up hydration of the accent is modelled with the stored value as an input.
- Timers and the DOM are left out:
  - timers, event listeners, focus tracking and visibility pausing;
  - `scrollIntoView`, `querySelector` and CSS custom properties.
  The tetris flags `entered`, `paused`, `inView` and `hasFocus` are plain state, and the tick interval is abstract.
- The tetris speed decay `max(0.1, s * 0.98)` is floating point and is left out.
- A selector command is only classified. Whether `querySelector` finds an element, or throws, is the DOM's business, and the page state is unchanged either way.
- Text.Trim, Text.Lower: whitespace is ASCII (space and tab through carriage return), and lower-casing maps only A-Z. JavaScript's `trim`, `\s` and `toLowerCase` also cover Unicode whitespace and letters.
- Terminal.Reply: it reads the answer table as exactly its seven keys. A lookup of an inherited property name such as `constructor` is not modelled. In JavaScript it would find a function and make the spread throw.
- Terminal.Edit: for blank text it promises only that nothing is forwarded either way. The typed whitespace stays in the input line, while running the same text leaves the old input line.
- Router.Hydrate: it treats only the seven colour keys as stored accents. JavaScript's `ACCENTS[saved]` would also accept an inherited property name.
- Router.Tracked: the midpoint is taken as an integer. Anchor tops are whole pixels, so comparing against the floor of `scrollY + innerHeight / 2` decides the same way.
- React's state batching is modelled in its effect only. In `onChoose`, the reset's zeroed stats land after the effect's update. Stale closures are not modelled.
- Megastructure.ApplyEffect: its `!effect` branch is modelled as `None`, but every choice in the graph carries an effect object, so play never takes it.
- Roguelite.Play: `idx` must index the hand. The buttons only pass 0 to 2, and an index outside the hand would make the JavaScript throw.

## Notes on the code

- The tetris key handler does not check `paused`: moves, rotations and hard drops still work while the game is paused. Only the gravity tick stops. The model follows the code (`Tetris.Press`).
- When a newly spawned tetris piece collides, the game ends, and the piece that just locked stays as the active piece (`Tetris.TickLocks`).
- `atrium` and `reservoir` are never the target of a choice (`Megastructure.Unentered`). They can only be shown through a saved node id.
- If no anchor is at or above the midpoint, the section tracker keeps the current index. The model keeps that behaviour (`Router.Tracked`).
- The theme rule looks at the whole trimmed command before any verb is stripped. So `go theme blue` is an unknown navigation target, not a theme command (`RouterExamples.ClassifyVerbBeforeTheme`).
