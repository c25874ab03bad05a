/** The card game (`GameRoguelite`): reach the goal score within a fixed
    number of turns by playing one of three cards per turn. Random draws
    and relic finds are inputs; the log line, card ids and textures and the
    stored best score are not modelled. */
module Roguelite {
  import opened Wrappers

  datatype CardKind = Spark | Gem | Void | Boost | Double
  datatype Relic = Ember | Lens

  datatype Run = Run(
    score: int, goal: int, turns: int, mult: int, bonus: int, combo: int,
    relics: seq<Relic>, cards: seq<CardKind>, over: bool, win: bool)

  const Goal := 20
  const Turns := 10
  const MaxRelics := 3
  const HandSize := 3

  /** The opening state and the state after `reset`, given the three cards
      drawn for the hand. */
  function Fresh(hand: seq<CardKind>): (r: Run)
    requires |hand| == HandSize
    ensures Inv(r) && !r.over && r.score == 0 && r.turns == Turns
  {
    Run(0, Goal, Turns, 1, 0, 0, [], hand, false, false)
  }

  /** The card's own effect (`CARD_POOL`), before multiplier and bonus. */
  function Effect(k: CardKind, s: Run): (r: Run)
    ensures r == s.(score := r.score, bonus := r.bonus, mult := r.mult)
    ensures k == Spark ==> r.score == s.score + 3
    ensures k == Gem ==> r.score == s.score + 5
    ensures k == Void ==> r.score == (if s.score >= 2 then s.score - 2 else 0)
    ensures k == Boost ==> r.score == s.score && r.bonus == s.bonus + 1
    ensures k == Double ==> r.score == s.score && r.mult == 2
    ensures k != Boost ==> r.bonus == s.bonus
    ensures k != Double ==> r.mult == s.mult
  {
    match k
    case Spark => s.(score := s.score + 3)
    case Gem => s.(score := s.score + 5)
    case Void => s.(score := Max(0, s.score - 2))
    case Boost => s.(bonus := s.bonus + 1)
    case Double => s.(mult := 2)
  }

  function Max(a: int, b: int): (m: int)
    ensures m >= a && m >= b && (m == a || m == b)
  {
    if a >= b then a else b
  }

  /** `playCard(idx)`: a no-op once over; otherwise the card's effect, the
      multiplier and flat bonus on a positive gain, the combo streak, an
      optional relic find (`found`), one turn spent, the played slot
      refilled with `drawn`, and the win and loss checks, in that order. */
  function Play(s: Run, idx: nat, drawn: CardKind, found: Option<Relic>): (r: Run)
    requires idx < |s.cards|
    ensures s.over ==> r == s
    ensures !s.over ==> r.turns == s.turns - 1 && r.goal == s.goal
    ensures !s.over ==> r.cards == s.cards[idx := drawn]
    ensures r.bonus >= s.bonus
    ensures s.mult >= 1 ==> r.mult >= 1
    ensures !s.over && found.Some? && |s.relics| < MaxRelics ==> r.relics == s.relics + [found.value]
    ensures found.None? || |s.relics| >= MaxRelics ==> r.relics == s.relics
    ensures !s.over ==> (r.over <==> r.score >= r.goal || r.turns <= 0)
    ensures !s.over && r.over ==> (r.win <==> r.score >= r.goal)
    ensures !s.over && !r.over ==> r.win == s.win
  {
    if s.over then s
    else
      var e := Effect(s.cards[idx], s);
      var gain := e.score - s.score;
      var streak := Streak(Scored(s, e, gain), gain);
      var relic := Find(streak, found);
      Settle(relic.(turns := relic.turns - 1, cards := s.cards[idx := drawn]))
  }

  /** A positive gain is multiplied by a pending multiplier, which is then
      used up, and raised by the bonus held before the play. */
  function Scored(s: Run, e: Run, gain: int): (r: Run)
    requires gain == e.score - s.score
    ensures r == e.(score := r.score, mult := r.mult)
    ensures gain > 0 ==> r.score == s.score + gain * (if s.mult > 1 then s.mult else 1) + (if s.bonus > 0 then s.bonus else 0)
    ensures gain > 0 && s.mult > 1 ==> r.mult == 1
    ensures gain <= 0 || s.mult <= 1 ==> r.mult == e.mult
    ensures gain <= 0 ==> r.score == e.score
  {
    var scored := if gain > 0 && s.mult > 1 then e.(score := s.score + gain * s.mult, mult := 1) else e;
    if s.bonus > 0 && gain > 0 then scored.(score := scored.score + s.bonus) else scored
  }

  /** A gain extends the streak and every third one in a row adds a bonus
      point; anything else breaks the streak. */
  function Streak(f: Run, gain: int): (r: Run)
    ensures r == f.(combo := r.combo, bonus := r.bonus)
    ensures gain > 0 ==> r.combo == f.combo + 1 && r.bonus == f.bonus + (if (f.combo + 1) % 3 == 0 then 1 else 0)
    ensures gain <= 0 ==> r.combo == 0 && r.bonus == f.bonus
  {
    if gain > 0 then
      var c := f.(combo := f.combo + 1);
      if c.combo % 3 == 0 then c.(bonus := c.bonus + 1) else c
    else f.(combo := 0)
  }

  /** A found relic is kept while fewer than three are held: an ember adds a
      bonus point, a lens raises the multiplier to at least 2. */
  function Find(f: Run, found: Option<Relic>): (r: Run)
    ensures r == f.(relics := r.relics, bonus := r.bonus, mult := r.mult)
    ensures found.Some? && |f.relics| < MaxRelics ==> r.relics == f.relics + [found.value]
    ensures found.None? || |f.relics| >= MaxRelics ==> r == f
    ensures r.bonus == f.bonus + (if found.Some? && found.value == Ember && |f.relics| < MaxRelics then 1 else 0)
    ensures found.Some? && found.value == Lens && |f.relics| < MaxRelics ==> r.mult >= 2 && r.mult >= f.mult
    ensures found.None? || found.value != Lens || |f.relics| >= MaxRelics ==> r.mult == f.mult
  {
    if |f.relics| >= MaxRelics then f
    else
      match found
      case None => f
      case Some(k) =>
        var withRelic := f.(relics := f.relics + [k]);
        match k
        case Ember => withRelic.(bonus := withRelic.bonus + 1)
        case Lens => withRelic.(mult := Max(withRelic.mult, 2))
  }

  /** The win check comes before the loss check, so reaching the goal on
      the last turn is a win. */
  function Settle(f: Run): (r: Run)
    requires !f.over
    ensures r == f.(over := r.over, win := r.win)
    ensures r.over <==> f.score >= f.goal || f.turns <= 0
    ensures r.over ==> (r.win <==> f.score >= f.goal)
    ensures !r.over ==> r.win == f.win
  {
    if f.score >= f.goal then f.(over := true, win := true)
    else if f.turns <= 0 then f.(over := true, win := false)
    else f
  }

  /** The score change a play makes, before the win and loss checks. */
  function Gain(s: Run, idx: nat): int
    requires idx < |s.cards|
  {
    Effect(s.cards[idx], s).score - s.score
  }

  /** A positive gain is multiplied by a pending multiplier and then raised
      by the bonus held before the play; the multiplier is used up unless a
      lens is found on the same play. */
  lemma PositiveGain(s: Run, idx: nat, drawn: CardKind, found: Option<Relic>)
    requires idx < |s.cards| && !s.over && Gain(s, idx) > 0
    ensures var r := Play(s, idx, drawn, found);
      && r.score == s.score + Gain(s, idx) * (if s.mult > 1 then s.mult else 1) + (if s.bonus > 0 then s.bonus else 0)
      && r.combo == s.combo + 1
      && (s.mult > 1 && (found.None? || found.value != Lens || |s.relics| >= MaxRelics) ==> r.mult == 1)
  {
  }

  /** Without a positive gain the streak breaks and the score is the card's
      own result. */
  lemma NoGain(s: Run, idx: nat, drawn: CardKind, found: Option<Relic>)
    requires idx < |s.cards| && !s.over && Gain(s, idx) <= 0
    ensures var r := Play(s, idx, drawn, found);
      r.score == Effect(s.cards[idx], s).score && r.combo == 0
  {
  }

  /** Every third gain in a row adds one to the bonus. */
  lemma ComboBonus(s: Run, idx: nat, drawn: CardKind, found: Option<Relic>)
    requires idx < |s.cards| && !s.over && Gain(s, idx) > 0 && s.cards[idx] != Boost
    requires (s.combo + 1) % 3 == 0 && (found.None? || |s.relics| >= MaxRelics)
    ensures Play(s, idx, drawn, found).bonus == s.bonus + 1
  {
  }

  /** With a pending x2 and one bonus point, a gem is worth 11. */
  lemma GemWithDoubleAndBonus(s: Run, idx: nat, drawn: CardKind)
    requires idx < |s.cards| && !s.over && s.cards[idx] == Gem && s.mult == 2 && s.bonus == 1
    ensures Play(s, idx, drawn, None).score == s.score + 11
  {
    PositiveGain(s, idx, drawn, None);
  }

  /** The facts every reachable state keeps: score and bonus never negative,
      multiplier at least 1, at most three relics, three cards in hand, a
      game that ends exactly in a win or a spent last turn, and a running
      game below the goal with a turn left. */
  predicate Inv(s: Run) {
    && s.score >= 0 && s.mult >= 1 && s.bonus >= 0 && s.combo >= 0
    && |s.relics| <= MaxRelics && |s.cards| == HandSize && s.goal == Goal
    && (s.over ==> (s.win <==> s.score >= s.goal))
    && (!s.over ==> !s.win && s.score < s.goal && s.turns >= 1)
  }

  lemma PlayKeepsInv(s: Run, idx: nat, drawn: CardKind, found: Option<Relic>)
    requires Inv(s) && idx < |s.cards|
    ensures Inv(Play(s, idx, drawn, found))
  {
  }

  /** A round's worth of clicks: which slot, what is drawn into it, and
      what relic, if any, turns up. */
  datatype Move = Move(idx: nat, drawn: CardKind, found: Option<Relic>)

  predicate InHand(moves: seq<Move>) {
    forall i :: 0 <= i < |moves| ==> moves[i].idx < HandSize
  }

  function PlayAll(s: Run, moves: seq<Move>): (r: Run)
    requires Inv(s) && InHand(moves)
    ensures Inv(r)
    decreases |moves|
  {
    if moves == [] then s
    else
      PlayKeepsInv(s, moves[0].idx, moves[0].drawn, moves[0].found);
      PlayAll(Play(s, moves[0].idx, moves[0].drawn, moves[0].found), moves[1..])
  }

  /** Every run ends: once as many cards are played as turns remain, the
      game is over. */
  lemma {:induction false} RunEnds(s: Run, moves: seq<Move>)
    requires Inv(s) && InHand(moves) && |moves| >= s.turns
    ensures PlayAll(s, moves).over
    decreases |moves|
  {
    if moves != [] {
      var m := moves[0];
      var t := Play(s, m.idx, m.drawn, m.found);
      PlayKeepsInv(s, m.idx, m.drawn, m.found);
      if t.over {
        OverStays(t, moves[1..]);
      } else {
        RunEnds(t, moves[1..]);
      }
    }
  }

  /** Nothing changes once the game is over. */
  lemma {:induction false} OverStays(s: Run, moves: seq<Move>)
    requires Inv(s) && InHand(moves) && s.over
    ensures PlayAll(s, moves) == s
    decreases |moves|
  {
    if moves != [] {
      OverStays(Play(s, moves[0].idx, moves[0].drawn, moves[0].found), moves[1..]);
    }
  }

  /** Ten plays always finish a fresh game. */
  lemma FreshRunEnds(hand: seq<CardKind>, moves: seq<Move>)
    requires |hand| == HandSize && InHand(moves) && |moves| >= Turns
    ensures PlayAll(Fresh(hand), moves).over
  {
    RunEnds(Fresh(hand), moves);
  }
}
