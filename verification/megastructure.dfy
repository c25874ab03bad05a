/** The branching story (`GameMegastructure`): a fixed graph of nodes, each
    offering labelled choices that move to another node and adjust three
    stats kept in [0, 999]. Node text, the three.js scenery, the toast and
    the saved progress are not modelled. */
module Megastructure {
  import opened Wrappers

  /** A stat change as written in the graph; a field left out of the
      object literal is `None`. */
  datatype Effect = Effect(depth: Option<int>, signal: Option<int>, entropy: Option<int>)

  /** The nodes of the story, one constructor per entry of `NODES`. */
  datatype Place =
    Wakeup | Console | Corridor | Shaft | Ping | Hatch |
    Loop | Listen | Infra | Auth | Offset | Dark |
    Cranes | Scan | Door | Merge | Watch | Core |
    Atrium | Reservoir | Ending | Ending2

  datatype Choice = Choice(next: Place, effect: Effect, reset: bool)

  datatype Stats = Stats(depth: int, signal: int, entropy: int)

  const Lo := 0
  const Hi := 999

  const Zero := Stats(0, 0, 0)

  const NoEffect := Effect(None, None, None)
  const ZeroEffect := Effect(Some(0), Some(0), Some(0))

  /** The `id` string of each node. */
  function Id(p: Place): string {
    match p
    case Wakeup => "wakeup"
    case Console => "console"
    case Corridor => "corridor"
    case Shaft => "shaft"
    case Ping => "ping"
    case Hatch => "hatch"
    case Loop => "loop"
    case Listen => "listen"
    case Infra => "infra"
    case Auth => "auth"
    case Offset => "offset"
    case Dark => "dark"
    case Cranes => "cranes"
    case Scan => "scan"
    case Door => "door"
    case Merge => "merge"
    case Watch => "watch"
    case Core => "core"
    case Atrium => "atrium"
    case Reservoir => "reservoir"
    case Ending => "ending"
    case Ending2 => "ending2"
  }

  /** The order of the `NODES` array, which `find` scans. */
  const Order: seq<Place> := [
    Wakeup, Console, Corridor, Shaft, Ping, Hatch,
    Loop, Listen, Infra, Auth, Offset, Dark,
    Cranes, Scan, Door, Merge, Watch, Core,
    Atrium, Reservoir, Ending, Ending2]

  /** The choices under each node: target, effect and reset flag. */
  function Choices(p: Place): (r: seq<Choice>)
    ensures 1 <= |r| <= 2
    ensures forall i :: 0 <= i < |r| ==> (r[i].reset <==> p == Ending || p == Ending2)
    ensures forall i :: 0 <= i < |r| ==> (IsZeroing(r[i].effect) <==> r[i].reset)
    ensures forall i :: 0 <= i < |r| && r[i].reset ==> r[i].next == Wakeup
  {
    match p
    case Wakeup => [
      Choice(Console, Effect(None, Some(1), None), false),
      Choice(Corridor, Effect(Some(1), None, None), false)]
    case Console => [
      Choice(Shaft, Effect(Some(2), None, None), false),
      Choice(Ping, Effect(None, Some(2), Some(1)), false)]
    case Corridor => [
      Choice(Hatch, Effect(None, None, Some(1)), false),
      Choice(Loop, Effect(Some(1), None, None), false)]
    case Shaft => [
      Choice(Infra, Effect(Some(2), None, Some(1)), false),
      Choice(Listen, Effect(None, Some(2), None), false)]
    case Ping => [
      Choice(Auth, Effect(None, None, Some(2)), false),
      Choice(Wakeup, Effect(None, Some(-1), None), false)]
    case Hatch => [
      Choice(Core, Effect(Some(2), None, None), false),
      Choice(Loop, NoEffect, false)]
    case Loop => [
      Choice(Offset, Effect(None, None, Some(1)), false),
      Choice(Dark, Effect(None, None, Some(2)), false)]
    case Listen => [
      Choice(Infra, NoEffect, false)]
    case Infra => [
      Choice(Cranes, Effect(Some(2), None, None), false),
      Choice(Scan, Effect(None, Some(2), None), false)]
    case Auth => [
      Choice(Door, Effect(Some(1), None, None), false),
      Choice(Dark, Effect(None, Some(-2), Some(1)), false)]
    case Offset => [
      Choice(Merge, Effect(None, None, Some(3)), false),
      Choice(Loop, NoEffect, false)]
    case Dark => [
      Choice(Core, Effect(Some(3), None, Some(1)), false)]
    case Cranes => [
      Choice(Core, Effect(Some(2), None, None), false),
      Choice(Watch, Effect(None, Some(1), None), false)]
    case Scan => [
      Choice(Core, Effect(Some(1), None, None), false)]
    case Door => [
      Choice(Core, Effect(Some(2), None, None), false)]
    case Merge => [
      Choice(Infra, NoEffect, false)]
    case Watch => [
      Choice(Core, NoEffect, false)]
    case Core => [
      Choice(Ending, Effect(Some(1), Some(1), Some(1)), false),
      Choice(Ending2, NoEffect, false)]
    case Atrium => [
      Choice(Scan, Effect(None, Some(1), None), false),
      Choice(Dark, Effect(None, None, Some(1)), false)]
    case Reservoir => [
      Choice(Infra, Effect(Some(1), None, None), false),
      Choice(Loop, Effect(None, Some(1), None), false)]
    case Ending => [
      Choice(Wakeup, ZeroEffect, true)]
    case Ending2 => [
      Choice(Wakeup, ZeroEffect, true)]
  }

  /** The button labels, in the order of `Choices`. */
  function Captions(p: Place): (r: seq<string>)
    ensures |r| == |Choices(p)|
  {
    match p
    case Wakeup => ["examine console", "walk the corridor"]
    case Console => ["descend the shaft", "ping the network"]
    case Corridor => ["force the hatch", "mark the wall and continue"]
    case Shaft => ["drop faster", "stop and listen"]
    case Ping => ["spoof credentials", "cut the signal"]
    case Hatch => ["take the vector", "close it and keep walking"]
    case Loop => ["confront the offset", "break the lights"]
    case Listen => ["continue"]
    case Infra => ["navigate the cranes", "scan for routes"]
    case Auth => ["follow the opened door", "cut every transmitter"]
    case Offset => ["merge", "refuse"]
    case Dark => ["descend towards the wrong light"]
    case Cranes => ["enter the core housing", "watch it process"]
    case Scan => ["take the corridor"]
    case Door => ["let it take you"]
    case Merge => ["continue"]
    case Watch => ["approach the core"]
    case Core => ["touch the command", "turn away"]
    case Atrium => ["trace the drone route", "cut a cable"]
    case Reservoir => ["descend to the basin", "follow the tide line"]
    case Ending => ["restart"]
    case Ending2 => ["restart"]
  }


  // ---------------------------------------------------------------------
  // Stats
  // ---------------------------------------------------------------------

  /** `clamp(n, a, b)`, that is `max(a, min(b, n))`. */
  function Clamp(n: int, a: int, b: int): (r: int)
    ensures a <= b ==> a <= r <= b
    ensures a <= n <= b ==> r == n
    ensures n < a ==> r == a
    ensures a <= b && b < n ==> r == b
  {
    var m := if b <= n then b else n;
    if a >= m then a else m
  }

  predicate InRange(s: Stats) {
    Lo <= s.depth <= Hi && Lo <= s.signal <= Hi && Lo <= s.entropy <= Hi
  }

  /** The quirky reset test: every field present and equal to 0. */
  predicate IsZeroing(e: Effect) {
    e.depth == Some(0) && e.signal == Some(0) && e.entropy == Some(0)
  }

  /** `applyEffect`: no effect leaves the stats alone, an all-zero effect
      clears them, and anything else adds each change (a missing one as 0)
      and clamps. */
  function ApplyEffect(s: Stats, effect: Option<Effect>): (r: Stats)
    ensures effect.None? ==> r == s
    ensures effect.Some? && IsZeroing(effect.value) ==> r == Zero
    ensures effect.Some? ==> InRange(r)
    ensures effect.Some? && !IsZeroing(effect.value) ==>
      && r.depth == Clamp(s.depth + effect.value.depth.GetOr(0), Lo, Hi)
      && r.signal == Clamp(s.signal + effect.value.signal.GetOr(0), Lo, Hi)
      && r.entropy == Clamp(s.entropy + effect.value.entropy.GetOr(0), Lo, Hi)
  {
    match effect
    case None => s
    case Some(e) =>
      if IsZeroing(e) then Zero
      else Stats(
        Clamp(s.depth + e.depth.GetOr(0), Lo, Hi),
        Clamp(s.signal + e.signal.GetOr(0), Lo, Hi),
        Clamp(s.entropy + e.entropy.GetOr(0), Lo, Hi))
  }

  /** An empty effect object is not the zeroing one: it leaves in-range
      stats exactly as they were. */
  lemma EmptyEffectKeeps(s: Stats)
    requires InRange(s)
    ensures ApplyEffect(s, Some(NoEffect)) == s
  {
  }

  /** A change that stays within the range is applied exactly. */
  lemma EffectAdds(s: Stats, e: Effect)
    requires !IsZeroing(e)
    requires InRange(Stats(s.depth + e.depth.GetOr(0), s.signal + e.signal.GetOr(0), s.entropy + e.entropy.GetOr(0)))
    ensures ApplyEffect(s, Some(e)) ==
      Stats(s.depth + e.depth.GetOr(0), s.signal + e.signal.GetOr(0), s.entropy + e.entropy.GetOr(0))
  {
  }

  /** `onCollectShard`: one more signal, clamped; the other stats stay. */
  function CollectShard(s: Stats): (r: Stats)
    ensures r.depth == s.depth && r.entropy == s.entropy
    ensures Lo <= r.signal <= Hi
    ensures Lo <= s.signal < Hi ==> r.signal == s.signal + 1
    ensures s.signal >= Hi ==> r.signal == Hi
  {
    s.(signal := Clamp(s.signal + 1, Lo, Hi))
  }

  /** Collecting shards keeps in-range stats in range, and a full signal
      stays full. */
  lemma ShardKeepsRange(s: Stats)
    requires InRange(s)
    ensures InRange(CollectShard(s))
    ensures s.signal == Hi ==> CollectShard(s) == s
  {
  }

  // ---------------------------------------------------------------------
  // Lookup and choosing
  // ---------------------------------------------------------------------

  /** The position in `Order` of the first node with this id, if any. */
  function IndexFrom(id: string, from: nat): (r: Option<nat>)
    requires from <= |Order|
    ensures r.Some? ==> from <= r.value < |Order| && Id(Order[r.value]) == id
    ensures r.Some? ==> forall k :: from <= k < r.value ==> Id(Order[k]) != id
    ensures r.None? ==> forall k :: from <= k < |Order| ==> Id(Order[k]) != id
    decreases |Order| - from
  {
    if from == |Order| then None
    else if Id(Order[from]) == id then Some(from)
    else IndexFrom(id, from + 1)
  }

  /** `NODES.find(n => n.id === node) || NODES[0]`: the node with this id,
      and the first node when there is none. */
  function Lookup(id: string): (r: Place)
    ensures (exists k :: 0 <= k < |Order| && Id(Order[k]) == id) ==> Id(r) == id
    ensures (forall k :: 0 <= k < |Order| ==> Id(Order[k]) != id) ==> r == Order[0]
  {
    match IndexFrom(id, 0)
    case Some(k) => Order[k]
    case None => Order[0]
  }

  /** An id names a node of the graph. */
  predicate Known(id: string) {
    exists k :: 0 <= k < |Order| && Id(Order[k]) == id
  }

  /** The game: the current node's id and the stats. */
  datatype Game = Game(node: string, stats: Stats)

  const Start := Game(Id(Wakeup), Zero)

  /** `onChoose`: the effect's update is queued, then a resetting choice
      queues zeroed stats, which land last; the node becomes `next`. */
  function Choose(g: Game, c: Choice): (r: Game)
    ensures r.node == Id(c.next)
    ensures c.reset ==> r.stats == Zero
    ensures !c.reset ==> r.stats == ApplyEffect(g.stats, Some(c.effect))
    ensures InRange(r.stats)
  {
    var applied := ApplyEffect(g.stats, Some(c.effect));
    Game(Id(c.next), if c.reset then Zero else applied)
  }

  /** Clicking the `k`-th button under the node on screen. */
  function Pick(g: Game, k: nat): (r: Game)
    requires k < |Choices(Lookup(g.node))|
    ensures r.node == Id(Choices(Lookup(g.node))[k].next)
    ensures InRange(r.stats)
  {
    Choose(g, Choices(Lookup(g.node))[k])
  }

  // ---------------------------------------------------------------------
  // The shape of the graph
  // ---------------------------------------------------------------------

  /** A short signature of an id: its length and first two characters. */
  function Sig(s: string): int {
    if |s| < 2 then |s| else |s| * 65536 + (s[0] as int) * 256 + s[1] as int
  }

  /** The node whose id has this signature. */
  function PlaceOfSig(sig: int): Option<Place> {
    match sig
    case 423777 => Some(Wakeup)
    case 484207 => Some(Console)
    case 549743 => Some(Corridor)
    case 357224 => Some(Shaft)
    case 290921 => Some(Ping)
    case 354401 => Some(Hatch)
    case 289903 => Some(Loop)
    case 420969 => Some(Listen)
    case 354670 => Some(Infra)
    case 287093 => Some(Auth)
    case 421734 => Some(Offset)
    case 287841 => Some(Dark)
    case 418674 => Some(Cranes)
    case 291683 => Some(Scan)
    case 287855 => Some(Door)
    case 355685 => Some(Merge)
    case 358241 => Some(Watch)
    case 287599 => Some(Core)
    case 418164 => Some(Atrium)
    case 619109 => Some(Reservoir)
    case 419182 => Some(Ending)
    case 484718 => Some(Ending2)
    case _ => None
  }

  lemma SigIdentifies(p: Place)
    ensures PlaceOfSig(Sig(Id(p))) == Some(p)
  {
  }

  /** Node ids are unique. */
  lemma IdsUnique(p: Place, q: Place)
    requires Id(p) == Id(q)
    ensures p == q
  {
    SigIdentifies(p);
    SigIdentifies(q);
  }

  /** Every node appears in `NODES`, at the position `Position` gives. */
  function Position(p: Place): (k: nat)
    ensures k < |Order| && Order[k] == p
  {
    match p
    case Wakeup => 0
    case Console => 1
    case Corridor => 2
    case Shaft => 3
    case Ping => 4
    case Hatch => 5
    case Loop => 6
    case Listen => 7
    case Infra => 8
    case Auth => 9
    case Offset => 10
    case Dark => 11
    case Cranes => 12
    case Scan => 13
    case Door => 14
    case Merge => 15
    case Watch => 16
    case Core => 17
    case Atrium => 18
    case Reservoir => 19
    case Ending => 20
    case Ending2 => 21
  }

  /** Every node is found under its own id. */
  lemma LookupOwnId(p: Place)
    ensures Known(Id(p))
    ensures Lookup(Id(p)) == p
  {
    var k := Position(p);
    assert Id(Order[k]) == Id(p);
    IdsUnique(Lookup(Id(p)), p);
  }

  /** Every node offers one or two choices. */
  lemma SomeChoice(p: Place)
    ensures 1 <= |Choices(p)| <= 2
  {
  }

  /** Every choice leads to a node of the graph, so the fallback of
      `Lookup` is never needed while playing. */
  lemma PickStaysInGraph(g: Game, k: nat)
    requires k < |Choices(Lookup(g.node))|
    ensures Known(Pick(g, k).node)
    ensures Lookup(Pick(g, k).node) == Choices(Lookup(g.node))[k].next
  {
    LookupOwnId(Choices(Lookup(g.node))[k].next);
  }

  /** The number of clicks `PathHome` takes from a node back to `wakeup`. */
  function Rank(p: Place): nat {
    match p
    case Wakeup => 0
    case Console => 2
    case Corridor => 4
    case Shaft => 5
    case Ping => 1
    case Hatch => 3
    case Loop => 4
    case Listen => 5
    case Infra => 4
    case Auth => 4
    case Offset => 5
    case Dark => 3
    case Cranes => 3
    case Scan => 3
    case Door => 3
    case Merge => 5
    case Watch => 3
    case Core => 2
    case Atrium => 4
    case Reservoir => 5
    case Ending => 1
    case Ending2 => 1
  }

  /** The choice that brings a node one step closer to `wakeup`. */
  function Down(p: Place): nat {
    match p
    case Console => 1
    case Ping => 1
    case Loop => 1
    case Offset => 1
    case _ => 0
  }

  lemma Descends(p: Place)
    ensures Rank(p) == 0 <==> p == Wakeup
    ensures Down(p) < |Choices(p)|
    ensures Rank(p) > 0 ==> Rank(Choices(p)[Down(p)].next) == Rank(p) - 1
  {
  }

  /** Where a sequence of button clicks leads from a node, or `None` when a
      click names no button. */
  function Walk(id: string, path: seq<nat>): (r: Option<string>)
    decreases |path|
  {
    if path == [] then Some(id)
    else
      var p := Lookup(id);
      if path[0] < |Choices(p)| then Walk(Id(Choices(p)[path[0]].next), path[1..])
      else None
  }

  /** The clicks that take node `p` back to `wakeup`. */
  function PathHome(p: Place): (path: seq<nat>)
    ensures |path| == Rank(p)
    decreases Rank(p)
  {
    Descends(p);
    if Rank(p) == 0 then []
    else [Down(p)] + PathHome(Choices(p)[Down(p)].next)
  }

  /** `wakeup` is reachable from every node: both endings restart there and
      every other node has a choice that brings it closer. */
  lemma {:induction false} HomeReachable(p: Place)
    ensures Walk(Id(p), PathHome(p)) == Some(Id(Wakeup))
    decreases Rank(p)
  {
    Descends(p);
    if Rank(p) > 0 {
      LookupOwnId(p);
      var q := Choices(p)[Down(p)].next;
      HomeReachable(q);
      assert PathHome(p)[1..] == PathHome(q);
    }
  }

  /** ... so from any known id some sequence of clicks returns to the
      start. */
  lemma HomeFromAnywhere(id: string)
    requires Known(id)
    ensures exists path :: Walk(id, path) == Some(Id(Wakeup))
  {
    var p := Lookup(id);
    HomeReachable(p);
  }

  /** No choice leads into `atrium` or `reservoir`: those two nodes can only
      be shown through a saved node id. */
  lemma Unentered(p: Place, c: nat)
    requires c < |Choices(p)|
    ensures Choices(p)[c].next != Atrium && Choices(p)[c].next != Reservoir
  {
  }

  /** The choice under either ending sends the game back to its opening
      state. */
  lemma EndingRestarts(g: Game, p: Place, k: nat)
    requires p == Ending || p == Ending2
    requires g.node == Id(p) && k < |Choices(Lookup(g.node))|
    ensures Pick(g, k) == Start
  {
    LookupOwnId(p);
    assert Choices(p)[k] == Choice(Wakeup, ZeroEffect, true);
  }

}
