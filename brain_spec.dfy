/** The player's turn-resolution state machine as values: a snapshot of the
    brain's fields and one function per operation on it. The class in
    brain.dfy keeps the same fields and is proved to follow these functions;
    the lemmas at the end follow a whole card queue through the machine. */
module BrainSpec {
  import opened Wrappers
  import opened Cards
  import opened Board

  datatype State = WaitingForActions | FindTileUponAction | PlayResult | PrepareNextAction

  /** What the brain does to the player: calls on the player controller and
      the write to the player's transform when an obstacle interrupts. */
  datatype PlayerEffect =
    | TurnPlayer(isLeft: bool)
    | StartJump(from: Vec3, to: Vec3)
    | StartMove(from: Vec3, to: Vec3)
    | StopFall
    | StopJump
    | StopMove
    | SnapPlayer(to: Vec3)

  /** The brain's fields. `coroutine` is the single slot for the running
      state coroutine, named by the state whose body it runs; None when no
      coroutine was started yet or the last one ran to its end. */
  datatype Machine = Machine(
    state: State,
    coroutine: Option<State>,
    action: Option<Card>,
    actions: seq<Card>,
    target: Option<Tile>,
    distance: int,
    effects: seq<PlayerEffect>)

  /** A freshly created brain: the enum's default state and empty fields. */
  const Initial := Machine(WaitingForActions, None, None, [], None, 0, [])

  /** The directions a spring jump draws from. */
  const SpringDirections: seq<int> := [0, 2, 6, 8]

  /** What one pass of a state body reads from outside the brain: the board,
      the player's tile and facing, and the index Random.Range(0, 4) picked
      for a spring jump. */
  datatype Env = Env(tiles: TileManager, player: PlayerView, springPick: int)

  predicate ValidEnv(e: Env) {
    0 <= e.springPick < |SpringDirections|
  }

  /** The brain's invariant: the slot only ever runs the current state's
      body, and the states that use the current card and target tile have
      them. */
  predicate Valid(m: Machine) {
    && (m.coroutine.Some? ==> m.coroutine.value == m.state)
    && (m.state == FindTileUponAction ==> m.action.Some?)
    && (m.state == PlayResult ==> m.action.Some? && m.target.Some?)
  }

  // ---------------------------------------------------------------- card queue

  /** GetNextAction on the queue: the head, or None on an empty queue. */
  function PopFront(q: seq<Card>): (r: (Option<Card>, seq<Card>))
    ensures r.0.None? <==> q == []
    ensures r.0.None? ==> r.1 == q
    ensures r.0.Some? ==> [r.0.value] + r.1 == q
  {
    if |q| >= 1 then (Some(q[0]), q[1..]) else (None, q)
  }

  /** AddCardToList on the queue: a card goes to the front, a null card is dropped. */
  function PushFront(q: seq<Card>, c: Option<Card>): (r: seq<Card>)
    ensures c.Some? ==> PopFront(r) == (c, q)
    ensures c.None? ==> r == q
  {
    if c.Some? then [c.value] + q else q
  }

  // ------------------------------------------------------------- transitions

  /** FSM(stateTo): enter the state and start its body in the single slot,
      which replaces whatever coroutine ran before. */
  function Fsm(m: Machine, stateTo: State): Machine {
    m.(state := stateTo, coroutine := Some(stateTo))
  }

  const Stops: seq<PlayerEffect> := [StopFall, StopJump, StopMove]

  function HandleReachedDestination(m: Machine): Machine {
    Fsm(m.(effects := m.effects + Stops), PrepareNextAction)
  }

  function HandleObstacleInterruption(m: Machine, tiles: TileManager, player: PlayerView): Machine {
    var snapped := m.effects + Stops + [SnapPlayer(tiles.snap(player.tile))];
    Fsm(m.(effects := snapped), PrepareNextAction)
  }

  function StartCardActions(m: Machine, incoming: seq<Card>): Machine {
    Fsm(m.(actions := incoming), PrepareNextAction)
  }

  // ------------------------------------------------------------- state bodies

  /** One pass of PrepareNextAction: take the next card, then look for its
      tile, or wait when there was none. */
  function PrepareNextActionBody(m: Machine): (r: Machine)
    ensures (r.action, r.actions) == PopFront(m.actions)
    ensures r.state == FindTileUponAction <==> m.actions != []
    ensures r.state == WaitingForActions <==> m.actions == []
    ensures r.coroutine == Some(r.state)
    ensures r.target == m.target && r.distance == m.distance && r.effects == m.effects
  {
    var (card, rest) := PopFront(m.actions);
    var m' := m.(action := card, actions := rest);
    if card.Some? then Fsm(m', FindTileUponAction) else Fsm(m', WaitingForActions)
  }

  /** One pass of FindTileUponAction: the card's distance, and the tile that
      far from the player's tile in the player's facing direction. */
  function FindTileUponActionBody(m: Machine, e: Env): (r: Machine)
    requires m.action.Some?
    ensures r.distance == m.action.value.distance
    ensures r.target == Some(e.tiles.tileAt(e.player.tile, e.player.facing, m.action.value.distance))
    ensures r.state == PlayResult && r.coroutine == Some(PlayResult)
    ensures r.action == m.action && r.actions == m.actions && r.effects == m.effects
  {
    var d := m.action.value.distance;
    Fsm(m.(distance := d, target := Some(e.tiles.tileAt(e.player.tile, e.player.facing, d))), PlayResult)
  }

  /** Where a jump goes: its new distance, the tile it aims at and the
      position it lands on. */
  datatype JumpPlan = JumpPlan(spring: bool, distance: int, target: Tile, landing: Vec3)

  /** The jump rules. A distance above 2 is a spring: one tile shorter, in a
      drawn diagonal direction. Otherwise the distance is corrected by the
      drop from the player's tile to the target, and a target that rises
      more than the distance is landed on one unit below its snap position. */
  function JumpResult(tiles: TileManager, current: Tile, target: Tile, d: int, pick: int): (r: JumpPlan)
    requires 0 <= pick < |SpringDirections|
    ensures r.spring <==> d > 2
    ensures r.spring ==> r.distance == d - 1
    ensures r.spring ==> r.target == tiles.tileAt(current, SpringDirections[pick], r.distance)
    ensures r.spring ==> r.landing == tiles.snap(r.target)
    ensures !r.spring ==> r.target == target
    ensures !r.spring ==> r.distance == d + tiles.elevation(current) - tiles.elevation(target)
    ensures !r.spring && tiles.elevation(target) - tiles.elevation(current) <= d ==> r.landing == tiles.snap(target)
    ensures !r.spring && tiles.elevation(target) - tiles.elevation(current) > d ==> r.landing == Lowered(tiles.snap(target))
  {
    if d > 2 then
      var dist := d - 1;
      var t := tiles.tileAt(current, SpringDirections[pick], dist);
      JumpPlan(true, dist, t, tiles.snap(t))
    else
      var dist := d + (tiles.elevation(current) - tiles.elevation(target));
      if dist < 0 then JumpPlan(false, dist, target, Lowered(tiles.snap(target)))
      else JumpPlan(false, dist, target, tiles.snap(target))
  }

  /** One pass of PlayResult. A turn turns the player and reports reaching
      its destination at once, which re-enters PrepareNextAction. A jump or
      a move starts the player controller's motion; the coroutine then ends
      and the machine waits in PlayResult for the controller's report. */
  function PlayResultBody(m: Machine, e: Env): (r: Machine)
    requires m.state == PlayResult && m.action.Some? && m.target.Some? && ValidEnv(e)
    ensures r.action == m.action && r.actions == m.actions
    ensures IsTurn(m.action.value) ==> r.state == PrepareNextAction && r.coroutine == Some(PrepareNextAction)
    ensures !IsTurn(m.action.value) ==> r.state == PlayResult && r.coroutine == None
    ensures m.action.value.name == TurnLeft ==> r.effects == m.effects + [TurnPlayer(true)] + Stops
    ensures m.action.value.name == TurnRight ==> r.effects == m.effects + [TurnPlayer(false)] + Stops
    ensures m.action.value.name == Move ==>
              r.effects == m.effects + [StartMove(e.tiles.snap(e.player.tile), e.tiles.snap(m.target.value))]
    ensures m.action.value.name == Move ==> r.distance == m.distance && r.target == m.target
    ensures m.action.value.name == Jump ==>
              var j := JumpResult(e.tiles, e.player.tile, m.target.value, m.distance, e.springPick);
              r.effects == m.effects + [StartJump(e.tiles.snap(e.player.tile), j.landing)]
              && r.distance == j.distance && r.target == Some(j.target)
  {
    var from := e.tiles.snap(e.player.tile);
    match m.action.value.name
    case TurnLeft => HandleReachedDestination(m.(effects := m.effects + [TurnPlayer(true)]))
    case TurnRight => HandleReachedDestination(m.(effects := m.effects + [TurnPlayer(false)]))
    case Jump =>
      var j := JumpResult(e.tiles, e.player.tile, m.target.value, m.distance, e.springPick);
      m.(distance := j.distance, target := Some(j.target), coroutine := None,
         effects := m.effects + [StartJump(from, j.landing)])
    case Move =>
      m.(coroutine := None, effects := m.effects + [StartMove(from, e.tiles.snap(m.target.value))])
  }

  /** One pass of the body the slot runs; nothing happens when no coroutine
      is running, and WaitingForActions only waits. */
  function Step(m: Machine, e: Env): (r: Machine)
    requires Valid(m) && ValidEnv(e)
    ensures Valid(r)
    ensures r.actions == m.actions || r.actions == PopFront(m.actions).1
  {
    if m.coroutine.None? then m
    else match m.state
      case WaitingForActions => m
      case PrepareNextAction => PrepareNextActionBody(m)
      case FindTileUponAction => FindTileUponActionBody(m, e)
      case PlayResult => PlayResultBody(m, e)
  }

  // ------------------------------------------------------- draining a queue

  /** What happens to the player while one card is resolved: the world the
      brain reads while it plays the card, whether the motion is cut short
      by an obstacle, and the player as the controller leaves it when it
      reports (its tile may differ from the one the card started on). */
  datatype CardRun = CardRun(env: Env, blocked: bool, atReport: PlayerView)

  /** A motion that was started ends with the controller's report: it
      reached its destination, or it hit an obstacle. */
  function Complete(m: Machine, run: CardRun): (r: Machine)
    requires Valid(m)
    ensures Valid(r)
  {
    if m.state == PlayResult && m.coroutine.None? then
      if run.blocked then HandleObstacleInterruption(m, run.env.tiles, run.atReport)
      else HandleReachedDestination(m)
    else m
  }

  /** The effects on the player one card should have, read off the card
      alone: a turn turns and reports arrival; a move or jump starts its
      motion to the tile the card's distance points at, then the motion is
      stopped, and an obstacle also snaps the player to the tile it is on
      when the controller reports. */
  function CardEffects(c: Card, run: CardRun): seq<PlayerEffect>
    requires ValidEnv(run.env)
  {
    var e := run.env;
    var from := e.tiles.snap(e.player.tile);
    var target := e.tiles.tileAt(e.player.tile, e.player.facing, c.distance);
    var finish := if run.blocked then Stops + [SnapPlayer(e.tiles.snap(run.atReport.tile))] else Stops;
    match c.name
    case TurnLeft => [TurnPlayer(true)] + Stops
    case TurnRight => [TurnPlayer(false)] + Stops
    case Jump => [StartJump(from, JumpResult(e.tiles, e.player.tile, target, c.distance, e.springPick).landing)] + finish
    case Move => [StartMove(from, e.tiles.snap(target))] + finish
  }

  /** The effects of a whole queue, card by card in queue order. */
  function QueueEffects(q: seq<Card>, runs: seq<CardRun>): seq<PlayerEffect>
    requires |q| == |runs|
    requires forall i :: 0 <= i < |runs| ==> ValidEnv(runs[i].env)
  {
    if q == [] then [] else CardEffects(q[0], runs[0]) + QueueEffects(q[1..], runs[1..])
  }

  /** Ready to resolve the next card: in PrepareNextAction with its body running. */
  predicate Preparing(m: Machine) {
    m.state == PrepareNextAction && m.coroutine == Some(PrepareNextAction)
  }

  /** One card's round from PrepareNextAction: take the card, find its
      tile, play it, then take the controller's report. It consumes the head
      of the queue, has exactly that card's effects on the player and comes
      back to PrepareNextAction with the rest of the queue. */
  function Round(m: Machine, run: CardRun): (r: Machine)
    requires Valid(m) && ValidEnv(run.env) && Preparing(m) && m.actions != []
    ensures Valid(r) && Preparing(r)
    ensures r.action == Some(m.actions[0]) && r.actions == m.actions[1..]
  {
    var e := run.env;
    Complete(PlayResultBody(FindTileUponActionBody(PrepareNextActionBody(m), e), e), run)
  }

  /** A round has exactly its card's effects on the player. */
  lemma RoundEffects(m: Machine, run: CardRun)
    requires Valid(m) && ValidEnv(run.env) && Preparing(m) && m.actions != []
    ensures Round(m, run).effects == m.effects + CardEffects(m.actions[0], run)
  {
  }

  /** A round is what three passes of the running body and the
      controller's report make of the machine. */
  lemma RoundIsThreeSteps(m: Machine, run: CardRun)
    requires Valid(m) && ValidEnv(run.env) && Preparing(m) && m.actions != []
    ensures Round(m, run) == Complete(Step(Step(Step(m, run.env), run.env), run.env), run)
  {
  }

  /** Rounds, one per CardRun, while cards remain. */
  function Drive(m: Machine, runs: seq<CardRun>): (r: Machine)
    requires Valid(m) && Preparing(m) && |runs| <= |m.actions|
    requires forall i :: 0 <= i < |runs| ==> ValidEnv(runs[i].env)
    ensures Valid(r) && Preparing(r)
    ensures r.actions == m.actions[|runs|..]
    decreases |runs|
  {
    if runs == [] then m
    else
      var rest := runs[1..];
      assert forall i :: 0 <= i < |rest| ==> rest[i] == runs[i + 1];
      Drive(Round(m, runs[0]), rest)
  }

  /** A queue in PrepareNextAction is resolved card by card in order: when
      every motion ends (at its destination or against an obstacle), the
      machine ends in WaitingForActions with the queue empty, and the player
      saw the queue's effects in queue order. */
  lemma {:induction false} DrainQueue(m: Machine, runs: seq<CardRun>)
    requires Valid(m) && Preparing(m)
    requires |runs| == |m.actions|
    requires forall i :: 0 <= i < |runs| ==> ValidEnv(runs[i].env)
    ensures Drive(m, runs).actions == []
    ensures PrepareNextActionBody(Drive(m, runs)).state == WaitingForActions
    ensures Drive(m, runs).effects == m.effects + QueueEffects(m.actions, runs)
    decreases |runs|
  {
    if runs != [] {
      var m' := Round(m, runs[0]);
      var rest := runs[1..];
      assert forall i :: 0 <= i < |rest| ==> rest[i] == runs[i + 1];
      DrainQueue(m', rest);
      RoundEffects(m, runs[0]);
      QueueEffectsCons(m.actions, runs);
      EffectsAppend(m.effects, CardEffects(m.actions[0], runs[0]), QueueEffects(m'.actions, rest));
    }
  }

  lemma EffectsAppend(a: seq<PlayerEffect>, b: seq<PlayerEffect>, c: seq<PlayerEffect>)
    ensures (a + b) + c == a + (b + c)
  {
  }

  /** A queue's effects are its head's effects followed by the rest's. */
  lemma QueueEffectsCons(q: seq<Card>, runs: seq<CardRun>)
    requires |q| == |runs| && q != []
    requires forall i :: 0 <= i < |runs| ==> ValidEnv(runs[i].env)
    ensures forall i :: 0 <= i < |runs[1..]| ==> ValidEnv(runs[1..][i].env)
    ensures QueueEffects(q, runs) == CardEffects(q[0], runs[0]) + QueueEffects(q[1..], runs[1..])
  {
    assert forall i :: 0 <= i < |runs[1..]| ==> runs[1..][i] == runs[i + 1];
  }

  /** A card list handed to StartCardActions is played in full, in order,
      whatever was queued before, and the brain then waits for the next list.
      The only reports are the ones for the new list's motions: a motion
      started before and still to report is not part of the runs. */
  lemma StartedQueueDrains(m: Machine, incoming: seq<Card>, runs: seq<CardRun>)
    requires Valid(m)
    requires |runs| == |incoming|
    requires forall i :: 0 <= i < |runs| ==> ValidEnv(runs[i].env)
    ensures var done := Drive(StartCardActions(m, incoming), runs);
            && done.actions == []
            && done.effects == m.effects + QueueEffects(incoming, runs)
            && PrepareNextActionBody(done).state == WaitingForActions
  {
    DrainQueue(StartCardActions(m, incoming), runs);
  }

  /** A card pushed to the front is the one the next PrepareNextAction takes,
      and the queue behind it is as it was. */
  lemma InjectedCardIsNext(m: Machine, c: Card)
    ensures PrepareNextActionBody(m.(actions := PushFront(m.actions, Some(c)))).action == Some(c)
    ensures PrepareNextActionBody(m.(actions := PushFront(m.actions, Some(c)))).actions == m.actions
    ensures PrepareNextActionBody(m.(actions := PushFront(m.actions, Some(c)))).state == FindTileUponAction
  {
  }
}
