/** The player's turn-resolution state machine as the object the game holds:
    its fields are updated in place, and each method is proved to change
    them as the function of the same name in BrainSpec says. */
module StateMachine {
  import opened Wrappers
  import opened Cards
  import opened Board
  import opened BrainSpec

  class PlayerStateMachineBrain {
    var currentState: State
    /** The single slot for the running state coroutine. */
    var currentCoroutine: Option<State>
    var currentAction: Option<Card>
    var actions: seq<Card>
    var targetTile: Option<Tile>
    var distance: int
    /** What the brain has done to the player so far, oldest first. */
    var playerEffects: seq<PlayerEffect>

    function Model(): Machine
      reads this
    {
      Machine(currentState, currentCoroutine, currentAction, actions, targetTile, distance, playerEffects)
    }

    predicate Valid()
      reads this
    {
      BrainSpec.Valid(Model())
    }

    constructor ()
      ensures Model() == Initial && Valid()
    {
      currentState := State.WaitingForActions;
      currentCoroutine := None;
      currentAction := None;
      actions := [];
      targetTile := None;
      distance := 0;
      playerEffects := [];
    }

    /** Enter a state: stop the running coroutine and start the new state's
        body in its place. */
    method FSM(stateTo: State)
      modifies this
      ensures currentState == stateTo && currentCoroutine == Some(stateTo)
      ensures Model() == Fsm(old(Model()), stateTo)
      ensures Valid() <==> (stateTo == State.FindTileUponAction ==> currentAction.Some?)
                           && (stateTo == State.PlayResult ==> currentAction.Some? && targetTile.Some?)
    {
      currentState := stateTo;
      currentCoroutine := Some(stateTo);
    }

    /** Take the first queued card, or None when the queue is empty. */
    method GetNextAction() returns (card: Option<Card>)
      modifies this`actions
      ensures old(actions) == [] ==> card == None && actions == []
      ensures old(actions) != [] ==> card == Some(old(actions)[0]) && actions == old(actions)[1..]
      ensures (card, actions) == PopFront(old(actions))
      ensures Valid() == old(Valid())
    {
      if |actions| >= 1 {
        card := Some(actions[0]);
        actions := actions[1..];
      } else {
        card := None;
      }
    }

    method GetState() returns (s: State)
      ensures s == currentState
    {
      s := currentState;
    }

    /** Replace the queue by the incoming cards, in their order. */
    method SetCardList(incomingActions: seq<Card>)
      modifies this`actions
      ensures actions == incomingActions
      ensures Valid() == old(Valid())
    {
      actions := [];
      actions := actions + incomingActions;
    }

    /** Put a card at the front of the queue; a null card is dropped. */
    method AddCardToList(card: Option<Card>)
      modifies this`actions
      ensures card.Some? ==> actions == [card.value] + old(actions)
      ensures card.None? ==> actions == old(actions)
      ensures actions == PushFront(old(actions), card)
      ensures Valid() == old(Valid())
    {
      if card.Some? {
        actions := [card.value] + actions;
      }
    }

    /** Load a new card list and start resolving it from its first card. */
    method StartCardActions(incomingActions: seq<Card>)
      modifies this
      ensures actions == incomingActions
      ensures Valid()
      ensures currentState == State.PrepareNextAction && currentCoroutine == Some(State.PrepareNextAction)
      ensures Model() == BrainSpec.StartCardActions(old(Model()), incomingActions)
    {
      SetCardList(incomingActions);
      FSM(State.PrepareNextAction);
    }

    /** The controller's report that the motion ended: stop its motions and
        go on with the next card. */
    method HandleReachedDestination()
      modifies this
      ensures currentState == State.PrepareNextAction
      ensures actions == old(actions)
      ensures playerEffects == old(playerEffects) + [StopFall, StopJump, StopMove]
      ensures Model() == BrainSpec.HandleReachedDestination(old(Model()))
      ensures Valid()
    {
      playerEffects := playerEffects + [StopFall, StopJump, StopMove];
      FSM(State.PrepareNextAction);
    }

    /** The motion hit an obstacle: stop its motions, put the player back on
        its tile's snap position and go on with the next card. */
    method HandleObstacleInterruption(tiles: TileManager, player: PlayerView)
      modifies this
      ensures currentState == State.PrepareNextAction
      ensures actions == old(actions)
      ensures playerEffects == old(playerEffects) + [StopFall, StopJump, StopMove, SnapPlayer(tiles.snap(player.tile))]
      ensures Model() == BrainSpec.HandleObstacleInterruption(old(Model()), tiles, player)
      ensures Valid()
    {
      playerEffects := playerEffects + [StopFall, StopJump, StopMove];
      playerEffects := playerEffects + [SnapPlayer(tiles.snap(player.tile))];
      FSM(State.PrepareNextAction);
    }

    /** Run one pass of the body the coroutine slot holds. */
    method Step(e: Env)
      requires Valid() && ValidEnv(e)
      modifies this
      ensures Valid()
      ensures Model() == BrainSpec.Step(old(Model()), e)
    {
      if currentCoroutine.None? {
        return;
      }
      match currentState
      case WaitingForActions =>
      case PrepareNextAction => PrepareNextAction();
      case FindTileUponAction => FindTileUponAction(e);
      case PlayResult => PlayResult(e);
    }

    method PrepareNextAction()
      modifies this
      ensures Model() == PrepareNextActionBody(old(Model()))
      ensures Valid()
    {
      currentAction := GetNextAction();
      if currentAction.Some? {
        FSM(State.FindTileUponAction);
      } else {
        FSM(State.WaitingForActions);
      }
    }

    method FindTileUponAction(e: Env)
      requires currentAction.Some?
      modifies this
      ensures Model() == FindTileUponActionBody(old(Model()), e)
      ensures Valid()
    {
      var currentTile := e.player.tile;
      distance := currentAction.value.distance;
      targetTile := Some(e.tiles.tileAt(currentTile, e.player.facing, distance));
      FSM(State.PlayResult);
    }

    method PlayResult(e: Env)
      requires currentState == State.PlayResult && currentAction.Some? && targetTile.Some? && ValidEnv(e)
      modifies this
      ensures Model() == PlayResultBody(old(Model()), e)
      ensures Valid()
    {
      var current := e.player.tile;
      var from := e.tiles.snap(current);
      match currentAction.value.name
      case TurnLeft =>
        playerEffects := playerEffects + [TurnPlayer(true)];
        HandleReachedDestination();
      case TurnRight =>
        playerEffects := playerEffects + [TurnPlayer(false)];
        HandleReachedDestination();
      case Jump =>
        if distance > 2 {
          distance := distance - 1;
          var direction := SpringDirections[e.springPick];
          targetTile := Some(e.tiles.tileAt(current, direction, distance));
          playerEffects := playerEffects + [StartJump(from, e.tiles.snap(targetTile.value))];
        } else {
          distance := distance + (e.tiles.elevation(current) - e.tiles.elevation(targetTile.value));
          if distance < 0 {
            var newVector := e.tiles.snap(targetTile.value);
            playerEffects := playerEffects + [StartJump(from, Vec3(newVector.x, newVector.y - 1, newVector.z))];
          } else {
            playerEffects := playerEffects + [StartJump(from, e.tiles.snap(targetTile.value))];
          }
        }
        currentCoroutine := None;
      case Move =>
        playerEffects := playerEffects + [StartMove(from, e.tiles.snap(targetTile.value))];
        currentCoroutine := None;
    }
  }
}
