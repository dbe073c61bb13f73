# Come Back to It: the player's turn-resolution state machine and the SFX id check, in Dafny

This project models two parts of the game's scripts.

**The player state machine brain** (`PlayerStateMachineBrain`). It takes a list of played cards and resolves them one at a time into player motions. It has four states: `WaitingForActions`, `PrepareNextAction`, `FindTileUponAction` and `PlayResult`. `FSM(s)` enters a state and starts that state's coroutine in place of the one that was running. Each cycle goes like this:
- `PrepareNextAction` takes the first card of the queue.
- `FindTileUponAction` finds the tile that the card's distance reaches in the player's facing direction.
- `PlayResult` turns the player, or starts a jump or a move on the player controller.

When the player controller reports that the motion reached its destination, or when an obstacle interruption is reported, the machine goes back to `PrepareNextAction`. An empty queue sends it to `WaitingForActions`.

**The SFX manager's id check** (`SfxManager`). Whenever the list of sound effects is edited, `OnValidate` makes every effect's id unique. The first entry with a given id keeps it. Every later entry with the same id gets a new random id in [1000, 10000), one that no other entry holds. Playing, stopping and fading an effect find it by id.

Files:
- `wrappers.dfy`: `Option`, the model of a C# reference that may be null.
- `board.dfy`: cards (`Cards`); tiles, positions and the board and player queries (`Board`).
- `brain_spec.dfy` (`BrainSpec`): the brain's fields as a value `Machine`, one function per operation, and lemmas that follow a whole queue through the machine.
- `brain.dfy` (`StateMachine`): the class `PlayerStateMachineBrain`. Its fields are updated in place. Each method is proved to change them as the matching `BrainSpec` function says.
- `sfx_manager.dfy` (`Audio`): the class `SfxManager` over the array of entry ids, and the id lookup.

How the brain is modelled:
- **Coroutines.** Each Unity coroutine is one pass of its state's body, run by `Step`. The field `currentCoroutine` is the single coroutine slot. It names the state whose body is running. `FSM` overwrites it, so at most one state body is ever live. `PlayResult`'s body is an `if`, not a loop. After it starts a jump or a move it ends: the slot becomes `None`, and the machine waits in `PlayResult` for the controller's report.
- **Collaborators.** The board and the player controller are given as values:
  - `TileManager` holds the tile-at-distance query, elevation and snap position;
  - `PlayerView` holds the player's tile and facing.
- **Effects on the player.** Calls on the player controller and the write to the player's position are recorded in order in `playerEffects`.
- **Randomness.** The spring-jump direction drawn with `Random.Range(0, 4)` is an index parameter (`Env.springPick`).

The SFX id check is modelled like this:
- The ids are drawn from a finite stream `draws`, each element in [1000, 10000).
- A redraw takes the first draw that no other entry holds (`FirstFresh`).
- The whole walk is the function `Walk`. From the last entry to the first, each entry whose id another entry holds takes its redraw. The walk is stuck when an entry finds no such draw among those left.
- `OnValidate` ends exactly as `Walk` does. `ok` is false only when the walk is stuck, and then no draws are left (`rest == []`). Any entry may then still share its id.
- The walk cannot get stuck when the draws are all different, none of them is already an id in the list, and there is at least one per entry. Then every redraw takes the next draw (`FreshDraws`).

What the brain's code does, and the model with it:
- There are four states and no others. `PlayResult` handles the four card kinds: turn left, turn right, jump and move.
- An obstacle interruption stops the three motions, snaps the player to the snap position of the tile the controller reports it on, and goes on with the next card.
- A move goes to the full snap position of the target, including its height.
- A jump is a spring jump when its distance is above 2. A spring jump:
  - shortens the distance by one;
  - aims in a direction drawn from {0, 2, 6, 8};
  - lands on the snap position of the tile it aims at.
- A normal jump:
  - keeps the target `FindTileUponAction` found, and corrects the distance by the current tile's elevation minus that target's elevation;
  - lands one unit below the target's snap position when the corrected distance is negative, otherwise on the target's snap position;
  - uses the corrected distance only to choose the landing. The target tile is not looked up again.
- `SetCardList` with an empty list empties the queue. `StartCardActions` then still enters `PrepareNextAction`, which goes straight to `WaitingForActions`.

## Model

| member | source | states |
|---|---|---|
| StateMachine.PlayerStateMachineBrain.constructor | Assets/Scripts/StateMachine/PlayerStateMachineBrain.cs:28-35 | A new brain waits for actions, runs no coroutine, and has no card, no target tile, distance 0 and an empty queue. |
| StateMachine.PlayerStateMachineBrain.FSM | Assets/Scripts/StateMachine/PlayerStateMachineBrain.cs:63-107 | The current state becomes `stateTo`. The coroutine slot then holds that state's body and nothing else, so the previous coroutine is replaced. Nothing else changes. Its specification is the function `BrainSpec.Fsm`. |
| StateMachine.PlayerStateMachineBrain.GetNextAction | Assets/Scripts/StateMachine/PlayerStateMachineBrain.cs:125-134 | On a non-empty queue it returns the old first card and leaves the old queue minus its head. On an empty queue it returns null and the queue stays empty. Only the queue changes. |
| StateMachine.PlayerStateMachineBrain.GetState | Assets/Scripts/StateMachine/PlayerStateMachineBrain.cs:135-138 | Reports the current state and changes nothing. |
| StateMachine.PlayerStateMachineBrain.SetCardList | Assets/Scripts/StateMachine/PlayerStateMachineBrain.cs:185-189 | The queue becomes exactly the incoming cards, in their order. Everything queued before is dropped, and no other field changes. |
| StateMachine.PlayerStateMachineBrain.AddCardToList | Assets/Scripts/StateMachine/PlayerStateMachineBrain.cs:195-205 | A non-null card becomes the head, with the old queue unchanged behind it. A null card leaves the queue as it was. |
| StateMachine.PlayerStateMachineBrain.StartCardActions | Assets/Scripts/StateMachine/PlayerStateMachineBrain.cs:211-215 | Whatever the state before, the queue becomes the incoming list and the brain is in `PrepareNextAction` with that body running. Its specification is the function `BrainSpec.StartCardActions`. |
| StateMachine.PlayerStateMachineBrain.HandleReachedDestination | Assets/Scripts/StateMachine/PlayerStateMachineBrain.cs:176-184 | The fall, jump and move coroutines are stopped, in that order, and the brain re-enters `PrepareNextAction`. The queue is kept. Its specification is the function `BrainSpec.HandleReachedDestination`. |
| StateMachine.PlayerStateMachineBrain.HandleObstacleInterruption | Assets/Scripts/StateMachine/PlayerStateMachineBrain.cs:163-175 | The three motions are stopped. Then the player is snapped to its current tile's snap position, and the brain re-enters `PrepareNextAction` with the queue kept. Its specification is the function `BrainSpec.HandleObstacleInterruption`. |
| StateMachine.PlayerStateMachineBrain.Step | Assets/Scripts/StateMachine/PlayerStateMachineBrain.cs:217-309 | Runs one pass of the body in the coroutine slot, exactly as `BrainSpec.Step` does, and keeps the brain's invariant. |
| StateMachine.PlayerStateMachineBrain.PrepareNextAction | Assets/Scripts/StateMachine/PlayerStateMachineBrain.cs:217-232 | Its effect on the fields is exactly `BrainSpec.PrepareNextActionBody`. |
| StateMachine.PlayerStateMachineBrain.FindTileUponAction | Assets/Scripts/StateMachine/PlayerStateMachineBrain.cs:234-246 | Its effect on the fields is exactly `BrainSpec.FindTileUponActionBody`. |
| StateMachine.PlayerStateMachineBrain.PlayResult | Assets/Scripts/StateMachine/PlayerStateMachineBrain.cs:248-301 | Its effect on the fields is exactly `BrainSpec.PlayResultBody`, with the jump rules of `BrainSpec.JumpResult`. |
| BrainSpec.PopFront | Assets/Scripts/StateMachine/PlayerStateMachineBrain.cs:125-134 | Returns null exactly when the queue is empty, and then leaves it unchanged. Otherwise the returned card followed by the remaining queue is the old queue. |
| BrainSpec.PushFront | Assets/Scripts/StateMachine/PlayerStateMachineBrain.cs:195-205 | After a non-null card is pushed, the next pop returns that card and restores the old queue. A null card changes nothing. |
| BrainSpec.PrepareNextActionBody | Assets/Scripts/StateMachine/PlayerStateMachineBrain.cs:217-232 | The current card and the queue are what popping the queue gives. The next state is `FindTileUponAction` exactly when a card was taken, and `WaitingForActions` exactly when the queue was empty. That state's body is started. |
| BrainSpec.FindTileUponActionBody | Assets/Scripts/StateMachine/PlayerStateMachineBrain.cs:234-246 | The distance becomes the card's distance. The target becomes the tile that distance away from the player's tile in its facing direction. The brain moves to `PlayResult`, with the card and queue kept. |
| BrainSpec.JumpResult | Assets/Scripts/StateMachine/PlayerStateMachineBrain.cs:264-294 | A jump is a spring exactly when its distance is above 2. A spring is one tile shorter, aims at the tile in the drawn diagonal direction and lands on that tile's snap position. A normal jump keeps its target and corrects the distance by the drop in elevation. It lands on the target's snap position when the rise is at most the distance, and one unit lower when the rise is more. |
| BrainSpec.PlayResultBody | Assets/Scripts/StateMachine/PlayerStateMachineBrain.cs:248-301 | A turn card turns the player left or right and re-enters `PrepareNextAction` at once. A jump or move starts exactly one motion and waits in `PlayResult` with no coroutine running. A move goes from the player's snap position to the target's full snap position. A jump goes to the landing `JumpResult` gives. |
| BrainSpec.Step | Assets/Scripts/StateMachine/PlayerStateMachineBrain.cs:217-309 | One pass keeps the invariant: the slot runs only the current state's body, and `FindTileUponAction` and `PlayResult` have their card and target. The queue is either unchanged or loses its head. |
| BrainSpec.Complete | Assets/Scripts/StateMachine/PlayerStateMachineBrain.cs:163-184 | The controller's report (reached, or blocked by an obstacle) on a motion in flight keeps the invariant. |
| BrainSpec.Round | Assets/Scripts/StateMachine/PlayerStateMachineBrain.cs:217-301 | One card's round from `PrepareNextAction` works on the head of the queue. It comes back to `PrepareNextAction` with exactly the rest of the queue. |
| BrainSpec.RoundIsThreeSteps | Assets/Scripts/StateMachine/PlayerStateMachineBrain.cs:217-301 | A round is exactly three passes of the running body followed by the controller's report. |
| BrainSpec.RoundEffects | Assets/Scripts/StateMachine/PlayerStateMachineBrain.cs:163-184 | A round does to the player exactly what its card calls for: the card's turn or motion, the stops, and after an obstacle the snap to the tile the controller reports the player on. |
| BrainSpec.Drive | Assets/Scripts/StateMachine/PlayerStateMachineBrain.cs:6-16 | After n rounds the brain is back in `PrepareNextAction` with the first n cards consumed. |
| BrainSpec.DrainQueue | Assets/Scripts/StateMachine/PlayerStateMachineBrain.cs:6-16 | The controller ends every motion, either at its destination or against an obstacle. Then a queue of N cards is consumed in order and the queue is empty. The player sees each card's effects in queue order, and the next pass goes to `WaitingForActions`. |
| BrainSpec.StartedQueueDrains | Assets/Scripts/StateMachine/PlayerStateMachineBrain.cs:211-215 | A list handed to `StartCardActions` is played in full and in order, whatever was queued before, provided no motion started before it is still to report. The brain then waits for the next list. |
| BrainSpec.InjectedCardIsNext | Assets/Scripts/StateMachine/PlayerStateMachineBrain.cs:195-205 | A card added to the front is the card the next `PrepareNextAction` takes. The rest of the queue is as before. |
| Audio.SfxManager.constructor | Assets/Scripts/Audio/SfxManager.cs:15 | The list holds the given ids. |
| Audio.SfxManager.OnValidate | Assets/Scripts/Audio/SfxManager.cs:48-57 | Ends exactly as `Walk` over the old ids and the draws does: `ok` with the walk's ids and leftover draws, or not `ok` when the walk is stuck, with no draws left. On success every entry has an id no other entry holds. An entry keeps its id exactly when no earlier entry had that id, so the first entry with an id keeps it and every later one gets a new id. Any id that changed is in [1000, 10000). A list whose ids are all unique is left untouched, and no draws are used. With draws that are all different, none already in the list and one per entry, it succeeds. |
| Audio.SfxManager.ValidateId | Assets/Scripts/Audio/SfxManager.cs:59-74 | Only the id of the entry at `index` can change. An id no other entry holds is kept, with no draws used. A shared id is replaced by the first draw no other entry holds, and the draws after it are left (`FirstFresh`). The check stops only when no draw is fresh, and then no draws are left. |
| Audio.SfxManager.GenerateId | Assets/Scripts/Audio/SfxManager.cs:76-80 | The entry at `index` ends with the first draw that no other entry holds, and the draws after it are left (`FirstFresh`). So a first draw no other entry holds is taken at once. The call stops only when no draw is fresh, and then no draws are left. No other entry changes. |
| Audio.FirstFresh | Assets/Scripts/Audio/SfxManager.cs:64-80 | The redraw of entry k, that is, the recursion between `ValidateID` and `GenerateID`. When it finds an id, no entry other than k holds that id, and at least one draw was used. |
| Audio.FirstFreshIsFirst | Assets/Scripts/Audio/SfxManager.cs:64-80 | The redraw runs out exactly when no draw is free of the other entries' ids. Otherwise it takes draw n, where n is the first draw no other entry holds, and leaves the draws after it. |
| Audio.FirstFreshIgnoresOwnId | Assets/Scripts/Audio/SfxManager.cs:69 | Which draw is taken depends only on the other entries' ids, not on the entry's own id (the `index != i` test). So writing a draw into the entry and re-validating it looks for the same draw. |
| Audio.FreshDrawTaken | Assets/Scripts/Audio/SfxManager.cs:76-80 | When the draws are all different and none is an id in the list, the first draw is taken, and the rest stay fresh for the entries still to check. |
| Audio.KeepsFirstIdsStep | Assets/Scripts/Audio/SfxManager.cs:53-56 | After entry i is validated, it has kept its id exactly when no earlier entry held that id, and the entries before it are untouched. |
| Audio.Walk | Assets/Scripts/Audio/SfxManager.cs:51-80 | The walk from entry i down to the first, with each shared id redrawn by `FirstFresh`. When it finishes, the list has the same length, no more draws are left than it was given, and the entries after i are untouched. |
| Audio.WalkRedrawsSecondHolder | Assets/Scripts/Audio/SfxManager.cs:51-80 | On the list 5, 5, 7 with the draws 1000, 1001, the walk keeps 7, keeps the first 5 and gives the second 5 the id 1000, leaving the draw 1001. |
| Audio.WalkStep | Assets/Scripts/Audio/SfxManager.cs:53-56 | Once entry i has an id no other entry holds (drawn, or kept when it was already its own), the walk has done entry i too. The entries after i - 1 are unique and hold their first-holder ids. |
| Audio.WalkAdvances | Assets/Scripts/Audio/SfxManager.cs:53-56 | A `ValidateID` call on entry i with the outcome its contract gives is one step of `Walk`: the walk from i equals the walk from i - 1 on the new ids and the draws left, or is stuck when the call failed. |
| Audio.WalkKeeps | Assets/Scripts/Audio/SfxManager.cs:51-57 | When the walk finishes, every entry has its own id, the first holder of each id kept it, and every id is kept or drawn. |
| Audio.WalkLeavesSuffix | Assets/Scripts/Audio/SfxManager.cs:51-80 | The draws the walk leaves are what remains of those it was given, after taking some from the front. |
| Audio.WalkFoundStep | Assets/Scripts/Audio/SfxManager.cs:64-80 | An entry whose id is shared takes the first fresh draw, and the walk goes on to the entry before it with the draws after that one. |
| Audio.WalkNotStuck | Assets/Scripts/Audio/SfxManager.cs:51-80 | With draws that are all different, none already in the list, and one per entry still to check, the walk is not stuck. |
| Audio.WalkOnUnique | Assets/Scripts/Audio/SfxManager.cs:64-74 | A list whose ids are all unique is walked without a change and without a draw. |
| Audio.WalkSound | Assets/Scripts/Audio/SfxManager.cs:48-57 | What the whole walk promises: unique ids, first holders kept, ids kept or drawn, leftover draws a suffix; no change on a unique list; success with fresh draws. |
| Audio.RevalidatedEntryKeepsOthersUnique | Assets/Scripts/Audio/SfxManager.cs:53-56 | Validating entry i keeps unique every later entry that was already unique, so the walk from the last entry to the first keeps what it has done. |
| Audio.SfxManager.FindIndex | Assets/Scripts/Audio/SfxManager.cs:90 | Returns -1 exactly when no entry has the id. Otherwise it returns the first entry with that id. |
| Audio.SfxManager.PlaySfx | Assets/Scripts/Audio/SfxManager.cs:88-94 | For an id in the list, plays the first entry with that id. Once ids are unique, that is the only such entry. |
| Audio.SfxManager.StopSfx | Assets/Scripts/Audio/SfxManager.cs:101-105 | For an id in the list, stops the first entry with that id. |
| Audio.SfxManager.FadeInSfx | Assets/Scripts/Audio/SfxManager.cs:112-120 | For an id in the list, fades in the first entry with that id. |
| Audio.SfxManager.FadeOutSfx | Assets/Scripts/Audio/SfxManager.cs:126-131 | For an id in the list, fades out the first entry with that id. |

## Left out

- Unity's coroutine scheduler: `StartCoroutine`, `StopCoroutine`, `yield return null` and the per-frame re-checks of the `while` guards. Unity runs a newly started coroutine at once up to its first `yield`, so one card's passes run inside each other's calls. The model runs them as separate `Step`s, in the same order and with the same effects.
- `Start`, `FindPlayer`, `GetPlayer`, `GetPlayerController`: event subscription, `TileManager.LoadTileList` and scene lookups. The brain is assumed wired to a player, and to `PlayerController.ReachedDestination`; incoming signals are method calls. `HandleIncomingActions` only forwards to `StartCardActions`.
- TileManager, Tile, PlayerController and Card are not part of this model:
  - their answers are values (`TileManager`, `PlayerView`, `Card`);
  - their actions are entries in `playerEffects`;
  - a missing tile (a null `GetTileAtLocation` result) is not modelled.
- Unity's float positions are integer triples, so the "one unit lower" landing is exact.
- The random spring direction and the random SFX ids are parameters (a pick index, and a finite stream of draws).
- Audio.SfxManager.OnValidate: does not model that the source redraws without end. When an entry finds no fresh draw among those left in the finite stream, `Walk` is stuck, `ok` is false and uniqueness is not promised. The same goes for `ValidateId` and `GenerateId`. Apart from an endless run of unlucky draws, the source's recursion can only run forever in two cases: the other entries already hold every id in [1000, 10000), which takes at least 9000 of them, or one entry object appears twice in the list. The model's entries are distinct, one array slot each.
- `SfxManager` audio: `Awake`, clip choice and playback, volumes, `StartFade`, and the `Update` test key. The Play, Stop and FadeIn/FadeOut methods return which entry they act on. An id that is not in the list makes the source index the list at -1 and fail, so "the id is in the list" is their precondition.
- StateMachine.PlayerStateMachineBrain.SetCardList, StartCardActions, GetNextAction, PrepareNextAction, BrainSpec.PopFront, PrepareNextActionBody: the incoming list and the cards in it are taken to be non-null. In the source, `SetCardList(null)` clears the queue and then throws. A null card inside the list is copied into the queue. When it reaches the head, `GetNextAction` removes it and returns null, and `PrepareNextAction` goes to `WaitingForActions` with the cards behind it still queued.
- BrainSpec.StartedQueueDrains: assumes the only reports are the ones for the new list's motions. `StartCardActions` replaces the brain's coroutine but does not stop a motion the controller already has in flight. If such a motion reports later, it stops the new card's motion and takes the next card. Whether that happens depends on the player controller, which is not part of this model.
- BrainSpec.DrainQueue, Drive: one `CardRun` per card, so every motion reports exactly once. A controller that never reports leaves the brain waiting in `PlayResult`.
- `print` and `Debug.Log` messages.
