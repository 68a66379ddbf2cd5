# Risk-in-Pygame: turn bookkeeping

This project models the turn logic of a single-player Risk game. The logic lives in
`Player` (src/player.py) and in the phase controller `Game.update` (src/game.py).

Each frame, `Game.update` does three things:

1. It runs the player's handler for the current phase:
   - placement: while the left button is held on a controlled territory, one reinforcement on the home territory every 300 ms (the input is level-triggered, so a held button keeps adding units);
   - movement: pick a source and a destination among the controlled territories, step the quantity with UP and DOWN (200 ms cooldown), and move the units on RETURN;
   - attack: pick a source among the controlled territories and an uncontrolled neighbour as the target, and start a battle on RETURN.
2. If the last battle was won from a controlled territory, the player conquers the defender.
3. If the "Finish Phase" button is hovered and clicked after a 500 ms debounce, the phase advances cyclically. Every territory's attack flag is cleared, and the player's turn is reset when the cycle returns to placement.

The model has four modules:

- `Collections` (collections.dfy):
  - `LastMatch` is the value a "last match wins" selection loop leaves behind;
  - `Dedupe` is `list(set(xs))`.
- `Geo` (geo.dfy):
  - the territory record, with the unit count, neighbour names, hover flag, attack flag, owner and colour;
  - the well-formedness of the map;
  - the total number of units, and the lemmas that a transfer conserves it;
  - `World`, the object whose `countries` map every in-place territory update reassigns.
- `Players` (player.dfy):
  - specification functions for one call of each handler: `PlaceStep` (placement), `MoveStep` (movement), and `AttackSelect` followed by the battle (attack), combined into `UpdateStep` for the phase dispatch;
  - `Frontier`, the set `get_neighbors` computes;
  - the lemmas about them;
  - the `Player` class, whose methods perform the same loops in place and are proved equal to those functions.
- `Games` (game.dfy): the `Game` class with the frame update, the conquest and the phase advance.

Python objects that are shared by reference are modelled by name. The player's `self.country` is the name `home`, and every territory access goes through `world.countries`. `Game` passes the player the very entry `world.countries["France"]`, so updating the home territory and updating that map entry are the same thing.

## Model

| member | source | states |
|---|---|---|
| Collections.LastMatch | src/player.py:53-57 | The selected element is in the scanned list and satisfies the test; nothing is selected exactly when no element satisfies it |
| Collections.LastMatchIsLast | src/player.py:53-57 | The selected element sits at an accepted position with no accepted element after it, so the last match wins |
| Collections.Dedupe | src/player.py:131 | `list(set(xs))`: the result has no duplicates and holds exactly the elements of `xs` |
| Geo.World.constructor | src/game.py:28 | The world starts with the loaded map and no battle result |
| Geo.World.Battle | src/player.py:115 | The battle routine sets both unit counts, marks the attacker as having attacked, records `{victory, attacking, defending}`, and logs the call |
| Geo.ApplyBattle | src/player.py:115 | The attacker gets the decided count and its attack flag; the defender gets its count; no other territory changes |
| Geo.Transfer | src/player.py:84-85 | A unit transfer keeps every territory name, neighbour list and key |
| Geo.TransferConservesUnits | src/player.py:84-85 | Moving `n` units from one territory to another leaves the total number of units on the map unchanged |
| Geo.TransferMoves | src/player.py:84-85 | The source loses exactly `n` units and the destination gains exactly `n`, with every other field of both kept; every other territory is untouched |
| Geo.ClearAttacked | src/game.py:81-82 | A territory's flag is cleared exactly when it is named; names, neighbours, keys, unit counts, hover flags, owners and colours stay |
| Geo.SameUnitsTotal | src/game.py:81-82 | Changes that keep every unit count (flag clearing, conquest) keep the total |
| Players.PlaceStep | src/player.py:37-46 | Reference for `place_units`: the map keeps its shape and the timer is either unchanged or `now` |
| Players.MoveSelect | src/player.py:52-68 | Reference for the move selection: a right click clears both; an existing selection is kept otherwise; a new destination is controlled and differs from the source; quantity, buffer and timer untouched |
| Players.ConfirmTransfer | src/player.py:82-91 | Reference for the RETURN transfer: the map changes only when RETURN is pressed with `0 < n < units`; the move is either unchanged or cleared with timer = now |
| Players.MoveConfirm | src/player.py:72-91 | Reference for the confirm block: nothing happens unless both selections are set |
| Players.MoveStep | src/player.py:48-91 | Reference for `move_units`: the map keeps its shape; with a right click only the selections are cleared |
| Players.AttackSelect | src/player.py:94-111 | Reference for the attack selection: a right click clears both; an existing selection is kept otherwise; a new target is not controlled and needs a source |
| Players.UpdateStep | src/player.py:29-35 | Reference for `update(phase)`: the map and move/attack state after the handler of the named phase; the map keeps its shape |
| Players.UpdateStepRules | src/player.py:29-121 | Every handler keeps the map well formed and the player consistent; placement adds one unit exactly when it fires, movement conserves the total, a handler leaves the other phases' selections alone (placement touches only the shared timer), an unknown phase changes nothing |
| Players.Frontier | src/player.py:123-131 | Reference for `get_neighbors`: the set of neighbours of controlled territories; no member is controlled |
| Players.PlaceAddsAtMostOne | src/player.py:37-46 | A placement call adds exactly one unit, to the home territory, when some controlled territory is hovered and clicked after the 300 ms cooldown, and otherwise changes nothing; the total grows by the same amount; the timer becomes `now` exactly when placement fires and is unchanged otherwise |
| Players.StepQuantity | src/player.py:76-80 | The quantity moves by at most one: after the 200 ms cooldown it goes up by one for UP alone and down by one for DOWN alone, and otherwise (before the cooldown, both keys or neither) it stays. A change of buffer or timer only happens together, with buffer = quantity and timer = now; when the quantity ends equal to the old buffer, buffer and timer are left as they were |
| Players.MoveSelectionRules | src/player.py:52-68 | A new move source is a hovered, clicked territory that has not attacked; a new destination is a hovered, clicked controlled territory other than the source, chosen only once a source exists; a right click clears both; the quantity, buffer and timer are untouched |
| Players.ConfirmTransferRules | src/player.py:82-91 | RETURN with `0 < n < units` of the source moves `n` units (the source keeps at least one), leaves other territories alone, conserves the total and clears the move with timer = now; otherwise nothing changes |
| Players.MoveConservesUnits | src/player.py:48-91 | A whole move call conserves the total units, keeps the map's shape, never empties a territory it takes units from, and keeps the selection invariant |
| Players.MoveKeepsInvariants | src/player.py:48-91 | A move call keeps the map well formed and the player's selections consistent with it |
| Players.AttackSelectionRules | src/player.py:94-111 | A new attack source is a hovered, clicked, controlled territory that has not attacked; a new target is a hovered, clicked neighbour of the source that is not controlled, chosen only once a source exists; a right click clears both |
| Players.ReachStep | src/player.py:126-129 | Scanning one more controlled territory adds exactly its neighbours outside the controlled list |
| Players.FrontierOfSameNames | src/player.py:137-138 | The frontier depends only on the set of controlled names, so deduplicating the list afterwards does not change it |
| Players.Player.constructor | src/player.py:7-27 | The player controls only its home territory, paints it in its colour, has no frontier yet and no selections, and starts its timer at `now` |
| Players.Player.Update | src/player.py:29-35 | The map and the whole move and attack state (selections, quantity, buffer, timer) become `UpdateStep` of the old ones; in the attack phase the battle result and log follow the selection; in other phases the result and log are unchanged |
| Players.Player.PlaceUnits | src/player.py:37-46 | The loop's effect on the map and timer equals `PlaceStep` |
| Players.Player.PickSource | src/player.py:53-57 | The loop leaves the last controlled territory that is hovered, clicked and has not attacked, or "" |
| Players.Player.PickDestination | src/player.py:60-64 | The loop leaves the last hovered, clicked controlled territory other than the source, or "" |
| Players.Player.PickTarget | src/player.py:102-107 | The loop leaves the last hovered, clicked neighbour of the source that is not controlled, or "" |
| Players.Player.SelectMove | src/player.py:52-68 | The move selection becomes `MoveSelect` of the old state, and the player stays consistent |
| Players.Player.StepMoveCount | src/player.py:76-80 | The quantity, buffer and timer become `StepQuantity` of the old state |
| Players.Player.TransferOnEnter | src/player.py:82-91 | The map and move state become `ConfirmTransfer` of the old ones |
| Players.Player.ConfirmMove | src/player.py:72-91 | The quantity step and transfer happen only with both selections set, and equal `MoveConfirm` |
| Players.Player.MoveUnits | src/player.py:48-91 | A whole move call equals `MoveStep` and keeps the player consistent |
| Players.Player.SelectAttack | src/player.py:94-111 | The attack selection becomes `AttackSelect` of the old state |
| Players.Player.AttackCountry | src/player.py:93-121 | A battle is started exactly when RETURN is pressed with both selections set; the selections are then cleared and the battle is logged; otherwise the map, the result and the log are unchanged |
| Players.Player.GetNeighbors | src/player.py:123-131 | The result has no duplicates and holds exactly the uncontrolled neighbours of controlled territories |
| Players.Player.Conquer | src/player.py:133-138 | The territory takes the player's name and colour; the controlled names gain it (once, with no duplicates); conquering an already controlled territory leaves the set unchanged; the stored frontier is exactly the new frontier |
| Players.Player.ResetTurn | src/player.py:140-150 | The timer is zeroed, all selections are cleared, and every controlled territory's attack flag is cleared, with nothing else changed |
| Games.InvariantsSameShape | src/game.py:81-82 | A map change that keeps names, neighbours and keys keeps the world and player invariants |
| Games.Game.constructor | src/game.py:28-36 | The game starts in placement with the phase timer at `now`; the player holds "France", painted blue |
| Games.Game.Update | src/game.py:61-84 | The handler of the pre-advance phase runs first. The new map is exactly `UpdateStep`'s map with a due conquest repainting the defender (`Conquest`), and with every attack flag then cleared when the phase advances. The phase advances (index + 1 modulo 3, timer = now) exactly when the button is hovered and clicked after 500 ms. The player's selections are those of `UpdateStep`, reset only when the advance returns to placement. The battle slot holds the selected source and target with the given victory exactly when the attack phase fires a battle, and is otherwise unchanged; at most one battle per frame, only in the attack phase. Whether a conquest is due is decided on the controlled list as it was before the conquest, as src/game.py:69 tests it. The controlled names are the old ones plus, when a conquest is due, the defender (`GrownBy`). After a conquest the neighbour list is duplicate-free and names exactly the frontier of the new map; otherwise it is unchanged |
| Games.Game.PlayerFrame | src/game.py:64-70 | The map is `Conquest` of `UpdateStep`'s map and the selections are `UpdateStep`'s; the battle slot is set to the selected source and target with the given victory exactly when the attack phase fires a battle; battles only in the attack phase; the controlled names grow by exactly the defender of a conquest due on the list before the frame; the neighbour list is the new frontier after a conquest and unchanged otherwise |
| Games.Game.ApplyConquest | src/game.py:67-70 | When a result is pending, was won and came from a controlled territory, exactly the defender is added and painted, and the neighbour list becomes the duplicate-free frontier of the new controlled set; otherwise nothing changes |
| Games.Conquest | src/game.py:67-70 | A due conquest hands the defender to the player, in the player's colour, and changes nothing else about it; when no conquest is due, or for any other territory, the map is untouched; names, neighbours, unit counts, hover and attack flags always stay |
| Games.RepeatedConquest | src/game.py:67-70 | A result left pending is applied again on the next frame but adds nothing more; a result that is not a conquest adds nothing |
| Games.Game.ClearAttackFlags | src/game.py:81-82 | Every territory's attack flag is cleared and nothing else changes |
| Games.Game.AdvancePhase | src/game.py:76-84 | The debounced advance happens exactly when hovered, clicked and past 500 ms: index + 1 modulo 3, timer = now, the map with every attack flag cleared, and the selections reset only on return to placement. Otherwise phase, map and selections stay. The battle slot, controlled names, neighbour list and frontier never change |
| Games.Game.NextPhase | src/game.py:78-84 | Next index modulo 3 and timer = now; every attack flag is cleared; the player's turn is reset only when the new phase is placement |
| Games.Game.PhaseSuccession | src/game.py:30 | The phases cycle placement → movement → attack → placement |
| Games.FrameUnits | src/game.py:61-84 | Over a whole frame a movement phase conserves the units on the map and a placement phase adds one exactly when placement fires, for any map with the handler's unit counts, which `Conquest` and the flag clearing keep |

## Left out

- Battle outcome: the battle routine `world.battle` and its dice are not part of this model. Each frame's `BattleEffect` parameter decides the new unit counts and the victory. The model assumes the routine records the selected source and target as the result's attacking and defending territories, and changes nothing but those two territories' unit counts and the attacker's has-attacked flag (`Geo.ApplyBattle`). The `World` class of src/geo.py:15-26 declares no `battle_res`, so src/game.py:67 reads a field set by code that is not part of this model; `Geo.World.constructor` assumes that it starts empty.
- `world.update`: this routine sets the hover flags and is not part of this model. The map's `hovered` flags are taken as they are.
- Finish button: the `collidepoint` hit test on the button becomes the boolean `overFinish`.
- Input and clock: the mouse buttons, the UP, DOWN and RETURN keys and `pg.time.get_ticks()` are parameters of each frame (`Input`). `Game.update` and the player's handler read the clock separately; the model gives both the same `now`.
- Territory fields: the `Country` class in src/geo.py holds only `name` and `coords`. The other fields the core reads and writes (`units`, `neighbors`, `hovered`, `has_attacked`, `controlled_by`, `color`) come from code that is not part of this model. Their initial values are whatever the map parameter holds.
- Map shape: `Geo.World.constructor` and `Games.Game.constructor` require a well-formed map: every territory is stored under its own name, every neighbour name is a territory, and no territory is called "". The source checks none of this. A map that breaks it would raise `KeyError` in the lookups of src/player.py:54, 73 and 104 and src/game.py:70, or, through the `.get` of src/player.py:42 returning `None`, an `AttributeError`; the model does not represent either crash.
- Map loading: JSON loading and the floating-point projection of coordinates are left out. `Games.Game.constructor` takes the map as a parameter and requires it to contain "France", which the source reads with `.get` and would otherwise crash on.
- Drawing: the UI and drawing code are left out. Colours are opaque tags.
- Players.Player.Conquer: `list(set(...))` leaves the list order unspecified. The model picks the order nondeterministically, so contracts state the membership and the absence of duplicates but no order.
- Players.Player.constructor: the `has_attacked` field of the player is initialised but never read by the core. It is kept as a field and has no effect.
- Win result: the victory branch of `attack_country` reads a territory and discards it, so it has no effect and is not modelled.
- Battle result lifetime: the battle result is never cleared. The conquest is therefore re-applied on every later frame; `Games.RepeatedConquest` shows that this leaves the controlled set unchanged.
