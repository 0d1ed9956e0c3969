# Hexoshi game logic in Dafny

Hexoshi is a side-scrolling exploration game, a single Python script
(`hexoshi.py`) built on the SGE engine. The engine draws sprites, runs the
physics and delivers input events. Most of the script's game logic, though, is
plain bookkeeping over integers, strings, lists and dictionaries, and that
part is modelled and proved here:

- the player's health and energy tanks (`Player.hp`, `refresh`, `Etank.collect`);
- rebinding controls in the keyboard and joystick menus (`toggle_key`, `toggle_js`);
- skipping a level's timeline (`Level.timeline_skipto`);
- the warp-pad registry and the teleport dialog;
- destination strings of doors and warps (`"level:spawn"`);
- map regions, exploration and map disks;
- the progress globals, saving and loading;
- a handful of small object rules: aim direction, the `TYPES` class table with
  its decoration fallback, path parameter sentinels, crowd turn-around, and the
  overlap test of weak stones.

`get_object` and `TYPES` in `hexoshi.py` consume the `cls` names of the
tilesets in `data/tilesets/`; lemmas state which class each listed tile name
becomes.

Modules follow the script's structure:

| module | file | what it holds |
|---|---|---|
| `Lists` | lists.dfy | the Python list idioms the script uses: `index`, `remove`, the `pop(0)` trim, the copy-and-append of a new element |
| `Rules` | rules.dfy | aim direction, `TYPES`/`get_object`, path sentinels, crowd turning, stone/fake-tile overlap |
| `Energy` | energy.dfy | the `hp` setter as functions, and the `Player` class with the `hp`, tank, aim and last-cell fields it updates |
| `Controls` | controls.dfy | `toggle_key`/`toggle_js` as functions on a page of 13 bindings, and a `Bindings` class editing the page in place |
| `Timeline` | timeline.dfy | `timeline_skipto` and the `Level` class |
| `Destinations` | destinations.dfy | `split(':', 1)`, `warp`, `Door.__init__`, the door links of `generate_map` |
| `Regions` | regions.dfy | `get_xregion`/`get_yregion` and the bounds of `draw_map` |
| `Teleport` | teleport.dfy | the teleport dialog's left/right cycling and `WarpPad.teleport` |
| `Progress` | progress.dfy | the progress globals and save slots (`GameState`), warp pads, exploration, power-ups, map disks |

State the script changes step by step is modelled by classes. The methods of
`Player`, `Bindings`, `Level` and `GameState` carry `modifies` clauses, and
their postconditions tie the new state to specification functions. A
`WarpPad` is an object with an `activated` field, which `GameState`'s
methods set.
The lemmas about those functions are where the game's promises are stated.
Python's integer semantics are written out where they matter: `int(x / 400)`
truncates toward zero, and `%` is defined through floor division. Timeline
steps are reals, as the script's float steps are.

## Model

| member | source | states |
|---|---|---|
| Lists.IndexOf | hexoshi.py:4001-4002 | `list.index` returns a position holding the element, with no earlier occurrence |
| Lists.IndexOfDistinct | hexoshi.py:4001-4002 | in a list without duplicates, `index` of the `j`-th element is `j` |
| Lists.RemoveFirst | hexoshi.py:3541 | `list.remove` of an element the list holds; its meaning is stated by the four lemmas below |
| Lists.RemoveFirstAt | hexoshi.py:3541 | `list.remove` cuts exactly the element at the first occurrence and shortens the list by one |
| Lists.RemoveFirstMultiset | hexoshi.py:3554 | `list.remove` takes away one copy of the element and nothing else |
| Lists.RemoveFirstAbsent | hexoshi.py:3552-3554 | removing an element the list lacks leaves it unchanged (the script only calls `remove` after an `in` test) |
| Lists.RemoveFirstGone | hexoshi.py:3554 | in a duplicate-free list, `remove` leaves no occurrence behind |
| Lists.Newest | hexoshi.py:3560-3561 | the `pop(0)` trim keeps exactly `min(len, n)` entries, and they are the newest of the list, which a short list keeps whole |
| Lists.NewestPushed | hexoshi.py:3559-3561 | after an append and the trim to two, the new entry is last, preceded by the previous last entry |
| Lists.AppendNew | hexoshi.py:2861-2863 | the copy-and-append of a new element: the element is then present, a recorded element changes nothing, the old list is a prefix, at most one entry is added, and no duplicate is introduced |
| Lists.AppendNewIdempotent | hexoshi.py:2861-2863 | appending an element already recorded a second time changes nothing |
| Rules.VControl | hexoshi.py:1196 | the vertical control is -1, 0 or 1, and 0 exactly when up and down agree |
| Rules.AimDirection | hexoshi.py:1201-1217 | the chosen direction is between -2 and 2 when there is one |
| Rules.AimChoices | hexoshi.py:1201-1217 | the aim buttons override the direction buttons; up/down aim straight or diagonally; forward only when shooting with no direction held |
| Rules.AimNoneIff | hexoshi.py:1201-1217 | the player does not aim exactly when not shooting, no aim button is held and up/down cancel out |
| Rules.AimStep | hexoshi.py:1199-1222 | the frame counter restarts at 0 exactly when the direction changes and otherwise grows by one |
| Rules.AimStepsCount | hexoshi.py:1219-1222 | holding the same buttons for `k` more frames adds `k` to the counter |
| Rules.TypeOf | hexoshi.py:4090-4092 | `TYPES.get(cls, Decoration)` over the 52 names of `TYPES` (hexoshi.py:4737-4760); `TypeOfFallback` and the fixture lemmas state what it returns |
| Rules.TypeOfFallback | hexoshi.py:4090-4092 | `get_object` builds a decoration exactly when no class is given or the name is missing from `TYPES` |
| Rules.LayerClasses | hexoshi.py:4751-4752 | the `enemies` and `doors` layer names map back to `get_object` |
| Rules.EnemyClasses | data/tilesets/enemies.tsx:5-11 | the enemies tileset's `bat` and `frog` tiles have their own classes |
| Rules.TankClasses | data/tilesets/powerups.tsx:5-11 | the power-ups tileset's `etank` and `life_orb` tiles have their own classes |
| Rules.MapClasses | data/tilesets/powerups.tsx:17-23 | so do its `map` and `map_disk` tiles |
| Rules.DoorFrameClasses | data/tilesets/doors.tsx:5-11 | the doors tileset's two door frames have their own classes |
| Rules.SideDoorClasses | data/tilesets/doors.tsx:17-23 | so do its left and right doors |
| Rules.EndDoorClasses | data/tilesets/doors.tsx:29-35 | so do its up and down doors |
| Rules.WormTile | data/tilesets/enemies.tsx:17 | the `worm` tile is not in `TYPES` and becomes a decoration |
| Rules.MantanoidTile | data/tilesets/enemies.tsx:23 | so does `mantanoid` |
| Rules.ScorpionTile | data/tilesets/enemies.tsx:29 | so does `scorpion` |
| Rules.HedgehogTile | data/tilesets/enemies.tsx:35 | so does `hedgehog` |
| Rules.AtomicCompressorTile | data/tilesets/powerups.tsx:29 | so does `atomic_compressor` |
| Rules.MonkeyBootsTile | data/tilesets/powerups.tsx:35 | so does `monkey_boots` |
| Rules.HedgehogHormoneTile | data/tilesets/powerups.tsx:41 | so does `hedgehog_hormone` |
| Rules.Unsentinel | hexoshi.py:3114-3118 | `v if v != -1 else None`: the result is never the `-1` sentinel, and any other value, or none, is kept |
| Rules.PathParam | hexoshi.py:3108-3118 | the class default for a missing parameter, then `-1` read as none; `PathParamFacts` states its meaning |
| Rules.PathParamFacts | hexoshi.py:3108-3118 | a path parameter is never the `-1` sentinel; another given value is kept; a missing one takes the class default; normalising twice changes nothing |
| Rules.CrowdTurn | hexoshi.py:2117-2129 | the direction `set_direction` receives on meeting a crowd-blocking object; `CrowdTurnApart` and `CrowdTurnBack` state its meaning |
| Rules.CrowdTurnApart | hexoshi.py:2121-2129 | without a sideways bump, two distinct crowd objects always head in opposite directions, each away from the other |
| Rules.CrowdTurnBack | hexoshi.py:2119-2120 | a sideways bump reverses the walking direction, and a second bump restores it |
| Rules.Overlaps | hexoshi.py:2628-2632 | the strict four-edge test of `Stone.event_create`; `OverlapsMeaning` states its meaning |
| Rules.FakesAmong | hexoshi.py:2624-2633 | the fake tiles collected, in order; `FakesAmongMembers` states which |
| Rules.OverlapsMeaning | hexoshi.py:2628-2632 | the overlap test is symmetric and, for boxes of positive size, means an intersection of positive area; boxes that only touch do not overlap |
| Rules.FakesAmongMembers | hexoshi.py:2624-2633 | a box is collected exactly when some nearby fake tile has it and it overlaps the stone |
| Rules.CollectFakes | hexoshi.py:2622-2633 | the loop of `Stone.event_create` collects exactly the overlapping fake tiles, in order |
| Energy.Refill | hexoshi.py:920-922 | the first loop of the `hp` setter; `RefillFacts` states its meaning |
| Energy.Spend | hexoshi.py:924-926 | the second loop of the `hp` setter; `SpendFacts` states its meaning |
| Energy.Settle | hexoshi.py:916-928 | the health and used-tank count the setter leaves; `SettleBounds`, `SettleConserves` and `SettleLosesOnlyOverflow` state its meaning |
| Energy.RefillFacts | hexoshi.py:920-922 | the refill loop keeps the total energy, only gives tanks back, and stops when the bar fits or no tank is in use |
| Energy.SpendFacts | hexoshi.py:924-926 | the spend loop keeps the total energy, uses no more tanks than were collected, and stops when the health is positive or every tank is used |
| Energy.SettleBounds | hexoshi.py:916-928 | after any assignment, `hp <= max_hp` and `etanks_used <= etanks`, and `hp <= 0` only once every tank is spent |
| Energy.SettleConserves | hexoshi.py:918-928 | the two loops conserve `hp + (etanks - etanks_used) * max_hp`; only the final `min` can lose energy, and only when the bar is full |
| Energy.SettleLosesOnlyOverflow | hexoshi.py:928 | energy is lost only when the value exceeded a full bar with no tank in use, which leaves a full bar and no tank in use |
| Energy.SettleFull | hexoshi.py:1093 | assigning a full bar leaves the tanks alone |
| Energy.Player.constructor | hexoshi.py:976-985 | a new player has a full bar, no tank in use, no aim and no last map cell |
| Energy.Player.BeginStepAim | hexoshi.py:1192-1222 | the aim direction and its counter become `AimStep` of the previous ones; health and map cell are untouched |
| Energy.Player.SetHp | hexoshi.py:916-928 | the setter's loops leave exactly `Settle(value, etanks_used, etanks)`, within the bounds above |
| Energy.Player.Refresh | hexoshi.py:1092-1095 | a full bar and no tank in use |
| Controls.StripShared | hexoshi.py:3544-3556 | the keyboard side pass keeps all 13 bindings |
| Controls.StripAll | hexoshi.py:3733-3742 | the joystick side pass keeps all 13 bindings |
| Controls.ToggleKey | hexoshi.py:3538-3561 | `toggle_key` keeps all 13 bindings |
| Controls.ToggleJs | hexoshi.py:3729-3746 | `toggle_js` keeps all 13 bindings |
| Controls.ToggleKeyPresent | hexoshi.py:3539-3541 | a key the binding has is removed only if another key remains; a one-key binding stays as it is; other bindings are untouched |
| Controls.ToggleKeyRefused | hexoshi.py:3542-3558 | a key that is another binding's only key is refused: the pressed binding does not gain it |
| Controls.ToggleKeyAdded | hexoshi.py:3558-3561 | otherwise the key is appended last and the binding keeps its newest two keys |
| Controls.ToggleKeyOthers | hexoshi.py:3544-3556 | adding a key, refused or not, takes it from every other binding with a second key and leaves the others alone |
| Controls.ToggleKeyKeepsBound | hexoshi.py:3538-3561 | the keyboard menu never leaves a binding without keys |
| Controls.ToggleJsPresent | hexoshi.py:3730-3731 | an event the binding has is removed, even when it is the only one |
| Controls.ToggleJsAbsent | hexoshi.py:3732-3746 | an event the binding lacks is taken from every other binding and appended last; the binding keeps its newest two |
| Controls.ToggleJsMayEmpty | hexoshi.py:3741-3742 | the joystick menu can empty another binding |
| Controls.DropOldest | hexoshi.py:3560-3561 | the `pop(0)` loop leaves `Newest(s, n)` |
| Controls.Bindings.constructor | hexoshi.py:202-227 | a page starts with the 13 given bindings |
| Controls.Bindings.ToggleKeyAt | hexoshi.py:3538-3561 | the in-place edit leaves the page `ToggleKey` describes |
| Controls.Bindings.ToggleJsAt | hexoshi.py:3729-3746 | the in-place edit leaves the page `ToggleJs` describes |
| Timeline.LeastOf | hexoshi.py:370 | a non-empty set of steps has a least element (what `sorted` puts first) |
| Timeline.SortedKeys | hexoshi.py:370 | `sorted(keys)` is strictly ascending and holds exactly the keys |
| Timeline.Skipped | hexoshi.py:369-374 | the timeline once every step before the target is emptied; `SkippedShape` and `SkippedTwice` state its meaning, `SkipSorted` ties the loop to it |
| Timeline.SkippedShape | hexoshi.py:369-374 | skipping keeps the keys, empties the steps before the target and keeps the rest |
| Timeline.SkippedTwice | hexoshi.py:369-374 | two skips in a row are one skip to the later target |
| Timeline.SkipDone | hexoshi.py:372-374 | when the pop loop stops, the timeline is the skipped one |
| Timeline.SkipSorted | hexoshi.py:370-374 | the pop loop over the sorted keys leaves `Skipped(timeline, step)` |
| Timeline.Level.constructor | hexoshi.py:352-355 | a level starts at step 0.0 with its timeline and skip target |
| Timeline.Level.SkipTo | hexoshi.py:369-374 | `timeline_step` becomes the target and the timeline becomes the skipped one |
| Timeline.Level.SkipPending | hexoshi.py:405-408 | pausing (and dismissing a message dialog, hexoshi.py:4081-4087) skips exactly when a target is set and not yet reached |
| Destinations.SplitDest | hexoshi.py:3005-3006 | `split(':', 1)` yields a level part without a colon that, joined back with the rest, is the destination |
| Destinations.SplitJoined | hexoshi.py:4126-4127 | a colon-free level joined to any spawn id splits back into the two |
| Destinations.JoinDest | hexoshi.py:2887 | the `"{}:{}"` destination of a teleport; `SplitJoined` and `WarpJoined` state that it splits back |
| Destinations.Warp | hexoshi.py:4123-4135 | a bare destination spawns at the current room's name; the current room is reused exactly when the level part is empty |
| Destinations.WarpJoined | hexoshi.py:2887 | a teleport's `"level:spawn"` arrives at that spawn point, in that level or (for an empty level name) the current room, exactly when the level name has no colon |
| Destinations.DoorSpawnId | hexoshi.py:3001-3010 | a door keeps a given non-empty spawn id; otherwise, for a colon destination, it takes the part before the first colon when that is not empty, and for a colon-free destination the whole destination |
| Destinations.DoorJoined | hexoshi.py:3004-3008 | a door to `"level:spawn"` without its own spawn id, or with an empty one, takes `level` as its spawn id |
| Destinations.BareDoorsPair | hexoshi.py:3004-3010 | a door from `a` to a bare `b` arrives at spawn point `a`, the spawn id of `b`'s door back to `a` |
| Destinations.MapLink | hexoshi.py:4497-4501 | the map generator's split reassembles to the destination |
| Destinations.MapLinkAgreesWithWarp | hexoshi.py:4497-4501 | the map generator links a door to the spawn point and level `warp` really arrives at |
| Regions.TruncDiv | hexoshi.py:4116 | `int(x / d)` under true division: for `x >= 0` the result is the largest `r >= 0` with `d * r <= x`, for `x < 0` the smallest `r <= 0` with `x <= d * r` (truncation toward zero) |
| Regions.XRegion | hexoshi.py:4115-4116 | `int(x / 400)`; `RegionBounds` and `XRegionCells` state its meaning |
| Regions.YRegion | hexoshi.py:4119-4120 | `int(y / 224)`; `RegionBounds` and `YRegionCells` state its meaning |
| Regions.RoomOrigin | hexoshi.py:1322 | `map_rooms.get(fname, (0, 0))`: a room's origin cell, `(0, 0)` for a room missing from the map (also at hexoshi.py:2677 and 2857) |
| Regions.CellAt | hexoshi.py:1322-1324 | the map cell of a position: the room's origin plus the position's regions (also at hexoshi.py:2677-2678 and 2857-2859); `CellAtBounds` states its meaning |
| Regions.RegionBounds | hexoshi.py:4115-4120 | `int(x / 400)` and `int(y / 224)` truncate toward zero |
| Regions.XRegionCells | hexoshi.py:4115-4116 | column 0 spans -400 < x < 400; every other column is exactly one screen wide |
| Regions.YRegionCells | hexoshi.py:4119-4120 | row 0 spans -224 < y < 224; every other row is exactly one screen high |
| Regions.CellAtBounds | hexoshi.py:1322-1324 | a position in a room lies in the screen-sized cell its map cell names |
| Regions.BoundsCover | hexoshi.py:4657-4666 | the bounds include (0, 0) and every cell, and each edge is 0 or some cell's coordinate |
| Regions.MinX | hexoshi.py:4662 | `left = min(left, rx)` over the cells, from 0; `BoundsCover` states its meaning |
| Regions.MaxX | hexoshi.py:4663 | `right = max(right, rx)` over the cells, from 0; `BoundsCover` states its meaning |
| Regions.MinY | hexoshi.py:4664 | `top = min(top, ry)` over the cells, from 0; `BoundsCover` states its meaning |
| Regions.MaxY | hexoshi.py:4665 | `bottom = max(bottom, ry)` over the cells, from 0; `BoundsCover` states its meaning |
| Regions.MapWindow | hexoshi.py:4656-4675 | each given window argument is used as it is and each missing one is filled from the bounds (`w` and `h` from the right and bottom edges); the default window covers every revealed or explored cell |
| Teleport.FloorDiv | hexoshi.py:4006 | Python's `a // n` behind `%`: the quotient `q` with `n * q <= a < n * q + n`, rounding down for negative `a` |
| Teleport.PyMod | hexoshi.py:4006 | Python's `a % n`, through floor division; the three lemmas below state its meaning |
| Teleport.PyModRange | hexoshi.py:4006 | Python's `%` by a positive count lies in `[0, n)` |
| Teleport.PyModAgrees | hexoshi.py:4006 | Python's `%` by a positive count is Dafny's Euclidean `%`, and leaves a position inside the list alone |
| Teleport.PyModWraps | hexoshi.py:4006 | `n % n` is 0 and `-1 % n` is `n - 1`: the two wrap-arounds of the dialog |
| Teleport.PressRight | hexoshi.py:4009-4018 | the next pad, wrapping to the first; an unknown selection goes to the first; `None` exactly when there are no pads |
| Teleport.PressLeft | hexoshi.py:3998-4007 | the previous pad, wrapping to the last; an unknown selection goes to the last; `None` exactly when there are no pads |
| Teleport.LeftUndoesRight | hexoshi.py:3998-4018 | with no pad recorded twice, left undoes right and right undoes left |
| Teleport.RightTimes | hexoshi.py:4009-4018 | the selection after `k` presses right; the four lemmas below state its meaning |
| Teleport.RightTimesAdd | hexoshi.py:4009-4018 | pressing right `a` times then `b` times is pressing it `a + b` times |
| Teleport.RightTimesAdvance | hexoshi.py:4009-4018 | without wrapping, `k` presses from pad `j` reach pad `j + k` |
| Teleport.RightWraps | hexoshi.py:4017 | one press right from the last pad reaches the first |
| Teleport.RightTimesAround | hexoshi.py:4009-4018 | pads before the selection are reached by wrapping past the last |
| Teleport.RightReachesAll | hexoshi.py:4009-4018 | every pad is reached from every other in fewer presses than there are pads |
| Teleport.TeleportDest | hexoshi.py:2884-2887 | the player is sent away exactly when the dialog was not cancelled (escape leaves no selection, hexoshi.py:4029-4031) and another pad was selected |
| Teleport.TeleportArrives | hexoshi.py:2877-2887 | a teleport arrives at the chosen pad's room and spawn point |
| Progress.NewGame | hexoshi.py:4369-4379 | the values `set_new_game` assigns |
| Progress.Saved | hexoshi.py:4413-4424 | the dictionary `save_game` stores; `LoadSaved` and `SavedInjective` state its meaning |
| Progress.Get | hexoshi.py:4446-4455 | `slot.get(key, default)`: the stored value when the key is present, the default otherwise; `LoadSaved` and `LoadBlankDictionary` state how `Loaded` uses it |
| Progress.Loaded | hexoshi.py:4442-4457 | the progress `load_game` restores, with a default for each missing key; `LoadSaved`, `LoadEmpty` and `LoadBlankDictionary` state its meaning |
| Progress.LoadSaved | hexoshi.py:4409-4457 | loading what `save_game` stored restores every progress global |
| Progress.SavedInjective | hexoshi.py:4412-4424 | different progress is never saved as the same dictionary |
| Progress.LoadEmpty | hexoshi.py:4442-4457 | loading an empty slot is `set_new_game` |
| Progress.LoadBlankDictionary | hexoshi.py:4444-4455 | a dictionary without keys loads as a new game, except that the spawn point stays `None` |
| Progress.Visit | hexoshi.py:2770-2773 | the cell test and append of the map-disk loop; `VisitFacts` states its meaning |
| Progress.RevealLine | hexoshi.py:2769-2773 | the inner loop over one row of a room; `RevealLineFacts` states its meaning, `RevealRow` ties the loop to it |
| Progress.RevealBlock | hexoshi.py:2768-2773 | the nested loop over one room; `RevealBlockFacts` states its meaning, `RevealArea` ties the loop to it |
| Progress.RevealRooms | hexoshi.py:2751-2773 | the loop over a disk's rooms; `RevealRoomsKeeps`, `RevealRoomsFacts`, `RevealRoomsOnly` and `RevealRoomsNoDup` state its meaning |
| Progress.VisitFacts | hexoshi.py:2770-2773 | visiting a cell keeps the revealed list as a prefix and adds the cell once unless it is ignored |
| Progress.RevealLineFacts | hexoshi.py:2769-2773 | one line reveals every cell of the line that is not ignored, nothing else, and no cell twice |
| Progress.RevealBlockFacts | hexoshi.py:2768-2773 | one room's block reveals every cell that is not ignored, nothing else, and no cell twice |
| Progress.RevealRoomsKeeps | hexoshi.py:2751-2773 | a map disk keeps the cells already revealed, in order, at the head of the list |
| Progress.RevealRoomsFacts | hexoshi.py:2751-2773 | a map disk reveals every cell of each of its rooms that the room does not ignore |
| Progress.RevealRoomsOnly | hexoshi.py:2751-2773 | a map disk adds only such cells |
| Progress.RevealRoomsNoDup | hexoshi.py:2751-2773 | a map disk never records a cell twice |
| Progress.RevealRow | hexoshi.py:2769-2773 | the inner loop leaves `RevealLine` |
| Progress.RevealArea | hexoshi.py:2768-2773 | the nested loop leaves `RevealBlock` |
| Progress.WarpPad.constructor | hexoshi.py:2839-2846 | a new warp pad is not activated |
| Progress.WarpPad.Id | hexoshi.py:2857-2860 | the tuple a pad is recorded as: its room, spawn id and map cell |
| Progress.GameState.constructor | hexoshi.py:228-243 | the script starts with ten empty slots, no slot chosen and new-game progress with no spawn point |
| Progress.GameState.ChooseSlot | hexoshi.py:3354-3356 | a menu choice among the slots, and only such a choice, becomes the current slot |
| Progress.GameState.Restore | hexoshi.py:4444-4455 | every progress global takes the given value; the slots are untouched |
| Progress.GameState.SetNewGame | hexoshi.py:4356-4379 | the progress becomes `NewGame()` |
| Progress.GameState.SaveGame | hexoshi.py:4409-4424 | the current slot, if any, receives the saved dictionary; the progress is untouched |
| Progress.GameState.LoadGame | hexoshi.py:4429-4457 | the progress becomes the current slot's, with defaults for missing keys, or a new game |
| Progress.GameState.ActivateWarpPad | hexoshi.py:2848-2864 | the pad becomes the start point and is recorded once with its map cell, and the game is saved |
| Progress.GameState.TouchWarpPad | hexoshi.py:2906-2917 | a pad is activated exactly when it was off and was touched; then the player is refreshed, "warp" is flagged once, and the slot holds the progress as saved before the flag; every other global, and the player's aim and last cell, stay; with no activation nothing changes |
| Progress.GameState.ExploreStep | hexoshi.py:1322-1335 | on entering a new cell it is recorded once as explored and revealed; then it becomes the last cell; the other globals, the slots and the player's health and aim stay |
| Progress.GameState.IsCollected | hexoshi.py:2691-2695 | a power-up is destroyed on creation exactly when it is among the collected ones; `RecordPowerup` and `TouchPowerup` ensure it holds afterwards |
| Progress.GameState.RecordPowerup | hexoshi.py:2666-2680 | the power-up is recorded as collected, and a "powerup" mark at its map cell is removed |
| Progress.GameState.CollectEtank | hexoshi.py:2702-2705 | one more tank, and the player refreshed; the player's aim and last cell and the other globals stay |
| Progress.GameState.AddFlag | hexoshi.py:2716-2719 | a progress flag is appended |
| Progress.GameState.RevealRoom | hexoshi.py:2768-2773 | `map_revealed` becomes `RevealBlock` of the room |
| Progress.GameState.CollectMapDisk | hexoshi.py:2748-2773 | `map_revealed` becomes `RevealRooms` of the disk's rooms, which keeps the old list as its prefix |
| Progress.GameState.TouchPowerup | hexoshi.py:2666-2682 | every power-up is recorded and its map mark removed; tanks, life orbs, maps and map disks add their own effects; every other global, the slots and the player's aim and last cell stay, and only a tank touches the player's health |
| Progress.SaveThenLoad | hexoshi.py:4409-4457 | saving then loading restores the progress when a slot is chosen, and starts a new game otherwise |

## Left out

- Rendering, sprites, sounds, the HUD and the health bar width (hexoshi.py:930-932): engine calls whose effect is not visible in the script.
- Physics, movement and camera code, and every floating-point position: positions are integers here. Truncating a position before dividing it by the screen size gives the same region, so the region arithmetic keeps its meaning.
- `warp` falling back to the start room when a level fails to load (hexoshi.py:4137-4140): loading levels is I/O. `Destinations.Warp` names the room and spawn point that are asked for.
- Regions.MapWindow: takes the cells to bound as a parameter. `draw_map` passes `set(map_revealed + map_explored)`; the order of the cells does not change the bounds.
- The timeline command interpreter and `load_timeline`: they `eval` text read from disk.
- Disk I/O: `write_to_disk`, reading configuration and save files, loading rooms. `Progress.GameState.SaveGame` stores the dictionary in the slot list only.
- `generate_map` traversal: only its reading of door destinations (`Destinations.MapLink`) is modelled. `map_rooms` is a parameter.
- `MapDisk.collect` loading rooms and building their ignore regions from `IgnoreRegion` objects (hexoshi.py:2752-2767): each room's origin, size in cells and ignored cells are given as a `Progress.DiskRoom`.
- Progress.GameState.TouchWarpPad: the script appends "warp" to `progress_flags` in place after `save_game` has stored that same list in the slot, so the in-memory slot also gains the flag. The model stores values, so the saved slot lacks it (aliasing is not modelled). The same holds for the in-place `map_removed.append` in `Powerup.touch` (hexoshi.py:2680).
- Controls.Bindings.ToggleKeyAt: the 13 binding lists are assumed to be distinct list objects; bindings that share one list object are not modelled.
- Controls.Bindings.ToggleJsAt: likewise assumes the 13 binding lists are distinct list objects (hexoshi.py:3729-3746); shared list objects are not modelled.
- Teleport.PressRight and Teleport.PressLeft: with no warp pads the script divides by zero (`ZeroDivisionError`); the model returns `None`.
- Teleport.RightReachesAll: states that some number of presses below the pad count reaches each pad, without naming the number in the contract (the proof uses `target - j` or `n - j + target`).
- Menus, dialogs and blocking input loops (`wait_key`, `wait_js`): engine GUI code. Only the slot choice of the new-game and load-game menus is modelled.
- Randomness (`Enemy.kill`, `Stone.event_destroy` shards) and `id()` values: `id()` is a parameter of `Rules.CrowdTurn`.
- `Progress.GameState.TouchPowerup` takes the power-up's class name as a string and the map disk's rooms as a parameter; other power-up subclasses have no `collect` effect.
