/**
 * The game's progress: the module globals that say how far a game has got
 * (the player's name, the watched cutscenes, the level and spawn point to
 * start at, the map cells revealed and explored, the map marks removed, the
 * activated warp pads, the collected power-ups, the progress flags and the
 * energy tanks), the ten save slots that hold copies of them, and the
 * operations that change them: starting, saving and loading a game,
 * activating warp pads, exploring the map and collecting power-ups.
 */
module Progress {
  import opened Lists
  import opened Regions
  import opened Teleport
  import opened Energy

  /** SAVE_NSLOTS. */
  const SaveSlotCount: nat := 10

  /** The name a new game gives the player. */
  const DefaultPlayerName: string := "Anneroy"

  /** An entry of `map_removed`: a kind of map mark and the cell it no longer shows in. */
  datatype Removed = Removed(kind: string, x: int, y: int)

  /** An entry of `powerups`: the power-up's class name, its room and its position there. */
  datatype PowerupId = PowerupId(cls: string, room: string, x: int, y: int)

  /** The values of the progress globals. */
  datatype Progress = Progress(
    playerName: string,
    watchedTimelines: seq<string>,
    currentLevel: Option<string>,
    spawnPoint: Option<string>,
    mapRevealed: seq<Cell>,
    mapExplored: seq<Cell>,
    mapRemoved: seq<Removed>,
    warpPads: seq<WarpPadId>,
    powerups: seq<PowerupId>,
    progressFlags: seq<string>,
    etanks: nat)

  /**
   * A save slot's dictionary.  `None` is a key the dictionary lacks; for
   * the level and the spawn point a missing key and a stored `None` read
   * the same, so one `Option` covers both.
   */
  datatype SlotData = SlotData(
    playerName: Option<string>,
    watchedTimelines: Option<seq<string>>,
    currentLevel: Option<string>,
    spawnPoint: Option<string>,
    mapRevealed: Option<seq<Cell>>,
    mapExplored: Option<seq<Cell>>,
    mapRemoved: Option<seq<Removed>>,
    warpPads: Option<seq<WarpPadId>>,
    powerups: Option<seq<PowerupId>>,
    progressFlags: Option<seq<string>>,
    etanks: Option<nat>)

  /** `slot.get(key, default)`. */
  function Get<T>(v: Option<T>, default: T): T
  {
    if v.Some? then v.value else default
  }

  /** The progress `set_new_game` sets. */
  function NewGame(): (p: Progress)
  {
    Progress(DefaultPlayerName, [], None, Some("save"), [], [], [], [], [], [], 0)
  }

  /** The dictionary `save_game` stores for progress `p`. */
  function Saved(p: Progress): (d: SlotData)
  {
    SlotData(
      Some(p.playerName), Some(p.watchedTimelines), p.currentLevel, p.spawnPoint,
      Some(p.mapRevealed), Some(p.mapExplored), Some(p.mapRemoved), Some(p.warpPads),
      Some(p.powerups), Some(p.progressFlags), Some(p.etanks))
  }

  /** The progress `load_game` restores from a slot, and a new game's from an empty one. */
  function Loaded(slot: Option<SlotData>): (p: Progress)
  {
    match slot
    case None => NewGame()
    case Some(d) =>
      Progress(
        Get(d.playerName, DefaultPlayerName), Get(d.watchedTimelines, []),
        d.currentLevel, d.spawnPoint,
        Get(d.mapRevealed, []), Get(d.mapExplored, []), Get(d.mapRemoved, []),
        Get(d.warpPads, []), Get(d.powerups, []), Get(d.progressFlags, []),
        Get(d.etanks, 0))
  }

  /** Loading what was saved restores every progress global. */
  lemma LoadSaved(p: Progress)
    ensures Loaded(Some(Saved(p))) == p
  {
  }

  /** So two different progress states are never saved as the same dictionary. */
  lemma SavedInjective(p: Progress, q: Progress)
    requires Saved(p) == Saved(q)
    ensures p == q
  {
    LoadSaved(p);
    LoadSaved(q);
  }

  /** Loading an empty slot starts a new game. */
  lemma LoadEmpty()
    ensures Loaded(None) == NewGame()
  {
  }

  /**
   * A slot whose dictionary has no keys at all loads like a new game except
   * for the spawn point, which `load_game` leaves `None` where
   * `set_new_game` names the spawn point "save".
   */
  lemma LoadBlankDictionary()
    ensures var blank := SlotData(None, None, None, None, None, None, None, None, None, None, None);
              Loaded(Some(blank)) == NewGame().(spawnPoint := None)
    ensures NewGame().spawnPoint == Some("save")
  {
  }

  // ---------------------------------------------------------------------
  // Map disks
  // ---------------------------------------------------------------------

  /** The inner test of `MapDisk.collect`: a visited cell is revealed unless it is ignored or already revealed. */
  function Visit(s: seq<Cell>, c: Cell, ignore: set<Cell>): seq<Cell>
  {
    if c in ignore || c in s then s else s + [c]
  }

  /** Visiting keeps the revealed list as a prefix, adds the cell unless it is ignored, and adds nothing else. */
  lemma VisitFacts(s: seq<Cell>, c: Cell, ignore: set<Cell>)
    ensures |s| <= |Visit(s, c, ignore)| && Visit(s, c, ignore)[..|s|] == s
    ensures c !in ignore ==> c in Visit(s, c, ignore)
    ensures forall d :: d in Visit(s, c, ignore) ==> d in s || (d == c && c !in ignore)
    ensures NoDup(s) ==> NoDup(Visit(s, c, ignore))
  {
  }

  /** The revealed cells after the inner loop `for x in range(x0, x0 + w)` on line `y`. */
  function RevealLine(s: seq<Cell>, x0: int, w: nat, y: int, ignore: set<Cell>): seq<Cell>
  {
    if w == 0 then s else Visit(RevealLine(s, x0, w - 1, y, ignore), Cell(x0 + w - 1, y), ignore)
  }

  /** The revealed cells after the outer loop `for y in range(y0, y0 + h)` has run the inner one on each line. */
  function RevealBlock(s: seq<Cell>, x0: int, y0: int, w: nat, h: nat, ignore: set<Cell>): seq<Cell>
  {
    if h == 0 then s else RevealLine(RevealBlock(s, x0, y0, w, h - 1, ignore), x0, w, y0 + h - 1, ignore)
  }

  /** Whether cell `c` lies in the `w` by `h` block whose top-left cell is (`x0`, `y0`). */
  predicate InBlock(c: Cell, x0: int, y0: int, w: int, h: int)
  {
    x0 <= c.x < x0 + w && y0 <= c.y < y0 + h
  }

  /**
   * One line keeps what was revealed, in order; it reveals every cell of the
   * line that is not ignored and nothing else; and it records no cell twice.
   */
  lemma {:induction false} RevealLineFacts(s: seq<Cell>, x0: int, w: nat, y: int, ignore: set<Cell>)
    ensures var r := RevealLine(s, x0, w, y, ignore); |s| <= |r| && r[..|s|] == s
    ensures forall c :: InBlock(c, x0, y, w, 1) && c !in ignore ==> c in RevealLine(s, x0, w, y, ignore)
    ensures forall c :: c in RevealLine(s, x0, w, y, ignore) ==> c in s || (InBlock(c, x0, y, w, 1) && c !in ignore)
    ensures NoDup(s) ==> NoDup(RevealLine(s, x0, w, y, ignore))
  {
    if w > 0 {
      var p := RevealLine(s, x0, w - 1, y, ignore);
      var last := Cell(x0 + w - 1, y);
      RevealLineFacts(s, x0, w - 1, y, ignore);
      VisitFacts(p, last, ignore);
      var r := Visit(p, last, ignore);
      assert r[..|s|] == p[..|s|];
      forall c | InBlock(c, x0, y, w, 1) && c !in ignore
        ensures c in r
      {
        if c != last {
          assert InBlock(c, x0, y, w - 1, 1);
          var i :| 0 <= i < |p| && p[i] == c;
          assert r[i] == c;
        }
      }
    }
  }

  /**
   * The block keeps what was revealed, in order; it reveals every cell of the
   * block that is not ignored and nothing else; and it records no cell twice.
   */
  lemma {:induction false} RevealBlockFacts(s: seq<Cell>, x0: int, y0: int, w: nat, h: nat, ignore: set<Cell>)
    ensures var r := RevealBlock(s, x0, y0, w, h, ignore); |s| <= |r| && r[..|s|] == s
    ensures forall c :: InBlock(c, x0, y0, w, h) && c !in ignore ==> c in RevealBlock(s, x0, y0, w, h, ignore)
    ensures forall c :: c in RevealBlock(s, x0, y0, w, h, ignore) ==> c in s || (InBlock(c, x0, y0, w, h) && c !in ignore)
    ensures NoDup(s) ==> NoDup(RevealBlock(s, x0, y0, w, h, ignore))
  {
    if h > 0 {
      var p := RevealBlock(s, x0, y0, w, h - 1, ignore);
      RevealBlockFacts(s, x0, y0, w, h - 1, ignore);
      RevealLineFacts(p, x0, w, y0 + h - 1, ignore);
      var r := RevealLine(p, x0, w, y0 + h - 1, ignore);
      assert r[..|s|] == p[..|s|];
      forall c | InBlock(c, x0, y0, w, h) && c !in ignore
        ensures c in r
      {
        if c.y < y0 + h - 1 {
          assert InBlock(c, x0, y0, w, h - 1);
          var i :| 0 <= i < |p| && p[i] == c;
          assert r[i] == c;
        } else {
          assert InBlock(c, x0, y0 + h - 1, w, 1);
        }
      }
    }
  }

  /** One room a map disk reveals: its origin cell, its size in cells, and the cells it leaves out. */
  datatype DiskRoom = DiskRoom(x: int, y: int, w: nat, h: nat, ignore: set<Cell>)

  /** The revealed cells after a map disk has revealed each of `rooms`, in order. */
  function RevealRooms(s: seq<Cell>, rooms: seq<DiskRoom>): seq<Cell>
  {
    if rooms == [] then s
    else
      var r := rooms[|rooms| - 1];
      RevealBlock(RevealRooms(s, rooms[..|rooms| - 1]), r.x, r.y, r.w, r.h, r.ignore)
  }

  /** A map disk reveals every cell of each of its rooms except the room's ignored ones. */
  lemma {:induction false} RevealRoomsFacts(s: seq<Cell>, rooms: seq<DiskRoom>, i: nat, c: Cell)
    requires i < |rooms|
    requires InBlock(c, rooms[i].x, rooms[i].y, rooms[i].w, rooms[i].h) && c !in rooms[i].ignore
    ensures c in RevealRooms(s, rooms)
  {
    var init := rooms[..|rooms| - 1];
    var r := rooms[|rooms| - 1];
    var before := RevealRooms(s, init);
    RevealBlockFacts(before, r.x, r.y, r.w, r.h, r.ignore);
    if i < |rooms| - 1 {
      assert init[i] == rooms[i];
      RevealRoomsFacts(s, init, i, c);
      var after := RevealBlock(before, r.x, r.y, r.w, r.h, r.ignore);
      var j :| 0 <= j < |before| && before[j] == c;
      assert after[..|before|][j] == c;
    }
  }

  /** Revealing rooms adds only cells of those rooms that they do not ignore. */
  lemma {:induction false} RevealRoomsOnly(s: seq<Cell>, rooms: seq<DiskRoom>, c: Cell)
    requires c in RevealRooms(s, rooms)
    ensures c in s || exists i :: 0 <= i < |rooms| && InBlock(c, rooms[i].x, rooms[i].y, rooms[i].w, rooms[i].h) && c !in rooms[i].ignore
  {
    if rooms != [] {
      var init := rooms[..|rooms| - 1];
      var r := rooms[|rooms| - 1];
      var before := RevealRooms(s, init);
      RevealBlockFacts(before, r.x, r.y, r.w, r.h, r.ignore);
      if c in before {
        RevealRoomsOnly(s, init, c);
        if c !in s {
          var i :| 0 <= i < |init| && InBlock(c, init[i].x, init[i].y, init[i].w, init[i].h) && c !in init[i].ignore;
          assert rooms[i] == init[i];
        }
      }
    }
  }

  /** Revealing rooms keeps what was revealed, in order, at the head of the list. */
  lemma {:induction false} RevealRoomsKeeps(s: seq<Cell>, rooms: seq<DiskRoom>)
    ensures |s| <= |RevealRooms(s, rooms)| && RevealRooms(s, rooms)[..|s|] == s
  {
    if rooms != [] {
      var r := rooms[|rooms| - 1];
      var before := RevealRooms(s, rooms[..|rooms| - 1]);
      RevealRoomsKeeps(s, rooms[..|rooms| - 1]);
      RevealBlockFacts(before, r.x, r.y, r.w, r.h, r.ignore);
      var after := RevealBlock(before, r.x, r.y, r.w, r.h, r.ignore);
      assert after[..|s|] == after[..|before|][..|s|];
    }
  }

  /** Revealing rooms never records a cell twice. */
  lemma {:induction false} RevealRoomsNoDup(s: seq<Cell>, rooms: seq<DiskRoom>)
    requires NoDup(s)
    ensures NoDup(RevealRooms(s, rooms))
  {
    if rooms != [] {
      var r := rooms[|rooms| - 1];
      RevealRoomsNoDup(s, rooms[..|rooms| - 1]);
      RevealBlockFacts(RevealRooms(s, rooms[..|rooms| - 1]), r.x, r.y, r.w, r.h, r.ignore);
    }
  }

  /** The inner loop of `MapDisk.collect`: `for x in range(x0, x0 + w)` on line `y`. */
  method RevealRow(s: seq<Cell>, x0: int, w: nat, y: int, ignore: set<Cell>) returns (revealed: seq<Cell>)
    ensures revealed == RevealLine(s, x0, w, y, ignore)
  {
    revealed := s;
    var x := x0;
    while x < x0 + w
      invariant x0 <= x <= x0 + w
      invariant revealed == RevealLine(s, x0, x - x0, y, ignore)
    {
      var c := Cell(x, y);
      if c !in ignore && c !in revealed {
        revealed := revealed + [c];
      }
      x := x + 1;
    }
  }

  /** The nested loop of `MapDisk.collect` over one room's block of cells, line by line. */
  method RevealArea(s: seq<Cell>, r: DiskRoom) returns (revealed: seq<Cell>)
    ensures revealed == RevealBlock(s, r.x, r.y, r.w, r.h, r.ignore)
  {
    revealed := s;
    var y := r.y;
    while y < r.y + r.h
      invariant r.y <= y <= r.y + r.h
      invariant revealed == RevealBlock(s, r.x, r.y, r.w, y - r.y, r.ignore)
    {
      revealed := RevealRow(revealed, r.x, r.w, y, r.ignore);
      y := y + 1;
    }
  }

  // ---------------------------------------------------------------------
  // Warp pads
  // ---------------------------------------------------------------------

  /** A warp pad in the current room: where it is, what it is called, and whether it is on yet. */
  class WarpPad {
    const room: string
    const spawnId: string
    const centerX: int
    const centerY: int
    var activated: bool

    constructor (room: string, spawnId: string, centerX: int, centerY: int)
      ensures this.room == room && this.spawnId == spawnId
      ensures this.centerX == centerX && this.centerY == centerY
      ensures !activated
    {
      this.room := room;
      this.spawnId := spawnId;
      this.centerX := centerX;
      this.centerY := centerY;
      activated := false;
    }

    /** The tuple the pad is recorded as: room, spawn id and map cell. */
    function Id(rooms: map<string, Cell>): WarpPadId
    {
      var c := CellAt(RoomOrigin(rooms, room), centerX, centerY);
      WarpPadId(room, spawnId, c.x, c.y)
    }
  }

  // ---------------------------------------------------------------------
  // The progress globals
  // ---------------------------------------------------------------------

  class GameState {
    var playerName: string
    var watchedTimelines: seq<string>
    var currentLevel: Option<string>
    var spawnPoint: Option<string>
    var mapRevealed: seq<Cell>
    var mapExplored: seq<Cell>
    var mapRemoved: seq<Removed>
    var warpPads: seq<WarpPadId>
    var powerups: seq<PowerupId>
    var progressFlags: seq<string>
    var etanks: nat
    var saveSlots: seq<Option<SlotData>>
    var currentSaveSlot: Option<nat>

    /** Ten save slots, and a current slot among them when one is chosen. */
    ghost predicate Valid()
      reads this
    {
      |saveSlots| == SaveSlotCount &&
      (currentSaveSlot.Some? ==> currentSaveSlot.value < |saveSlots|)
    }

    /** The progress globals' current values. */
    function Snapshot(): Progress
      reads this
    {
      Progress(playerName, watchedTimelines, currentLevel, spawnPoint, mapRevealed, mapExplored,
               mapRemoved, warpPads, powerups, progressFlags, etanks)
    }

    /** The globals as the script starts: empty slots, no slot chosen, and no spawn point yet. */
    constructor ()
      ensures Valid()
      ensures saveSlots == seq(SaveSlotCount, _ => None) && currentSaveSlot.None?
      ensures Snapshot() == NewGame().(spawnPoint := None)
    {
      playerName := DefaultPlayerName;
      watchedTimelines := [];
      currentLevel := None;
      spawnPoint := None;
      mapRevealed := [];
      mapExplored := [];
      mapRemoved := [];
      warpPads := [];
      powerups := [];
      progressFlags := [];
      etanks := 0;
      saveSlots := seq(SaveSlotCount, _ => None);
      currentSaveSlot := None;
    }

    /** The save-slot menus: a choice among the slots becomes the current slot; any other choice cancels. */
    method ChooseSlot(choice: int) returns (chosen: bool)
      requires Valid()
      modifies this
      ensures Valid()
      ensures chosen <==> 0 <= choice < SaveSlotCount
      ensures currentSaveSlot == if chosen then Some(choice as nat) else old(currentSaveSlot)
      ensures Snapshot() == old(Snapshot()) && saveSlots == old(saveSlots)
    {
      chosen := 0 <= choice < |saveSlots|;
      if chosen {
        currentSaveSlot := Some(choice as nat);
      }
    }

    /** Every progress global takes its value from `p`. */
    method Restore(p: Progress)
      requires Valid()
      modifies this
      ensures Valid()
      ensures Snapshot() == p
      ensures saveSlots == old(saveSlots) && currentSaveSlot == old(currentSaveSlot)
    {
      playerName, watchedTimelines, currentLevel, spawnPoint := p.playerName, p.watchedTimelines, p.currentLevel, p.spawnPoint;
      mapRevealed, mapExplored, mapRemoved := p.mapRevealed, p.mapExplored, p.mapRemoved;
      warpPads, powerups, progressFlags, etanks := p.warpPads, p.powerups, p.progressFlags, p.etanks;
    }

    /** `set_new_game`. */
    method SetNewGame()
      requires Valid()
      modifies this
      ensures Valid()
      ensures Snapshot() == NewGame()
      ensures saveSlots == old(saveSlots) && currentSaveSlot == old(currentSaveSlot)
    {
      Restore(NewGame());
    }

    /** `save_game`, without the write to disk: the current slot, if any, receives the progress. */
    method SaveGame()
      requires Valid()
      modifies this
      ensures Valid()
      ensures Snapshot() == old(Snapshot()) && currentSaveSlot == old(currentSaveSlot)
      ensures saveSlots == if currentSaveSlot.Some?
                           then old(saveSlots)[currentSaveSlot.value := Some(Saved(Snapshot()))]
                           else old(saveSlots)
    {
      if currentSaveSlot.Some? {
        saveSlots := saveSlots[currentSaveSlot.value := Some(Saved(Snapshot()))];
      }
    }

    /**
     * `load_game`: the current slot's progress, each missing key read as its
     * default, or a new game when there is no slot or it is empty.
     */
    method LoadGame()
      requires Valid()
      modifies this
      ensures Valid()
      ensures Snapshot() == Loaded(if currentSaveSlot.Some? then saveSlots[currentSaveSlot.value] else None)
      ensures saveSlots == old(saveSlots) && currentSaveSlot == old(currentSaveSlot)
    {
      if currentSaveSlot.Some? && saveSlots[currentSaveSlot.value].Some? {
        Restore(Loaded(saveSlots[currentSaveSlot.value]));
      } else {
        SetNewGame();
      }
    }

    /**
     * `WarpPad.activate`: the pad becomes the place to start from, is
     * recorded once among the warp pads, and the game is saved.
     */
    method ActivateWarpPad(pad: WarpPad, rooms: map<string, Cell>)
      requires Valid()
      modifies this, pad
      ensures Valid() && pad.activated
      ensures currentLevel == Some(pad.room) && spawnPoint == Some(pad.spawnId)
      ensures warpPads == AppendNew(old(warpPads), pad.Id(rooms))
      ensures NoDup(old(warpPads)) ==> NoDup(warpPads)
      ensures Snapshot() == old(Snapshot()).(currentLevel := Some(pad.room), spawnPoint := Some(pad.spawnId),
                                             warpPads := AppendNew(old(warpPads), pad.Id(rooms)))
      ensures currentSaveSlot == old(currentSaveSlot)
      ensures saveSlots == if currentSaveSlot.Some?
                           then old(saveSlots)[currentSaveSlot.value := Some(Saved(Snapshot()))]
                           else old(saveSlots)
    {
      pad.activated := true;
      currentLevel := Some(pad.room);
      spawnPoint := Some(pad.spawnId);
      var i := pad.Id(rooms);
      if i !in warpPads {
        warpPads := warpPads + [i];
      }
      SaveGame();
    }

    /**
     * `WarpPad.event_collision` with the player: a pad that is not yet on
     * and is touched from some direction is activated, the player is
     * refreshed, and the first pad ever activated sets the "warp" flag.
     */
    method TouchWarpPad(pad: WarpPad, player: Player, rooms: map<string, Cell>, xdirection: int, ydirection: int)
      returns (activated: bool)
      requires Valid()
      modifies this, pad, player
      ensures Valid()
      ensures activated <==> !old(pad.activated) && (xdirection != 0 || ydirection != 0)
      ensures activated ==> pad.activated && warpPads == AppendNew(old(warpPads), pad.Id(rooms))
      ensures activated ==> currentLevel == Some(pad.room) && spawnPoint == Some(pad.spawnId)
      ensures activated ==> player.hp == MaxHp && player.etanksUsed == 0
      ensures activated ==> progressFlags == AppendNew(old(progressFlags), "warp")
      ensures activated ==>
                var saved := old(Snapshot()).(currentLevel := Some(pad.room), spawnPoint := Some(pad.spawnId),
                                              warpPads := AppendNew(old(warpPads), pad.Id(rooms)));
                Snapshot() == saved.(progressFlags := AppendNew(old(progressFlags), "warp")) &&
                saveSlots == if currentSaveSlot.Some?
                             then old(saveSlots)[currentSaveSlot.value := Some(Saved(saved))]
                             else old(saveSlots)
      ensures !activated ==> Snapshot() == old(Snapshot()) && saveSlots == old(saveSlots)
      ensures !activated ==> pad.activated == old(pad.activated)
      ensures !activated ==> player.hp == old(player.hp) && player.etanksUsed == old(player.etanksUsed)
      ensures currentSaveSlot == old(currentSaveSlot)
      ensures player.aimDirection == old(player.aimDirection) && player.aimDirectionTime == old(player.aimDirectionTime)
      ensures player.lastXr == old(player.lastXr) && player.lastYr == old(player.lastYr)
    {
      activated := !pad.activated && (xdirection != 0 || ydirection != 0);
      if activated {
        ActivateWarpPad(pad, rooms);
        player.Refresh(etanks);
        if "warp" !in progressFlags {
          progressFlags := progressFlags + ["warp"];
        }
      }
    }

    // -------------------------------------------------------------------
    // Exploration
    // -------------------------------------------------------------------

    /**
     * The map update at the end of `Player.event_step`: when the player's
     * cell differs from the last one, it is recorded once as explored and
     * once as revealed, and it becomes the last cell.
     */
    method ExploreStep(player: Player, rooms: map<string, Cell>, fname: string, x: int, y: int)
      requires Valid()
      modifies this, player
      ensures Valid()
      ensures var pos := CellAt(RoomOrigin(rooms, fname), x, y);
              var moved := Some(pos.x) != old(player.lastXr) || Some(pos.y) != old(player.lastYr);
              player.lastXr == Some(pos.x) && player.lastYr == Some(pos.y) &&
              mapExplored == (if moved then AppendNew(old(mapExplored), pos) else old(mapExplored)) &&
              mapRevealed == (if moved then AppendNew(old(mapRevealed), pos) else old(mapRevealed))
      ensures NoDup(old(mapExplored)) ==> NoDup(mapExplored)
      ensures NoDup(old(mapRevealed)) ==> NoDup(mapRevealed)
      ensures Snapshot() == old(Snapshot()).(mapExplored := mapExplored, mapRevealed := mapRevealed)
      ensures saveSlots == old(saveSlots) && currentSaveSlot == old(currentSaveSlot)
      ensures player.hp == old(player.hp) && player.etanksUsed == old(player.etanksUsed)
      ensures player.aimDirection == old(player.aimDirection) && player.aimDirectionTime == old(player.aimDirectionTime)
    {
      var pos := CellAt(RoomOrigin(rooms, fname), x, y);
      if Some(pos.x) != player.lastXr || Some(pos.y) != player.lastYr {
        mapExplored := AppendNew(mapExplored, pos);
        mapRevealed := AppendNew(mapRevealed, pos);
      }
      player.lastXr := Some(pos.x);
      player.lastYr := Some(pos.y);
    }

    // -------------------------------------------------------------------
    // Power-ups
    // -------------------------------------------------------------------

    /** `Powerup.event_create`: a power-up that was collected before is destroyed at once. */
    predicate IsCollected(id: PowerupId)
      reads this
    {
      id in powerups
    }

    /**
     * The bookkeeping of `Powerup.touch`: the power-up is recorded as
     * collected, and a "powerup" mark is removed at the map cell of its
     * centre.
     */
    method RecordPowerup(id: PowerupId, rooms: map<string, Cell>, centerX: int, centerY: int)
      requires Valid()
      modifies this
      ensures Valid()
      ensures powerups == old(powerups) + [id]
      ensures var c := CellAt(RoomOrigin(rooms, id.room), centerX, centerY);
              mapRemoved == old(mapRemoved) + [Removed("powerup", c.x, c.y)]
      ensures IsCollected(id)
      ensures Snapshot() == old(Snapshot()).(powerups := powerups, mapRemoved := mapRemoved)
      ensures saveSlots == old(saveSlots) && currentSaveSlot == old(currentSaveSlot)
    {
      powerups := powerups + [id];
      var origin := RoomOrigin(rooms, id.room);
      var px := origin.x + XRegion(centerX);
      var py := origin.y + YRegion(centerY);
      mapRemoved := mapRemoved + [Removed("powerup", px, py)];
    }

    /** `Etank.collect`: one more tank, and the player's energy refreshed. */
    method CollectEtank(player: Player)
      requires Valid()
      modifies this, player
      ensures Valid()
      ensures etanks == old(etanks) + 1
      ensures player.hp == MaxHp && player.etanksUsed == 0
      ensures player.aimDirection == old(player.aimDirection) && player.aimDirectionTime == old(player.aimDirectionTime)
      ensures player.lastXr == old(player.lastXr) && player.lastYr == old(player.lastYr)
      ensures Snapshot() == old(Snapshot()).(etanks := etanks)
      ensures saveSlots == old(saveSlots) && currentSaveSlot == old(currentSaveSlot)
    {
      etanks := etanks + 1;
      player.Refresh(etanks);
    }

    /** `LifeOrb.collect` and `Map.collect`: a progress flag is appended. */
    method AddFlag(flag: string)
      requires Valid()
      modifies this
      ensures Valid()
      ensures progressFlags == old(progressFlags) + [flag]
      ensures Snapshot() == old(Snapshot()).(progressFlags := progressFlags)
      ensures saveSlots == old(saveSlots) && currentSaveSlot == old(currentSaveSlot)
    {
      progressFlags := progressFlags + [flag];
    }

    /** The nested loop of `MapDisk.collect` for one room. */
    method RevealRoom(r: DiskRoom)
      requires Valid()
      modifies this
      ensures Valid()
      ensures mapRevealed == RevealBlock(old(mapRevealed), r.x, r.y, r.w, r.h, r.ignore)
      ensures Snapshot() == old(Snapshot()).(mapRevealed := mapRevealed)
      ensures saveSlots == old(saveSlots) && currentSaveSlot == old(currentSaveSlot)
    {
      var revealed := RevealArea(mapRevealed, r);
      mapRevealed := revealed;
    }

    /** `MapDisk.collect`, with each room's size and ignored cells given. */
    method CollectMapDisk(rooms: seq<DiskRoom>)
      requires Valid()
      modifies this
      ensures Valid()
      ensures mapRevealed == RevealRooms(old(mapRevealed), rooms)
      ensures |old(mapRevealed)| <= |mapRevealed| && mapRevealed[..|old(mapRevealed)|] == old(mapRevealed)
      ensures Snapshot() == old(Snapshot()).(mapRevealed := mapRevealed)
      ensures saveSlots == old(saveSlots) && currentSaveSlot == old(currentSaveSlot)
    {
      RevealRoomsKeeps(mapRevealed, rooms);
      var i := 0;
      while i < |rooms|
        invariant 0 <= i <= |rooms|
        invariant mapRevealed == RevealRooms(old(mapRevealed), rooms[..i])
        invariant Snapshot() == old(Snapshot()).(mapRevealed := mapRevealed)
        invariant saveSlots == old(saveSlots) && currentSaveSlot == old(currentSaveSlot)
      {
        assert rooms[..i + 1][..i] == rooms[..i];
        RevealRoom(rooms[i]);
        i := i + 1;
      }
      assert rooms[..i] == rooms;
    }

    /**
     * `Powerup.touch` followed by the power-up's own `collect`: energy
     * tanks, life orbs, maps and map disks have effects beyond the
     * bookkeeping; any other power-up has none.
     */
    method TouchPowerup(id: PowerupId, player: Player, rooms: map<string, Cell>, centerX: int, centerY: int,
                        disk: seq<DiskRoom>)
      requires Valid()
      modifies this, player
      ensures Valid()
      ensures IsCollected(id) && powerups == old(powerups) + [id]
      ensures etanks == old(etanks) + (if id.cls == "Etank" then 1 else 0)
      ensures progressFlags == old(progressFlags) + (if id.cls == "LifeOrb" then ["life_orb"]
                                                    else if id.cls == "Map" then ["map"] else [])
      ensures mapRevealed == if id.cls == "MapDisk" then RevealRooms(old(mapRevealed), disk) else old(mapRevealed)
      ensures var c := CellAt(RoomOrigin(rooms, id.room), centerX, centerY);
              mapRemoved == old(mapRemoved) + [Removed("powerup", c.x, c.y)]
      ensures Snapshot() == old(Snapshot()).(powerups := powerups, mapRemoved := mapRemoved, etanks := etanks,
                                             progressFlags := progressFlags, mapRevealed := mapRevealed)
      ensures id.cls == "Etank" ==> player.hp == MaxHp && player.etanksUsed == 0
      ensures id.cls != "Etank" ==> player.hp == old(player.hp) && player.etanksUsed == old(player.etanksUsed)
      ensures player.aimDirection == old(player.aimDirection) && player.aimDirectionTime == old(player.aimDirectionTime)
      ensures player.lastXr == old(player.lastXr) && player.lastYr == old(player.lastYr)
      ensures saveSlots == old(saveSlots) && currentSaveSlot == old(currentSaveSlot)
    {
      RecordPowerup(id, rooms, centerX, centerY);
      if id.cls == "Etank" {
        CollectEtank(player);
      } else if id.cls == "LifeOrb" {
        AddFlag("life_orb");
      } else if id.cls == "Map" {
        AddFlag("map");
      } else if id.cls == "MapDisk" {
        CollectMapDisk(disk);
      }
    }
  }

  /**
   * Saving and then loading, with nothing in between, leaves the progress
   * as it was; without a chosen slot the load starts a new game.
   */
  method SaveThenLoad(g: GameState)
    requires g.Valid()
    modifies g
    ensures g.Valid()
    ensures g.currentSaveSlot.Some? ==> g.Snapshot() == old(g.Snapshot())
    ensures g.currentSaveSlot.None? ==> g.Snapshot() == NewGame()
  {
    g.SaveGame();
    ghost var saved := g.Snapshot();
    g.LoadGame();
    LoadSaved(saved);
  }
}
