/**
 * Small rules of the game objects: the player's aim direction, the lookup
 * from a tile's class name to the object it becomes, the "unset" sentinel
 * of moving-platform paths, how crowding enemies turn around, and which
 * fake tiles a weak stone takes with it.
 */
module Rules {
  import opened Lists

  // ---------------------------------------------------------------------
  // Aim direction
  // ---------------------------------------------------------------------

  /** The buttons `Player.event_begin_step` reads to choose where to aim. */
  datatype AimInput = AimInput(
    shooting: bool,
    up: bool, down: bool,
    aimDiag: bool, aimUp: bool, aimDown: bool)

  /** `bool(down_pressed) - bool(up_pressed)`. */
  function VControl(inp: AimInput): (v: int)
    ensures -1 <= v <= 1
    ensures v == 0 <==> inp.up == inp.down
  {
    (if inp.down then 1 else 0) - (if inp.up then 1 else 0)
  }

  /**
   * The aim direction chosen for one frame: 2 straight up, 1 diagonally up,
   * 0 forward, -1 diagonally down, -2 straight down, `None` for not aiming.
   */
  function AimDirection(inp: AimInput): (r: Option<int>)
    ensures r.Some? ==> -2 <= r.value <= 2
  {
    var v := VControl(inp);
    var held := if inp.shooting then Some(0) else None;
    var moved := if v != 0 then (if inp.aimDiag then Some(-v) else Some(-2 * v)) else held;
    if inp.aimUp && inp.aimDown then Some(2)
    else if inp.aimUp then Some(1)
    else if inp.aimDown then Some(-1)
    else moved
  }

  /**
   * The aim buttons override the direction buttons; up and down aim
   * straight, or diagonally while the diagonal button is held; only a player
   * who is shooting and holds no direction aims forward.
   */
  lemma AimChoices(inp: AimInput)
    ensures inp.aimUp && inp.aimDown ==> AimDirection(inp) == Some(2)
    ensures inp.aimUp && !inp.aimDown ==> AimDirection(inp) == Some(1)
    ensures !inp.aimUp && inp.aimDown ==> AimDirection(inp) == Some(-1)
    ensures !inp.aimUp && !inp.aimDown && inp.up && !inp.down ==>
              AimDirection(inp) == if inp.aimDiag then Some(1) else Some(2)
    ensures !inp.aimUp && !inp.aimDown && inp.down && !inp.up ==>
              AimDirection(inp) == if inp.aimDiag then Some(-1) else Some(-2)
    ensures !inp.aimUp && !inp.aimDown && inp.up == inp.down ==>
              AimDirection(inp) == if inp.shooting then Some(0) else None
  {
  }

  /** Holding nothing and not shooting means not aiming, and only then. */
  lemma AimNoneIff(inp: AimInput)
    ensures AimDirection(inp).None? <==>
              !inp.shooting && !inp.aimUp && !inp.aimDown && inp.up == inp.down
  {
  }

  /** The aim direction and its frame counter after one begin-step. */
  datatype Aim = Aim(direction: Option<int>, time: nat)

  /** `aim_direction_time` counts the frames the direction has stayed the same, restarting at 0 on a change. */
  function AimStep(prev: Aim, inp: AimInput): (r: Aim)
    ensures r.direction == AimDirection(inp)
    ensures r.time == 0 <==> r.direction != prev.direction
    ensures r.direction == prev.direction ==> r.time == prev.time + 1
  {
    var d := AimDirection(inp);
    Aim(d, if d == prev.direction then prev.time + 1 else 0)
  }

  /** Holding the same buttons for `k` more frames adds `k` to the counter. */
  function AimSteps(prev: Aim, inp: AimInput, k: nat): Aim
    decreases k
  {
    if k == 0 then prev else AimSteps(AimStep(prev, inp), inp, k - 1)
  }

  /** After the first of `k + 1` frames with the same buttons, the counter has grown by `k`. */
  lemma {:induction false} AimStepsCount(prev: Aim, inp: AimInput, k: nat)
    ensures var first := AimStep(prev, inp);
              AimSteps(first, inp, k) == Aim(first.direction, first.time + k)
    decreases k
  {
    if k > 0 {
      var first := AimStep(prev, inp);
      AimStepsCount(first, inp, k - 1);
    }
  }

  // ---------------------------------------------------------------------
  // TYPES and get_object
  // ---------------------------------------------------------------------

  /** The classes `TYPES` names, `GetObject` for the layer names that map to `get_object` itself. */
  datatype ObjClass =
    | SolidLeft | SolidRight | SolidTop | SolidBottom | Solid
    | SlopeTopLeft | SlopeTopRight | SlopeBottomLeft | SlopeBottomRight
    | MovingPlatform | SpikeLeft | SpikeRight | SpikeTop | SpikeBottom | Death
    | Frog | Bat | FakeTile | WeakStone | SpikeStone
    | Powerup | Etank | LifeOrb | Map | MapDisk | WarpPad
    | DoorFrameX | DoorFrameY | LeftDoor | RightDoor | UpDoor | DownDoor
    | TimelineSwitcher | GetObject
    | MovingPlatformPath | TriggeredMovingPlatformPath | PlayerLayer
    | CameraXGuide | CameraYGuide
    | MapLeftWall | MapRightWall | MapTopWall | MapBottomWall
    | MapLeftDoor | MapRightDoor | MapTopDoor | MapBottomDoor
    | IgnoreRegion

  /** What `get_object` builds: an instance of a class that `TYPES` names, or a plain decoration. */
  datatype Made = Of(cls: ObjClass) | Decoration

  // `TYPES`, written as seven groups of entries with no name in two groups;
  // the grouping only keeps the verifier's reasoning about names small.

  /** Walls, floors and slopes. */
  const Solids: map<string, ObjClass> := map[
    "solid_left" := SolidLeft,
    "solid_right" := SolidRight,
    "solid_top" := SolidTop,
    "solid_bottom" := SolidBottom,
    "solid" := Solid,
    "slope_topleft" := SlopeTopLeft,
    "slope_topright" := SlopeTopRight,
    "slope_bottomleft" := SlopeBottomLeft,
    "slope_bottomright" := SlopeBottomRight
  ]

  /** Moving platforms, spikes and death zones. */
  const Hazards: map<string, ObjClass> := map[
    "moving_platform" := MovingPlatform,
    "spike_left" := SpikeLeft,
    "spike_right" := SpikeRight,
    "spike_top" := SpikeTop,
    "spike_bottom" := SpikeBottom,
    "death" := Death
  ]

  /** Enemies and stones. */
  const Creatures: map<string, ObjClass> := map[
    "frog" := Frog,
    "bat" := Bat,
    "fake_tile" := FakeTile,
    "weak_stone" := WeakStone,
    "spike_stone" := SpikeStone
  ]

  /** Power-ups and warp pads. */
  const Items: map<string, ObjClass> := map[
    "artifact" := Powerup,
    "etank" := Etank,
    "life_orb" := LifeOrb,
    "map" := Map,
    "map_disk" := MapDisk,
    "warp_pad" := WarpPad
  ]

  /** Door frames, doors and timeline switchers. */
  const Doorways: map<string, ObjClass> := map[
    "doorframe_x" := DoorFrameX,
    "doorframe_y" := DoorFrameY,
    "door_left" := LeftDoor,
    "door_right" := RightDoor,
    "door_up" := UpDoor,
    "door_down" := DownDoor,
    "timeline_switcher" := TimelineSwitcher
  ]

  /** Object layers, paths, the player and camera guides. */
  const Layers: map<string, ObjClass> := map[
    "enemies" := GetObject,
    "doors" := GetObject,
    "stones" := GetObject,
    "powerups" := GetObject,
    "objects" := GetObject,
    "moving_platform_path" := MovingPlatformPath,
    "triggered_moving_platform_path" := TriggeredMovingPlatformPath,
    "player" := PlayerLayer,
    "camera_x_guide" := CameraXGuide,
    "camera_y_guide" := CameraYGuide
  ]

  /** Marks that shape the world map. */
  const MapMarks: map<string, ObjClass> := map[
    "map_wall_left" := MapLeftWall,
    "map_wall_right" := MapRightWall,
    "map_wall_top" := MapTopWall,
    "map_wall_bottom" := MapBottomWall,
    "map_door_left" := MapLeftDoor,
    "map_door_right" := MapRightDoor,
    "map_door_top" := MapTopDoor,
    "map_door_bottom" := MapBottomDoor,
    "map_ignore_region" := IgnoreRegion
  ]

  /** A name no group, and so `TYPES`, lists. */
  predicate Unlisted(name: string)
  {
    name !in Solids && name !in Hazards && name !in Creatures && name !in Items
    && name !in Doorways && name !in Layers && name !in MapMarks
  }

  /** `TYPES.get(cls, xsge_tmx.Decoration)`, the class `get_object` instantiates. */
  function TypeOf(cls: Option<string>): Made
  {
    if cls.None? then Decoration
    else
      var name := cls.value;
      if name in Doorways then Of(Doorways[name])
      else if name in Creatures then Of(Creatures[name])
      else if name in Items then Of(Items[name])
      else if name in Layers then Of(Layers[name])
      else if name in Solids then Of(Solids[name])
      else if name in Hazards then Of(Hazards[name])
      else if name in MapMarks then Of(MapMarks[name])
      else Decoration
  }

  /** An object becomes a plain decoration exactly when it names no class, or one `TYPES` lacks. */
  lemma TypeOfFallback(cls: Option<string>)
    ensures TypeOf(cls) == Decoration <==> cls.None? || Unlisted(cls.value)
  {
  }

  /** Objects on the layers named like the enemies and doors tilesets go back through `get_object`. */
  lemma LayerClasses()
    ensures TypeOf(Some("enemies")) == Of(GetObject)
    ensures TypeOf(Some("doors")) == Of(GetObject)
  {
  }

  /** The enemies tileset's bats and frogs have classes of their own. */
  lemma EnemyClasses()
    ensures TypeOf(Some("bat")) == Of(Bat)
    ensures TypeOf(Some("frog")) == Of(Frog)
  {
  }

  /** The power-ups tileset's energy tanks and life orbs have classes of their own. */
  lemma TankClasses()
    ensures TypeOf(Some("etank")) == Of(Etank)
    ensures TypeOf(Some("life_orb")) == Of(LifeOrb)
  {
  }

  /** So do its maps and map disks. */
  lemma MapClasses()
    ensures TypeOf(Some("map")) == Of(Map)
    ensures TypeOf(Some("map_disk")) == Of(MapDisk)
  {
  }

  /** The doors tileset's two door frames. */
  lemma DoorFrameClasses()
    ensures TypeOf(Some("doorframe_x")) == Of(DoorFrameX)
    ensures TypeOf(Some("doorframe_y")) == Of(DoorFrameY)
  {
  }

  /** The doors tileset's left and right doors. */
  lemma SideDoorClasses()
    ensures TypeOf(Some("door_left")) == Of(LeftDoor)
    ensures TypeOf(Some("door_right")) == Of(RightDoor)
  {
  }

  /** The doors tileset's up and down doors. */
  lemma EndDoorClasses()
    ensures TypeOf(Some("door_up")) == Of(UpDoor)
    ensures TypeOf(Some("door_down")) == Of(DownDoor)
  {
  }

  /** The enemies tileset's worm has no class in `TYPES` and becomes a decoration. */
  lemma WormTile()
    ensures TypeOf(Some("worm")) == Decoration
  {
    assert Unlisted("worm");
  }

  /** The enemies tileset's mantanoid has no class in `TYPES` and becomes a decoration. */
  lemma MantanoidTile()
    ensures TypeOf(Some("mantanoid")) == Decoration
  {
    assert Unlisted("mantanoid");
  }

  /** The enemies tileset's scorpion has no class in `TYPES` and becomes a decoration. */
  lemma ScorpionTile()
    ensures TypeOf(Some("scorpion")) == Decoration
  {
    assert Unlisted("scorpion");
  }

  /** The enemies tileset's hedgehog has no class in `TYPES` and becomes a decoration. */
  lemma HedgehogTile()
    ensures TypeOf(Some("hedgehog")) == Decoration
  {
    assert Unlisted("hedgehog");
  }

  /** The power-ups tileset's atomic compressor has no class in `TYPES` and becomes a decoration. */
  lemma AtomicCompressorTile()
    ensures TypeOf(Some("atomic_compressor")) == Decoration
  {
    assert Unlisted("atomic_compressor");
  }

  /** The power-ups tileset's monkey boots has no class in `TYPES` and becomes a decoration. */
  lemma MonkeyBootsTile()
    ensures TypeOf(Some("monkey_boots")) == Decoration
  {
    assert Unlisted("monkey_boots");
  }

  /** The power-ups tileset's hedgehog hormone has no class in `TYPES` and becomes a decoration. */
  lemma HedgehogHormoneTile()
    ensures TypeOf(Some("hedgehog_hormone")) == Decoration
  {
    assert Unlisted("hedgehog_hormone");
  }

  // ---------------------------------------------------------------------
  // MovingObjectPath parameters
  // ---------------------------------------------------------------------

  /** `-1` stands for "none" in a path's acceleration, deceleration and loop count. */
  function Unsentinel(v: Option<int>): (r: Option<int>)
    ensures r != Some(-1)
    ensures v != Some(-1) ==> r == v
  {
    if v == Some(-1) then None else v
  }

  /** A path parameter: the class default when none is given, then the sentinel read as "none". */
  function PathParam(given: Option<int>, default: Option<int>): (r: Option<int>)
  {
    Unsentinel(if given.Some? then given else default)
  }

  /**
   * A path parameter is never the sentinel itself; any other given value is
   * kept; a missing one takes the default; and reading the result again
   * changes nothing.
   */
  lemma PathParamFacts(given: Option<int>, default: Option<int>)
    ensures PathParam(given, default) != Some(-1)
    ensures given.Some? && given.value != -1 ==> PathParam(given, default) == given
    ensures given == Some(-1) ==> PathParam(given, default) == None
    ensures given.None? ==> PathParam(given, default) == Unsentinel(default)
    ensures Unsentinel(PathParam(given, default)) == PathParam(given, default)
  {
  }

  // ---------------------------------------------------------------------
  // Crowd objects
  // ---------------------------------------------------------------------

  /**
   * `CrowdObject.event_collision` with a crowd-blocking object: the direction
   * the object walks in afterwards.  `xdirection` is the horizontal direction
   * of the collision (0 for none); positions and identities break the tie.
   */
  function CrowdTurn(xdirection: int, selfX: int, otherX: int, selfId: int, otherId: int): (r: int)
  {
    if xdirection != 0 then -xdirection
    else if selfX > otherX then 1
    else if selfX < otherX then -1
    else if selfId > otherId then 1
    else -1
  }

  /**
   * A sideways bump reverses the walk.  Otherwise the object walks away
   * from the other one, and two distinct objects at the same place walk
   * apart: whatever their places, two crowd objects that meet without a
   * sideways bump head in opposite directions.
   */
  lemma CrowdTurnApart(selfX: int, otherX: int, selfId: int, otherId: int)
    requires selfId != otherId
    ensures CrowdTurn(0, selfX, otherX, selfId, otherId) == -CrowdTurn(0, otherX, selfX, otherId, selfId)
    ensures CrowdTurn(0, selfX, otherX, selfId, otherId) in {-1, 1}
    ensures selfX != otherX ==> (CrowdTurn(0, selfX, otherX, selfId, otherId) > 0 <==> selfX > otherX)
  {
  }

  /** A sideways bump turns the object back the way it came, and a bump in the new direction turns it back again. */
  lemma CrowdTurnBack(xdirection: int, selfX: int, otherX: int, selfId: int, otherId: int)
    requires xdirection != 0
    ensures CrowdTurn(xdirection, selfX, otherX, selfId, otherId) == -xdirection
    ensures CrowdTurn(CrowdTurn(xdirection, selfX, otherX, selfId, otherId), selfX, otherX, selfId, otherId)
            == xdirection
  {
  }

  // ---------------------------------------------------------------------
  // Weak stones and fake tiles
  // ---------------------------------------------------------------------

  /** An object's image box: left and top edges, right and bottom edges. */
  datatype Box = Box(left: int, top: int, right: int, bottom: int)

  /** The test in `Stone.event_create`: the two boxes share interior; touching edges do not count. */
  predicate Overlaps(a: Box, b: Box)
  {
    a.left < b.right && a.right > b.left && a.top < b.bottom && a.bottom > b.top
  }

  function Max(a: int, b: int): int { if a < b then b else a }
  function Min(a: int, b: int): int { if a < b then a else b }

  /**
   * Overlap is symmetric, and for boxes of positive size it holds
   * exactly when their intersection has positive width and height; boxes that only touch do not
   * overlap.
   */
  lemma OverlapsMeaning(a: Box, b: Box)
    ensures Overlaps(a, b) <==> Overlaps(b, a)
    ensures a.left < a.right && a.top < a.bottom && b.left < b.right && b.top < b.bottom ==>
            (Overlaps(a, b) <==>
               Max(a.left, b.left) < Min(a.right, b.right) && Max(a.top, b.top) < Min(a.bottom, b.bottom))
    ensures a.right == b.left ==> !Overlaps(a, b)
    ensures a.bottom == b.top ==> !Overlaps(a, b)
    ensures a.left < a.right && a.top < a.bottom ==> Overlaps(a, a)
  {
  }

  /** A candidate the room reports near the stone: whether it is a fake tile, and its box. */
  datatype Nearby = Nearby(fake: bool, box: Box)

  /** The fake tiles among `others` that overlap `stone`, in order. */
  function FakesAmong(stone: Box, others: seq<Nearby>): (r: seq<Box>)
  {
    if others == [] then []
    else
      var rest := FakesAmong(stone, others[..|others| - 1]);
      var o := others[|others| - 1];
      if o.fake && Overlaps(stone, o.box) then rest + [o.box] else rest
  }

  /** Exactly the overlapping fake tiles are taken, and nothing else. */
  lemma {:induction false} FakesAmongMembers(stone: Box, others: seq<Nearby>, b: Box)
    ensures b in FakesAmong(stone, others) <==>
              exists i :: 0 <= i < |others| && others[i].fake && others[i].box == b && Overlaps(stone, b)
    ensures |FakesAmong(stone, others)| <= |others|
  {
    if others != [] {
      var init := others[..|others| - 1];
      FakesAmongMembers(stone, init, b);
      forall i | 0 <= i < |init| ensures init[i] == others[i] { }
    }
  }

  /** `Stone.event_create`: collect the fake tiles whose boxes overlap the stone's. */
  method CollectFakes(stone: Box, others: seq<Nearby>) returns (fakes: seq<Box>)
    ensures fakes == FakesAmong(stone, others)
  {
    fakes := [];
    var i := 0;
    while i < |others|
      invariant 0 <= i <= |others|
      invariant fakes == FakesAmong(stone, others[..i])
    {
      assert others[..i + 1][..i] == others[..i];
      var o := others[i];
      if o.fake && Overlaps(stone, o.box) {
        fakes := fakes + [o.box];
      }
      i := i + 1;
    }
    assert others[..i] == others;
  }
}
