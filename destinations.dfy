/**
 * Destination strings of doors and warps: `"level:spawn"`, split at the
 * first colon, or a bare level name.
 */
module Destinations {
  import opened Lists

  /** `dest.split(':', 1)`, when `dest` contains a colon at all. */
  function SplitDest(dest: string): (r: Option<(string, string)>)
    ensures r.None? <==> ':' !in dest
    ensures r.Some? ==> ':' !in r.value.0 && r.value.0 + ":" + r.value.1 == dest
  {
    if ':' in dest then
      var i := IndexOf(dest, ':');
      assert dest == dest[..i] + ":" + dest[i + 1..];
      Some((dest[..i], dest[i + 1..]))
    else None
  }

  /** A level name without a colon, joined to any spawn id, splits back into the two. */
  lemma SplitJoined(level: string, spawn: string)
    requires ':' !in level
    ensures SplitDest(level + ":" + spawn) == Some((level, spawn))
  {
    var d := level + ":" + spawn;
    assert d[|level|] == ':';
    var i := IndexOf(d, ':');
    assert forall j :: 0 <= j < |level| ==> d[j] == level[j];
    assert d[..i] == level;
    assert d[i + 1..] == spawn;
  }

  /** `"{}:{}".format(level, spawn)`: the destination a teleport hands to `warp`. */
  function JoinDest(level: string, spawn: string): string
  {
    level + ":" + spawn
  }

  /** Which room `warp` starts: a level loaded by name, or the current room again. */
  datatype LevelChoice = Load(fname: string) | CurrentRoom

  /** Where `warp` sends the player: a room and the spawn point to appear at. */
  datatype Arrival = Arrival(level: LevelChoice, spawn: string)

  /** `warp(dest)` from the room `here`; a bare level name arrives at the spawn point named after `here`. */
  function Warp(dest: string, here: string): (r: Arrival)
    ensures ':' !in dest ==> r.spawn == here
    ensures r.level.CurrentRoom? <==> dest == "" || dest[0] == ':'
    ensures r.level.Load? ==> ':' !in r.level.fname && r.level.fname != "" && r.level.fname <= dest
  {
    match SplitDest(dest)
    case Some((level, spawn)) =>
      assert level != "" ==> dest[0] == level[0];
      Arrival(if level != "" then Load(level) else CurrentRoom, spawn)
    case None =>
      Arrival(if dest != "" then Load(dest) else CurrentRoom, here)
  }

  /**
   * A teleport's destination brings the player to the chosen level and spawn
   * point exactly when the level name has no colon of its own; an empty level
   * name restarts the current room at that spawn point.
   */
  lemma WarpJoined(level: string, spawn: string, here: string)
    ensures (Warp(JoinDest(level, spawn), here) == Arrival(if level != "" then Load(level) else CurrentRoom, spawn))
            <==> ':' !in level
  {
    if ':' !in level {
      SplitJoined(level, spawn);
    } else {
      var r := Warp(JoinDest(level, spawn), here);
      assert r.level.Load? ==> ':' !in r.level.fname;
    }
  }

  /** `Door.__init__`: a door with no spawn id of its own takes one from its destination. */
  function DoorSpawnId(dest: Option<string>, spawnId: Option<string>): (r: Option<string>)
    ensures (spawnId.Some? && spawnId.value != "") || dest.None? || dest == Some("") ==> r == spawnId
    ensures r != spawnId ==> r.Some? && r.value != "" && dest.Some? && r.value <= dest.value
    ensures (spawnId.None? || spawnId == Some("")) && dest.Some? && dest.value != "" && ':' !in dest.value ==> r == dest
    ensures (spawnId.None? || spawnId == Some("")) && dest.Some? && ':' in dest.value ==>
              r == (if SplitDest(dest.value).value.0 != "" then Some(SplitDest(dest.value).value.0) else spawnId)
  {
    if (spawnId.None? || spawnId == Some("")) && dest.Some? && dest.value != "" then
      match SplitDest(dest.value)
      case Some((level, _)) => if level != "" then Some(level) else spawnId
      case None => dest
    else spawnId
  }

  /** A door to `"level:spawn"` with no spawn id of its own takes the level as its spawn id. */
  lemma DoorJoined(level: string, spawn: string, sid: Option<string>)
    requires level != "" && ':' !in level && (sid.None? || sid == Some(""))
    ensures DoorSpawnId(Some(level + ":" + spawn), sid) == Some(level)
  {
    SplitJoined(level, spawn);
  }

  /**
   * Doors with bare level names pair up: walking from room `a` through a
   * door to `b` arrives at the spawn point named `a`, and that is the spawn
   * id of the door in `b` that leads back to `a`.
   */
  lemma BareDoorsPair(a: string, b: string)
    requires a != "" && b != "" && ':' !in a && ':' !in b
    ensures Warp(b, a) == Arrival(Load(b), a)
    ensures DoorSpawnId(Some(a), None) == Some(a)
  {
  }

  /** The map generator's reading of a door's destination from the room `fname`. */
  function MapLink(dest: string, fname: string): (r: (string, string))
    ensures r.0 + (if ':' in dest then ":" + r.1 else "") == dest
  {
    match SplitDest(dest)
    case Some((level, spawn)) => (level, spawn)
    case None => (dest, fname)
  }

  /** The map generator links a door to the same spawn point that `warp` arrives at. */
  lemma MapLinkAgreesWithWarp(dest: string, fname: string)
    ensures MapLink(dest, fname).1 == Warp(dest, fname).spawn
    ensures MapLink(dest, fname).0 != "" ==> Warp(dest, fname).level == Load(MapLink(dest, fname).0)
  {
  }
}
