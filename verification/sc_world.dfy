/**
 * `SCWorld`: realm comparison of world names, the list of worlds being
 * unloaded with the guards that protect the main world, and the per-world
 * settings kept in `worlds.yml` under `worlds.<name>`.
 *
 * Only the synchronous part of unloading and deleting is modelled: what is
 * reported and changed before the first scheduled task runs. The scheduled
 * removal from the unloading list is the separate step `Unloaded`.
 */
module SCWorld {
  import opened JString
  import opened Host
  import opened Config

  // ---------------------------------------------------------------------
  // sameRealm
  // ---------------------------------------------------------------------

  /** The lowercased name with every `_nether` removed, then every `_the_end`. */
  function RealmBase(name: string): string {
    ReplaceAll(ReplaceAll(Lower(name), "_nether", ""), "_the_end", "")
  }

  /** `sameRealm(worldA, worldB)`, on the two worlds' names. */
  predicate SameRealm(a: string, b: string) {
    Lower(a) == Lower(b) || RealmBase(a) == RealmBase(b)
  }

  /** The early test for equal names is subsumed: two worlds share a realm exactly when their bases agree. */
  lemma SameRealmIff(a: string, b: string)
    ensures SameRealm(a, b) <==> RealmBase(a) == RealmBase(b)
  {
  }

  /** Sharing a realm is an equivalence: reflexive, symmetric and transitive. */
  lemma SameRealmEquivalence(a: string, b: string, c: string)
    ensures SameRealm(a, a)
    ensures SameRealm(a, b) ==> SameRealm(b, a)
    ensures SameRealm(a, b) && SameRealm(b, c) ==> SameRealm(a, c)
  {
    SameRealmIff(a, b);
    SameRealmIff(b, c);
    SameRealmIff(a, c);
  }

  /** Names that differ only in case are in the same realm. */
  lemma SameRealmIgnoresCase(a: string, b: string)
    requires EqualsIgnoreCase(a, b)
    ensures SameRealm(a, b)
  {
  }

  // ---------------------------------------------------------------------
  // Settings in worlds.yml
  // ---------------------------------------------------------------------

  function WorldPath(name: string): string {
    "worlds." + name
  }

  function AutoLoadPath(name: string): string {
    WorldPath(name) + ".autoload"
  }

  function BedRespawnPath(name: string): string {
    WorldPath(name) + ".bedRespawn"
  }

  function GameModePath(name: string): string {
    WorldPath(name) + ".game-mode"
  }

  function LastLocationPath(name: string, uniqueId: string): string {
    WorldPath(name) + ".players." + uniqueId + ".last-location"
  }

  /** A setting path lies below its world's section. */
  lemma SettingUnderWorld(name: string, rest: string)
    ensures Under(WorldPath(name) + "." + rest, WorldPath(name))
  {
    var p := WorldPath(name) + ".";
    assert (p + rest)[..|p|] == p;
    assert WorldPath(name) + "." + rest == p + rest;
  }

  datatype GameMode = SURVIVAL | CREATIVE | ADVENTURE | SPECTATOR

  /** `GameMode.toString()`: the constant's name. */
  function ModeName(m: GameMode): string {
    match m
    case SURVIVAL => "SURVIVAL"
    case CREATIVE => "CREATIVE"
    case ADVENTURE => "ADVENTURE"
    case SPECTATOR => "SPECTATOR"
  }

  /** `GameMode.valueOf(s)`: exact, case-sensitive constant names only. */
  function ModeValueOf(s: string): (r: Result<GameMode>)
    ensures r.Success? ==> ModeName(r.value) == s
    ensures r.Failure? ==> r.error == "IllegalArgumentException"
  {
    if s == "SURVIVAL" then Success(SURVIVAL)
    else if s == "CREATIVE" then Success(CREATIVE)
    else if s == "ADVENTURE" then Success(ADVENTURE)
    else if s == "SPECTATOR" then Success(SPECTATOR)
    else Failure("IllegalArgumentException")
  }

  /** Storing a game mode by name and reading it back gives the same mode. */
  lemma ModeRoundTrip(m: GameMode)
    ensures ModeValueOf(ModeName(m)) == Success(m)
  {
  }

  /**
   * The stored game mode: `None` when unset, a failure when the text of
   * what is stored (a number's or a section's text included) names no mode.
   */
  function StoredGameMode(c: Config, name: string): (r: Result<Option<GameMode>>)
    ensures r == Success(None) <==> Lookup(c, GameModePath(name)).Missing?
    ensures r.Success? && r.value.Some? ==> GetString(c, GameModePath(name)) == Some(ModeName(r.value.value))
    ensures r.Failure? ==> r.error == "IllegalArgumentException"
  {
    match GetString(c, GameModePath(name))
    case None => Success(None)
    case Some(s) =>
      match ModeValueOf(s)
      case Success(m) => Success(Some(m))
      case Failure(e) => Failure(e)
  }

  /** `getLastLocation`: the stored location, read by `stringToLocation`, or else the world's spawn. */
  function LastLocation(c: Config, world: World, player: Player,
                        stringToLocation: (string, World) -> Location): (r: Location)
    ensures Lookup(c, LastLocationPath(world.name, player.uniqueId)).Missing? ==> r == world.spawn
    ensures GetString(c, LastLocationPath(world.name, player.uniqueId)).Some? ==>
            r == stringToLocation(GetString(c, LastLocationPath(world.name, player.uniqueId)).value, world)
  {
    match GetString(c, LastLocationPath(world.name, player.uniqueId))
    case Some(s) => stringToLocation(s, world)
    case None => world.spawn
  }

  /** A section stored where the game mode belongs reads as no mode at all: `valueOf` refuses its text. */
  lemma SectionGameModeThrows(c: Config, name: string)
    requires Lookup(c, GameModePath(name)).Section?
    ensures StoredGameMode(c, name) == Failure("IllegalArgumentException")
  {
    var text := SectionText(GameModePath(name));
    assert text[0] == 'M';
    assert ModeValueOf(text).Failure?;
  }

  /**
   * Clearing a world's section resets every setting to its default: no
   * autoload, bed respawn on, no game mode, and the spawn as last location.
   */
  lemma ClearedWorldHasDefaults(c: Config, world: World, player: Player,
                                stringToLocation: (string, World) -> Location)
    ensures var c' := Unset(c, WorldPath(world.name));
            && GetBoolean(c', AutoLoadPath(world.name), false) == false
            && GetBoolean(c', BedRespawnPath(world.name), true) == true
            && StoredGameMode(c', world.name) == Success(None)
            && LastLocation(c', world, player, stringToLocation) == world.spawn
  {
    var n := world.name;
    SettingUnderWorld(n, "autoload");
    SettingUnderWorld(n, "bedRespawn");
    SettingUnderWorld(n, "game-mode");
    SettingUnderWorld(n, "players." + player.uniqueId + ".last-location");
    assert AutoLoadPath(n) == WorldPath(n) + "." + "autoload";
    assert BedRespawnPath(n) == WorldPath(n) + "." + "bedRespawn";
    assert GameModePath(n) == WorldPath(n) + "." + "game-mode";
    assert LastLocationPath(n, player.uniqueId) == WorldPath(n) + "." + ("players." + player.uniqueId + ".last-location");
    UnsetClearsBelow(c, WorldPath(n), AutoLoadPath(n));
    UnsetClearsBelow(c, WorldPath(n), BedRespawnPath(n));
    UnsetClearsBelow(c, WorldPath(n), GameModePath(n));
    UnsetClearsBelow(c, WorldPath(n), LastLocationPath(n, player.uniqueId));
  }

  // ---------------------------------------------------------------------
  // The unloading list and the world configuration
  // ---------------------------------------------------------------------

  datatype WorldStatus = UNLOADING_WORLD | UNLOADED_WORLD | WORLD_NOT_LOADED | DELETING_WORLD | DELETED_WORLD

  /** What a call reported to its status callback, and the exception it threw, if any. */
  datatype Outcome = Outcome(reports: seq<WorldStatus>, thrown: Option<string>)

  predicate Distinct(s: seq<string>) {
    forall i, j :: 0 <= i < j < |s| ==> s[i] != s[j]
  }

  lemma {:induction false} RemoveFirstDistinct(s: seq<string>, x: string)
    requires Distinct(s)
    ensures x !in RemoveFirst(s, x) && Distinct(RemoveFirst(s, x))
    ensures forall y :: y != x ==> (y in RemoveFirst(s, x) <==> y in s)
  {
    if s != [] {
      var tail := s[1..];
      assert Distinct(tail) by {
        forall i, j | 0 <= i < j < |tail| ensures tail[i] != tail[j] {
          assert tail[i] == s[i + 1] && tail[j] == s[j + 1];
        }
      }
      assert s[0] !in tail by {
        forall j | 0 <= j < |tail| ensures tail[j] != s[0] {
          assert tail[j] == s[j + 1];
        }
      }
      if s[0] != x {
        RemoveFirstDistinct(tail, x);
        var rest := RemoveFirst(tail, x);
        assert RemoveFirst(s, x) == [s[0]] + rest;
        assert s[0] !in rest;
      }
    }
  }

  class Worlds {
    /** The names of the worlds being unloaded. */
    var unloadingList: seq<string>
    /** The contents of `worlds.yml`. */
    var config: Config

    /** A world is never in the unloading list twice. */
    ghost predicate Valid()
      reads this
    {
      Distinct(unloadingList)
    }

    constructor (config: Config)
      ensures Valid() && unloadingList == [] && this.config == config
    {
      unloadingList := [];
      this.config := config;
    }

    /** `isUnloading(name)` */
    predicate IsUnloading(name: string)
      reads this
    {
      name in unloadingList
    }

    /**
     * The synchronous part of `unload(world, save, callback)`; `None` stands
     * for a `null` world. The main world is the first loaded one.
     */
    method Unload(server: Server, world: Option<World>) returns (r: Outcome)
      requires Valid()
      modifies this
      ensures Valid() && config == old(config)
      ensures world.None? ==> r == Outcome([WORLD_NOT_LOADED], None) && unloadingList == old(unloadingList)
      ensures world.Some? && old(IsUnloading(world.value.name)) ==>
                r == Outcome([UNLOADING_WORLD], None) && unloadingList == old(unloadingList)
      ensures world.Some? && !old(IsUnloading(world.value.name)) && server.worlds == [] ==>
                r == Outcome([], Some("NoSuchElementException")) && unloadingList == old(unloadingList)
      ensures world.Some? && !old(IsUnloading(world.value.name)) && server.worlds != [] && server.worlds[0] == world.value ==>
                r == Outcome([], Some("MainWorldUnloadException")) && unloadingList == old(unloadingList)
      ensures world.Some? && !old(IsUnloading(world.value.name)) && server.worlds != [] && server.worlds[0] != world.value ==>
                r == Outcome([UNLOADING_WORLD], None) && unloadingList == old(unloadingList) + [world.value.name]
      ensures r.thrown.None? && world.Some? ==> IsUnloading(world.value.name)
    {
      if world.None? {
        return Outcome([WORLD_NOT_LOADED], None);
      }
      var name := world.value.name;
      if name in unloadingList {
        return Outcome([UNLOADING_WORLD], None);
      }
      if server.worlds == [] {
        return Outcome([], Some("NoSuchElementException"));
      }
      if server.worlds[0] == world.value {
        return Outcome([], Some("MainWorldUnloadException"));
      }
      unloadingList := unloadingList + [name];
      return Outcome([UNLOADING_WORLD], None);
    }

    /** The scheduled step once the server has dropped the world: its name leaves the list. */
    method Unloaded(name: string)
      requires Valid()
      modifies this
      ensures Valid() && config == old(config)
      ensures unloadingList == RemoveFirst(old(unloadingList), name)
      ensures !IsUnloading(name)
      ensures forall other :: other != name ==> (IsUnloading(other) <==> old(IsUnloading(other)))
    {
      RemoveFirstDistinct(unloadingList, name);
      unloadingList := RemoveFirst(unloadingList, name);
    }

    /**
     * The synchronous part of `delete(world, callback)`: the main world is
     * refused; any other world loses its settings, then is unloaded.
     */
    method Delete(server: Server, world: Option<World>) returns (r: Outcome)
      requires Valid()
      modifies this
      ensures Valid()
      ensures world.None? ==> r == Outcome([DELETED_WORLD], None) && unchanged(this)
      ensures world.Some? && server.worlds == [] ==> r.thrown == Some("NoSuchElementException") && unchanged(this)
      ensures world.Some? && server.worlds != [] && server.worlds[0] == world.value ==>
                r == Outcome([], Some("MainWorldDeletionException")) && unchanged(this)
      ensures world.Some? && server.worlds != [] && server.worlds[0] != world.value ==>
                && config == Unset(old(config), WorldPath(world.value.name))
                && r == Outcome([UNLOADING_WORLD], None)
                && IsUnloading(world.value.name)
                && unloadingList == old(unloadingList) + (if old(IsUnloading(world.value.name)) then [] else [world.value.name])
    {
      if world.None? {
        return Outcome([DELETED_WORLD], None);
      }
      if server.worlds == [] {
        return Outcome([], Some("NoSuchElementException"));
      }
      if server.worlds[0] == world.value {
        return Outcome([], Some("MainWorldDeletionException"));
      }
      config := Unset(config, WorldPath(world.value.name));
      r := Unload(server, world);
    }

    /** `autoLoad(name, value)`: stores the value when one is given, then reads the setting (default off). */
    method AutoLoad(name: string, value: Option<bool>) returns (r: bool)
      modifies this
      ensures unloadingList == old(unloadingList)
      ensures value.Some? ==> r == value.value && config == Set(old(config), AutoLoadPath(name), Flag(value.value))
      ensures value.None? ==> r == GetBoolean(config, AutoLoadPath(name), false) && config == old(config)
      ensures AutoLoadPath(name) !in old(config) && value.None? ==> r == false
    {
      if value.Some? {
        config := Set(config, AutoLoadPath(name), Flag(value.value));
      }
      r := GetBoolean(config, AutoLoadPath(name), false);
    }

    /** `bedRespawn(world, value)`: as `AutoLoad`, but the setting defaults to on. */
    method BedRespawn(world: World, value: Option<bool>) returns (r: bool)
      modifies this
      ensures unloadingList == old(unloadingList)
      ensures value.Some? ==> r == value.value && config == Set(old(config), BedRespawnPath(world.name), Flag(value.value))
      ensures value.None? ==> r == GetBoolean(config, BedRespawnPath(world.name), true) && config == old(config)
      ensures BedRespawnPath(world.name) !in old(config) && value.None? ==> r == true
    {
      if value.Some? {
        config := Set(config, BedRespawnPath(world.name), Flag(value.value));
      }
      r := GetBoolean(config, BedRespawnPath(world.name), true);
    }

    /** `gameMode(world, value)`: stores the mode's name when one is given, then reads it back. */
    method GameModeSetting(world: World, value: Option<GameMode>) returns (r: Result<Option<GameMode>>)
      modifies this
      ensures unloadingList == old(unloadingList)
      ensures value.Some? ==> (r == Success(Some(value.value))
                               && config == Set(old(config), GameModePath(world.name), Text(ModeName(value.value))))
      ensures value.None? ==> r == StoredGameMode(config, world.name) && config == old(config)
    {
      if value.Some? {
        config := Set(config, GameModePath(world.name), Text(ModeName(value.value)));
        ModeRoundTrip(value.value);
      }
      r := StoredGameMode(config, world.name);
    }

    /** `getLastLocation(world, player)` */
    function GetLastLocation(world: World, player: Player,
                             stringToLocation: (string, World) -> Location): Location
      reads this
    {
      LastLocation(config, world, player, stringToLocation)
    }
  }
}
