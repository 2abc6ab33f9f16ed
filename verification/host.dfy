/**
 * What the game server reports to the plugin, reduced to plain values: the
 * online players, the loaded worlds (the first one is the main world) and
 * the folders on disk that hold a loadable world.
 */
module Host {
  import opened JString

  datatype Location = Location(world: string, x: real, y: real, z: real)

  datatype World = World(name: string, spawn: Location)

  /** An online player and the loaded world the player is in. */
  datatype Player = Player(name: string, uniqueId: string, world: World)

  datatype Server = Server(onlinePlayers: seq<Player>, worlds: seq<World>, worldFolders: seq<string>)

  /** Who ran a command: the console or a player. */
  datatype Sender = Console | PlayerSender(player: Player)

  /**
   * The loaded world of exactly this name. `Bukkit.getWorld(name)` also
   * matches a name differing only in case; every use here follows the
   * exact-name `IsLoaded` test.
   */
  function LoadedWorld(s: Server, name: string): (r: Option<World>)
    ensures r.Some? <==> name in WorldNames(s)
    ensures r.Some? ==> r.value in s.worlds && r.value.name == name
  {
    LoadedWorldIn(s.worlds, name)
  }

  function LoadedWorldIn(worlds: seq<World>, name: string): (r: Option<World>)
    ensures r.Some? <==> exists i :: 0 <= i < |worlds| && worlds[i].name == name
    ensures r.Some? ==> r.value in worlds && r.value.name == name
  {
    if worlds == [] then None
    else if worlds[0].name == name then Some(worlds[0])
    else LoadedWorldIn(worlds[1..], name)
  }

  /** `SCWorld.isLoaded(name)` */
  predicate IsLoaded(s: Server, name: string) {
    name in WorldNames(s)
  }

  /** `SCWorld.exists(name)`: loaded, or a loadable folder of that name. */
  predicate WorldExists(s: Server, name: string) {
    name in WorldNames(s) || name in s.worldFolders
  }

  /** A completion supplier is asked for its list each time it is used. */
  type Supplier = Server -> seq<string>

  function PlayerNames(s: Server): (r: seq<string>)
    ensures |r| == |s.onlinePlayers|
    ensures forall i :: 0 <= i < |r| ==> r[i] == s.onlinePlayers[i].name
  {
    seq(|s.onlinePlayers|, i requires 0 <= i < |s.onlinePlayers| => s.onlinePlayers[i].name)
  }

  function WorldNames(s: Server): (r: seq<string>)
    ensures |r| == |s.worlds|
    ensures forall i :: 0 <= i < |r| ==> r[i] == s.worlds[i].name
  {
    seq(|s.worlds|, i requires 0 <= i < |s.worlds| => s.worlds[i].name)
  }
}
