/**
 * The plugin-wide completion registry (`SCTabCompletion`): placeholder names
 * mapped to suppliers of completion words. Names are stored lowercased on
 * registration, but `List` looks its key up exactly as given.
 */
module SCTabCompletion {
  import opened JString
  import opened Host

  class Registry {
    var completions: map<string, Supplier>

    /** Every stored name is lowercase. */
    ghost predicate Valid()
      reads this
    {
      forall k :: k in completions ==> IsLowerCase(k)
    }

    /** The static map starts out empty. */
    constructor ()
      ensures Valid() && completions == map[]
    {
      completions := map[];
    }

    /** `register(name, Supplier)`: a later registration of the same name replaces the earlier one. */
    method Register(name: string, supplier: Supplier)
      requires Valid()
      modifies this
      ensures Valid()
      ensures completions == old(completions)[Lower(name) := supplier]
      ensures Exists(name)
    {
      LowerIsLowerCase(name);
      completions := completions[Lower(name) := supplier];
    }

    /** `register(name, List<String>)` and `register(name, String...)`: a fixed list. */
    method RegisterList(name: string, items: seq<string>)
      requires Valid()
      modifies this
      ensures Valid()
      ensures completions.Keys == old(completions).Keys + {Lower(name)}
      ensures forall k :: k in old(completions) && k != Lower(name) ==> completions[k] == old(completions)[k]
      ensures forall s: Server :: List(Lower(name), s) == items
    {
      Register(name, (s: Server) => items);
    }

    predicate Exists(name: string)
      reads this
    {
      Lower(name) in completions
    }

    /** Two names that differ only in case are registered together or not at all. */
    lemma ExistsIgnoresCase(a: string, b: string)
      requires EqualsIgnoreCase(a, b)
      ensures Exists(a) <==> Exists(b)
    {
    }

    /** `unregister(name)`: removes the lowercased name and nothing else. */
    method Unregister(name: string)
      requires Valid()
      modifies this
      ensures Valid()
      ensures completions == old(completions) - {Lower(name)}
      ensures !Exists(name)
    {
      completions := completions - {Lower(name)};
    }

    function Keys(): (r: set<string>)
      reads this
      requires Valid()
      ensures forall k :: k in r ==> IsLowerCase(k)
    {
      completions.Keys
    }

    /** `list(key)`: the supplier's list on an exact hit, an empty list otherwise. */
    function List(key: string, server: Server): seq<string>
      reads this
    {
      if key in completions then completions[key](server) else []
    }

    /** Every list evaluated against one server state: what a completion run sees. */
    function Snapshot(server: Server): (r: map<string, seq<string>>)
      reads this
      ensures r.Keys == completions.Keys
      ensures forall k :: List(k, server) == (if k in r then r[k] else [])
    {
      map k | k in completions :: completions[k](server)
    }

    /** A key with an upper-case letter is never found, even if registered under another casing. */
    lemma ListMissesUpperCaseKey(key: string, server: Server)
      requires Valid() && !IsLowerCase(key)
      ensures List(key, server) == []
    {
    }
  }

  /**
   * The registrations made when the plugin is enabled: online players,
   * loaded worlds, world folders that are not loaded, and the four game modes.
   */
  method RegisterDefaults(r: Registry)
    requires r.Valid()
    modifies r
    ensures r.Valid()
    ensures r.completions == old(r.completions)["player" := PlayerNames]["world" := WorldNames]
                             ["offline-world" := OfflineWorlds]["gamemode" := GameModes]
  {
    PlayerIsLowerCase(); WorldIsLowerCase(); OfflineWorldIsLowerCase(); GameModeIsLowerCase();
    r.Register("player", PlayerNames);
    r.Register("world", WorldNames);
    r.Register("offline-world", OfflineWorlds);
    r.Register("gamemode", GameModes);
  }

  // The four default names are already lowercase, so registration keeps them as written.
  lemma PlayerIsLowerCase() ensures Lower("player") == "player" {
    var s := "player";
    forall i | 0 <= i < |s| ensures !IsUpperAscii(s[i]) { }
    LowerOfLowerCase(s);
  }
  lemma WorldIsLowerCase() ensures Lower("world") == "world" {
    var s := "world";
    forall i | 0 <= i < |s| ensures !IsUpperAscii(s[i]) { }
    LowerOfLowerCase(s);
  }
  lemma OfflineWorldIsLowerCase() ensures Lower("offline-world") == "offline-world" {
    var s := "offline-world";
    forall i | 0 <= i < |s| ensures !IsUpperAscii(s[i]) { }
    LowerOfLowerCase(s);
  }
  lemma GameModeIsLowerCase() ensures Lower("gamemode") == "gamemode" {
    var s := "gamemode";
    forall i | 0 <= i < |s| ensures !IsUpperAscii(s[i]) { }
    LowerOfLowerCase(s);
  }

  function GameModes(s: Server): seq<string> {
    ["survival", "creative", "adventure", "spectator"]
  }

  /** World folders on disk whose name no loaded world has, in folder order. */
  function OfflineWorlds(s: Server): (r: seq<string>)
    ensures forall x :: x in r <==> x in s.worldFolders && x !in WorldNames(s)
  {
    Offline(s.worldFolders, WorldNames(s))
  }

  function Offline(folders: seq<string>, loaded: seq<string>): (r: seq<string>)
    ensures forall x :: x in r <==> x in folders && x !in loaded
  {
    if folders == [] then []
    else (if folders[0] in loaded then [] else [folders[0]]) + Offline(folders[1..], loaded)
  }
}
