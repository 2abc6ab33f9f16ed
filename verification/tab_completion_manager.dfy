/**
 * `TabCompletionManager`: the per-library completion registry. Its
 * `register`, `exists`, `unregister`, `keys` and `list` are the same
 * operations as those of the plugin-wide registry, so it is the same
 * `Registry` class; what differs is that a new manager starts with the
 * online players and the loaded worlds registered.
 */
module TabCompletionManager {
  import opened JString
  import opened Host
  import opened SCTabCompletion

  method NewManager() returns (m: Registry)
    ensures fresh(m) && m.Valid()
    ensures m.completions == map["player" := PlayerNames, "world" := WorldNames]
    ensures m.Exists("player") && m.Exists("world")
  {
    m := new Registry();
    PlayerIsLowerCase();
    WorldIsLowerCase();
    m.Register("player", PlayerNames);
    m.Register("world", WorldNames);
  }

  /** A fresh manager offers the online players' names for `{player}` and the loaded worlds' for `{world}`. */
  lemma NewManagerLists(m: Registry, s: Server)
    requires m.completions == map["player" := PlayerNames, "world" := WorldNames]
    ensures m.List("player", s) == PlayerNames(s)
    ensures m.List("world", s) == WorldNames(s)
    ensures forall k :: k != "player" && k != "world" ==> m.List(k, s) == []
  {
  }
}
