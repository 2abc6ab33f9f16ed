/**
 * `com.stemcraft.STEMCraftCommand`: a command's tab-completion patterns,
 * completed against the plugin-wide registry.
 */
module STEMCraftCommand {
  import opened Host
  import opened SCTabCompletion
  import opened TabCompleteParser

  class Command {
    var tabCompletionList: seq<seq<string>>

    constructor ()
      ensures tabCompletionList == []
    {
      tabCompletionList := [];
    }

    /** `addTabCompletion`: one more pattern, tried after the earlier ones. */
    method AddTabCompletion(items: seq<string>)
      modifies this
      ensures tabCompletionList == old(tabCompletionList) + [items]
    {
      tabCompletionList := tabCompletionList + [items];
    }

    /**
     * `onTabComplete`: the typed words (at least one, the last being the word
     * under completion) against every pattern, with placeholders looked up in
     * the registry as the server stands now.
     */
    method OnTabComplete(args: seq<string>, registry: Registry, server: Server) returns (r: seq<string>)
      requires |args| >= 1
      ensures r == TabComplete(tabCompletionList, args, registry.Snapshot(server))
    {
      r := Complete(tabCompletionList, args, registry.Snapshot(server));
    }
  }
}
