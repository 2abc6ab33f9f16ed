/**
 * `com.stemcraft.common.STEMCraftCommand`: the same tab completion, with
 * placeholders looked up in the library's `TabCompletionManager` instead of
 * the plugin-wide registry.
 */
module CommonSTEMCraftCommand {
  import opened Host
  import opened SCTabCompletion
  import opened TabCompleteParser

  class Command {
    var tabCompletionList: seq<seq<string>>
    /**
     * The library's completion manager (`lib.getTabCompletionManager()`). In
     * Java `lib` is a static field shared by every command; here each command
     * holds the manager it was built with.
     */
    const manager: Registry

    constructor (manager: Registry)
      ensures tabCompletionList == [] && this.manager == manager
    {
      this.manager := manager;
      tabCompletionList := [];
    }

    method AddTabCompletion(items: seq<string>)
      modifies this
      ensures tabCompletionList == old(tabCompletionList) + [items]
    {
      tabCompletionList := tabCompletionList + [items];
    }

    method OnTabComplete(args: seq<string>, server: Server) returns (r: seq<string>)
      requires |args| >= 1
      ensures r == TabComplete(tabCompletionList, args, manager.Snapshot(server))
    {
      r := Complete(tabCompletionList, args, manager.Snapshot(server));
    }
  }
}
