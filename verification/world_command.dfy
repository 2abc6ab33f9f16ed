/**
 * The `/world` command: which sub-command a first word selects, how
 * `create` reads `<name>:[generator]:[arguments] [seed]`, how `autosave`,
 * `bedrespawn` and `gamemode` tell a keyword from a world name and settle
 * on the world they act on, and the rows of the world list with the actions
 * offered for each world.
 *
 * Handlers end in a reply to the sender. A reply is produced by filling the
 * `{key}` placeholders of a fixed template; a `null` value makes Java's
 * `String.replace` throw, which is reported as `Threw`.
 */
module WorldCommand {
  import opened JString
  import opened Host
  import SCWorld
  import SCString
  import Config

  // ---------------------------------------------------------------------
  // execute: sub-command dispatch
  // ---------------------------------------------------------------------

  datatype SubCommand =
    | Create | Delete | Load | Unload | List | Teleport | Spawn | SetSpawn
    | Copy | Autosave | Save | BedRespawn | GameModeCmd | ListGenerators
    | Usage

  const USAGE: string := "Usage: /world <create|delete|load|unload|list|spawn> [args]"

  /** The lower-case word that selects a sub-command. */
  function Word(c: SubCommand): (r: string)
    requires c != Usage
    ensures |r| > 0
  {
    match c
    case Create => "create"
    case Delete => "delete"
    case Load => "load"
    case Unload => "unload"
    case List => "list"
    case Teleport => "teleport"
    case Spawn => "spawn"
    case SetSpawn => "setspawn"
    case Copy => "copy"
    case Autosave => "autosave"
    case Save => "save"
    case BedRespawn => "bedrespawn"
    case GameModeCmd => "gamemode"
    case ListGenerators => "listgenerators"
  }

  /** The `switch` on a lower-cased word; anything else is `default`. */
  function SubCommandOf(word: string): SubCommand {
    if word == "create" then Create
    else if word == "delete" then Delete
    else if word == "load" then Load
    else if word == "unload" then Unload
    else if word == "list" then List
    else if word == "teleport" then Teleport
    else if word == "spawn" then Spawn
    else if word == "setspawn" then SetSpawn
    else if word == "copy" then Copy
    else if word == "autosave" then Autosave
    else if word == "save" then Save
    else if word == "bedrespawn" then BedRespawn
    else if word == "gamemode" then GameModeCmd
    else if word == "listgenerators" then ListGenerators
    else Usage
  }

  /** The `switch` of `execute`: the sub-command run for the words typed after `/world`. */
  function Dispatch(args: seq<string>): SubCommand {
    if args == [] then Usage else SubCommandOf(Lower(args[0]))
  }

  const PERMISSION: string := "stemcraft.world"
  const NO_PERMISSION: string := "You do not have permission to use this command."

  /** A sender without the permission is answered and nothing runs; otherwise a sub-command runs. */
  datatype Outcome = Refused(reply: string) | Run(sub: SubCommand)

  /**
   * `execute(sender, command, args)`. `hasPermission` is the sender's
   * `hasPermission`: without `stemcraft.world` the sender is told so and
   * the words are not looked at.
   */
  function Execute(hasPermission: string -> bool, args: seq<string>): (r: Outcome)
    ensures r.Refused? <==> !hasPermission(PERMISSION)
    ensures r.Refused? ==> r.reply == NO_PERMISSION
  {
    if !hasPermission(PERMISSION) then Refused(NO_PERMISSION) else Run(Dispatch(args))
  }

  lemma SelectsCreate()
    ensures SubCommandOf("create") == Create && IsLowerCase("create")
  {
    assert IsLowerCase("create") by {
      var s := "create";
      forall i | 0 <= i < |s| ensures !IsUpperAscii(s[i]) { }
    }
  }

  lemma SelectsDelete()
    ensures SubCommandOf("delete") == Delete && IsLowerCase("delete")
  {
    assert IsLowerCase("delete") by {
      var s := "delete";
      forall i | 0 <= i < |s| ensures !IsUpperAscii(s[i]) { }
    }
  }

  lemma SelectsLoad()
    ensures SubCommandOf("load") == Load && IsLowerCase("load")
  {
    assert IsLowerCase("load") by {
      var s := "load";
      forall i | 0 <= i < |s| ensures !IsUpperAscii(s[i]) { }
    }
  }

  lemma SelectsUnload()
    ensures SubCommandOf("unload") == Unload && IsLowerCase("unload")
  {
    assert IsLowerCase("unload") by {
      var s := "unload";
      forall i | 0 <= i < |s| ensures !IsUpperAscii(s[i]) { }
    }
  }

  lemma SelectsList()
    ensures SubCommandOf("list") == List && IsLowerCase("list")
  {
    assert IsLowerCase("list") by {
      var s := "list";
      forall i | 0 <= i < |s| ensures !IsUpperAscii(s[i]) { }
    }
  }

  lemma SelectsTeleport()
    ensures SubCommandOf("teleport") == Teleport && IsLowerCase("teleport")
  {
    assert IsLowerCase("teleport") by {
      var s := "teleport";
      forall i | 0 <= i < |s| ensures !IsUpperAscii(s[i]) { }
    }
  }

  lemma SelectsSpawn()
    ensures SubCommandOf("spawn") == Spawn && IsLowerCase("spawn")
  {
    assert IsLowerCase("spawn") by {
      var s := "spawn";
      forall i | 0 <= i < |s| ensures !IsUpperAscii(s[i]) { }
    }
  }

  lemma SelectsSetSpawn()
    ensures SubCommandOf("setspawn") == SetSpawn && IsLowerCase("setspawn")
  {
    assert IsLowerCase("setspawn") by {
      var s := "setspawn";
      forall i | 0 <= i < |s| ensures !IsUpperAscii(s[i]) { }
    }
  }

  lemma SelectsCopy()
    ensures SubCommandOf("copy") == Copy && IsLowerCase("copy")
  {
    assert IsLowerCase("copy") by {
      var s := "copy";
      forall i | 0 <= i < |s| ensures !IsUpperAscii(s[i]) { }
    }
  }

  lemma SelectsAutosave()
    ensures SubCommandOf("autosave") == Autosave && IsLowerCase("autosave")
  {
    assert IsLowerCase("autosave") by {
      var s := "autosave";
      forall i | 0 <= i < |s| ensures !IsUpperAscii(s[i]) { }
    }
  }

  lemma SelectsSave()
    ensures SubCommandOf("save") == Save && IsLowerCase("save")
  {
    assert IsLowerCase("save") by {
      var s := "save";
      forall i | 0 <= i < |s| ensures !IsUpperAscii(s[i]) { }
    }
  }

  lemma SelectsBedRespawn()
    ensures SubCommandOf("bedrespawn") == BedRespawn && IsLowerCase("bedrespawn")
  {
    assert IsLowerCase("bedrespawn") by {
      var s := "bedrespawn";
      forall i | 0 <= i < |s| ensures !IsUpperAscii(s[i]) { }
    }
  }

  lemma SelectsGameModeCmd()
    ensures SubCommandOf("gamemode") == GameModeCmd && IsLowerCase("gamemode")
  {
    assert IsLowerCase("gamemode") by {
      var s := "gamemode";
      forall i | 0 <= i < |s| ensures !IsUpperAscii(s[i]) { }
    }
  }

  lemma SelectsListGenerators()
    ensures SubCommandOf("listgenerators") == ListGenerators && IsLowerCase("listgenerators")
  {
    assert IsLowerCase("listgenerators") by {
      var s := "listgenerators";
      forall i | 0 <= i < |s| ensures !IsUpperAscii(s[i]) { }
    }
  }

  /** `Word` and `SubCommandOf` are inverse: each word selects its sub-command, and only words select one. */
  lemma WordSelects(c: SubCommand)
    requires c != Usage
    ensures SubCommandOf(Word(c)) == c && IsLowerCase(Word(c))
  {
    match c
    case Create => SelectsCreate();
    case Delete => SelectsDelete();
    case Load => SelectsLoad();
    case Unload => SelectsUnload();
    case List => SelectsList();
    case Teleport => SelectsTeleport();
    case Spawn => SelectsSpawn();
    case SetSpawn => SelectsSetSpawn();
    case Copy => SelectsCopy();
    case Autosave => SelectsAutosave();
    case Save => SelectsSave();
    case BedRespawn => SelectsBedRespawn();
    case GameModeCmd => SelectsGameModeCmd();
    case ListGenerators => SelectsListGenerators();
  }

  lemma SelectedByWord(word: string)
    ensures SubCommandOf(word) != Usage ==> Word(SubCommandOf(word)) == word
  {
    if word == "create" {
    } else if word == "delete" {
    } else if word == "load" {
    } else if word == "unload" {
    } else if word == "list" {
    } else if word == "teleport" {
    } else if word == "spawn" {
    } else if word == "setspawn" {
    } else if word == "copy" {
    } else if word == "autosave" {
    } else if word == "save" {
    } else if word == "bedrespawn" {
    } else if word == "gamemode" {
    } else if word == "listgenerators" {
    } else {
      assert SubCommandOf(word) == Usage;
    }
  }

  /** Every sub-command is selected by its word, whatever its case, and runs exactly for a permitted sender. */
  lemma DispatchWord(c: SubCommand, typed: string, rest: seq<string>, hasPermission: string -> bool)
    requires c != Usage && EqualsIgnoreCase(typed, Word(c))
    ensures Dispatch([typed] + rest) == c
    ensures Execute(hasPermission, [typed] + rest) == Run(c) <==> hasPermission(PERMISSION)
  {
    WordSelects(c);
    LowerOfLowerCase(Word(c));
    assert ([typed] + rest)[0] == typed;
  }

  /** The usage message answers exactly the empty command and the words that select nothing. */
  lemma DispatchUsage(args: seq<string>, hasPermission: string -> bool)
    ensures Dispatch(args) == Usage <==> args == [] || forall c :: c != Usage ==> Lower(args[0]) != Word(c)
    ensures Execute(hasPermission, args) == Run(Usage)
            <==> hasPermission(PERMISSION) && (args == [] || forall c :: c != Usage ==> Lower(args[0]) != Word(c))
  {
    if args != [] {
      var w := Lower(args[0]);
      SelectedByWord(w);
      if SubCommandOf(w) == Usage {
        forall c | c != Usage ensures w != Word(c) {
          WordSelects(c);
        }
      }
    }
  }

  // ---------------------------------------------------------------------
  // replies
  // ---------------------------------------------------------------------

  /** What the sender is told: `message`, `error`, or the exception the reply throws. */
  datatype Reply = Message(text: string) | Error(text: string) | Threw(exception: string)

  /**
   * `message(sender, template, "name", name, more...)`, or `error(...)` when
   * `isError`: a `null` name makes the placeholder replacement throw.
   */
  function Say(isError: bool, template: string, name: Option<string>, more: seq<string>): (r: Reply)
    requires |more| % 2 == 0
    ensures name.None? <==> r == Threw("NullPointerException")
    ensures name.Some? && isError ==> r == Error(SCString.Substitute(template, ["name", name.value] + more))
    ensures name.Some? && !isError ==> r == Message(SCString.Substitute(template, ["name", name.value] + more))
  {
    if name.None? then Threw("NullPointerException")
    else
      var text := SCString.Substitute(template, ["name", name.value] + more);
      if isError then Error(text) else Message(text)
  }

  // ---------------------------------------------------------------------
  // create
  // ---------------------------------------------------------------------

  /** `<name>:[generator]:[arguments]`; a missing generator is `null`, missing arguments are `""`. */
  datatype WorldSpec = WorldSpec(name: string, generator: Option<string>, settings: string)

  /**
   * `args.get(1).split(":")` read as name, generator and settings. Java's
   * split drops trailing empty parts, so a text made only of `:` gives no
   * part at all and `nameParts[0]` throws.
   */
  function ParseWorldSpec(arg: string): (r: Result<WorldSpec>)
    ensures r.Failure? <==> |arg| > 0 && AllEqual(arg, ':')
    ensures r.Failure? ==> r.error == "ArrayIndexOutOfBoundsException"
    ensures ':' !in arg ==> r == Success(WorldSpec(arg, None, ""))
    ensures r.Success? ==> ':' !in r.value.name && ':' !in r.value.settings
  {
    JavaSplitEmpty(arg, ':');
    SplitAllPiecesFree(arg, ':');
    var parts := JavaSplit(arg, ':');
    if parts == [] then Failure("ArrayIndexOutOfBoundsException")
    else
      Success(WorldSpec(parts[0],
                        if |parts| > 1 then Some(parts[1]) else None,
                        if |parts| > 2 then parts[2] else ""))
  }

  lemma SplitThree(name: string, generator: string, settings: string)
    requires ':' !in name && ':' !in generator && ':' !in settings
    ensures var parts := SplitAll(name + [':'] + (generator + [':'] + settings), ':');
            |parts| == 3 && parts[0] == name && parts[1] == generator && parts[2] == settings
  {
    SplitAllAtFirst(name, generator + [':'] + settings, ':');
    SplitAllAtFirst(generator, settings, ':');
    SplitAllNoSep(settings, ':');
  }

  /** Name, generator and settings written out with `:` are read back. */
  lemma ParseWorldSpecRoundTrip(name: string, generator: string, settings: string)
    requires ':' !in name && ':' !in generator && ':' !in settings && settings != []
    ensures ParseWorldSpec(name + ":" + generator + ":" + settings)
            == Success(WorldSpec(name, Some(generator), settings))
  {
    var s := name + ":" + generator + ":" + settings;
    assert s == name + [':'] + (generator + [':'] + settings);
    SplitThree(name, generator, settings);
    assert s[|name|] == ':';
    var parts := SplitAll(s, ':');
    assert DropTrailingEmpty(parts) == parts;
    assert JavaSplit(s, ':') == parts;
  }

  lemma DropTwoEmpty(parts: seq<string>)
    requires |parts| == 3 && parts[0] != [] && parts[1] == [] && parts[2] == []
    ensures DropTrailingEmpty(parts) == [parts[0]]
  {
    assert parts[..2][..1] == [parts[0]];
  }

  /** A lone `:` splits into two empty pieces. */
  lemma SplitColon()
    ensures var t := SplitAll([':'], ':'); |t| == 2 && t[0] == [] && t[1] == []
  {
    var colon: string := [':'];
    var empty: string := [];
    assert colon == empty + colon + empty;
    SplitAllAtFirst(empty, empty, ':');
  }

  lemma {:induction false} SplitTrailingColons(name: string)
    requires ':' !in name && name != []
    ensures JavaSplit(name + "::", ':') == [name]
  {
    var s := name + "::";
    var colon: string := [':'];
    assert s == name + colon + colon;
    SplitAllAtFirst(name, colon, ':');
    SplitColon();
    var parts := SplitAll(s, ':');
    assert parts == [name] + SplitAll(colon, ':');
    DropTwoEmpty(parts);
    assert s[|name|] == ':';
  }

  /** Trailing colons add nothing: `lobby::` names no generator. */
  lemma TrailingColonsIgnored(name: string)
    requires ':' !in name && name != []
    ensures ParseWorldSpec(name + "::") == Success(WorldSpec(name, None, ""))
  {
    SplitTrailingColons(name);
  }

  datatype CreateOutcome =
    | CreateUsage
    | CreateThrew(exception: string)
    | BadSeed
    | AlreadyExists(name: string)
    | Creating(spec: WorldSpec, seed: Option<int>)

  /**
   * `executeCreate(sender, args)` up to the call of `SCWorld.create`, which
   * `Creating` stands for. `parseLong` is `Long.parseLong`, `None` where it
   * throws `NumberFormatException`.
   */
  function ExecuteCreate(args: seq<string>, server: Server, parseLong: string -> Option<int>): (r: CreateOutcome)
    ensures |args| < 2 <==> r == CreateUsage
    ensures |args| >= 2 ==> (r.CreateThrew? <==> ParseWorldSpec(args[1]).Failure?)
    ensures r == BadSeed <==> (|args| > 2 && ParseWorldSpec(args[1]).Success? && parseLong(args[2]).None?)
    ensures r.Creating? ==> Success(r.spec) == ParseWorldSpec(args[1]) && !WorldExists(server, r.spec.name)
    ensures r.Creating? ==> (r.seed.Some? <==> |args| > 2) && (r.seed.Some? ==> r.seed == parseLong(args[2]))
    ensures r.AlreadyExists? ==> WorldExists(server, r.name)
  {
    if |args| < 2 then CreateUsage
    else match ParseWorldSpec(args[1])
      case Failure(e) => CreateThrew(e)
      case Success(spec) =>
        if |args| > 2 && parseLong(args[2]).None? then BadSeed
        else
          var seed := if |args| > 2 then parseLong(args[2]) else None;
          if WorldExists(server, spec.name) then AlreadyExists(spec.name)
          else Creating(spec, seed)
  }

  // ---------------------------------------------------------------------
  // autosave, bedrespawn, gamemode: reading the arguments
  // ---------------------------------------------------------------------

  const STATUS_WORDS: set<string> := {"enabled", "disabled"}
  const MODE_WORDS: set<string> := {"survival", "creative", "adventure", "spectator"}

  /** The keyword (status or game mode) and the world name the arguments give, `null` as `None`. */
  datatype Classified = Classified(keyword: Option<string>, worldName: Option<string>)

  /**
   * Nothing is read unless there are more than `threshold` words. Then a
   * keyword in `args[1]` (ignoring case) is taken with an optional world in
   * `args[2]`, which is read only when there are more than `threshold + 1`
   * words; any other `args[1]` is the world.
   */
  function Classify(args: seq<string>, threshold: nat, keywords: set<string>): (r: Classified)
    requires threshold >= 1
    ensures |args| <= threshold ==> r == Classified(None, None)
    ensures r.keyword.Some? ==> r.keyword.value == args[1] && Lower(args[1]) in keywords
    ensures r.worldName.Some? && r.keyword.None? ==> r.worldName.value == args[1] && Lower(args[1]) !in keywords
    ensures r.worldName.Some? && r.keyword.Some? ==> |args| > 2 && r.worldName.value == args[2]
  {
    if |args| > threshold then
      var arg := args[1];
      if Lower(arg) in keywords then
        Classified(Some(arg), if |args| > threshold + 1 then Some(args[2]) else None)
      else
        Classified(None, Some(arg))
    else
      Classified(None, None)
  }

  /** The words of `/world <sub> [keyword] [world]`. */
  function Typed(sub: string, keyword: Option<string>, worldName: Option<string>): (r: seq<string>)
    ensures |r| >= 1 && r[0] == sub
  {
    [sub] + (if keyword.Some? then [keyword.value] else []) + (if worldName.Some? then [worldName.value] else [])
  }

  /**
   * Reading the arguments after one word of sub-command (threshold 1) gives
   * back the keyword and world that were typed, in every documented form;
   * only a world that is itself spelled like a keyword is ambiguous.
   */
  lemma ClassifyRoundTrip(sub: string, keyword: Option<string>, worldName: Option<string>, keywords: set<string>)
    requires keyword.Some? ==> Lower(keyword.value) in keywords
    requires keyword.None? && worldName.Some? ==> Lower(worldName.value) !in keywords
    ensures Classify(Typed(sub, keyword, worldName), 1, keywords) == Classified(keyword, worldName)
  {
  }

  /**
   * `executeAutosave` and `executeBedRespawn` read with threshold 2: a
   * status followed by a world loses the world, and a world alone or a
   * status alone is not read at all.
   */
  lemma AsWrittenMisreadsArguments(keywords: set<string>)
    requires "enabled" in keywords && "lobby" !in keywords
    ensures Classify(["autosave", "enabled", "lobby"], 2, keywords) == Classified(Some("enabled"), None)
    ensures Classify(["autosave", "lobby"], 2, keywords) == Classified(None, None)
    ensures Classify(["autosave", "enabled"], 2, keywords) == Classified(None, None)
  {
    assert Lower("enabled") == "enabled";
  }

  // ---------------------------------------------------------------------
  // settling on the world
  // ---------------------------------------------------------------------

  const CONSOLE_NEEDS_WORLD: string := "A world name is required when using this command from console."
  const NO_SUCH_WORLD: string := "The world {name} does not exist."
  const WORLD_NOT_LOADED: string := "The world {name} is not loaded."

  /** The world a handler acts on, or the reply that ends it early. */
  datatype Target = Found(world: World) | Ended(reply: Reply)

  /**
   * A named world must exist and be loaded; without a name a player acts on
   * the world the player is in and the console is refused. `Bukkit.getWorld`
   * finds every loaded world, so the "Failed to find world" error cannot
   * occur.
   */
  function ResolveTarget(server: Server, sender: Sender, worldName: Option<string>): (r: Target)
    ensures worldName.Some? && !WorldExists(server, worldName.value)
            ==> r == Ended(Error(SCString.Substitute(NO_SUCH_WORLD, ["name", worldName.value])))
    ensures worldName.Some? && WorldExists(server, worldName.value) && !IsLoaded(server, worldName.value)
            ==> r == Ended(Error(SCString.Substitute(WORLD_NOT_LOADED, ["name", worldName.value])))
    ensures worldName.Some? && IsLoaded(server, worldName.value)
            ==> r.Found? && r.world in server.worlds && r.world.name == worldName.value
    ensures worldName.None? && sender.Console? ==> r == Ended(Message(CONSOLE_NEEDS_WORLD))
    ensures worldName.None? && sender.PlayerSender? ==> r == Found(sender.player.world)
  {
    match worldName
    case Some(name) =>
      if !WorldExists(server, name) then
        Ended(Say(true, NO_SUCH_WORLD, worldName, []))
      else if !IsLoaded(server, name) then
        Ended(Say(true, WORLD_NOT_LOADED, worldName, []))
      else
        Found(LoadedWorld(server, name).value)
    case None =>
      if sender.PlayerSender? then Found(sender.player.world) else Ended(Message(CONSOLE_NEEDS_WORLD))
  }

  // ---------------------------------------------------------------------
  // autosave, bedrespawn, gamemode: the handlers
  // ---------------------------------------------------------------------

  const AUTOSAVE_IS: string := "Autosave for world {name} is currently {status}."
  const AUTOSAVE_SET: string := "Autosave for world {name} has been {status}."
  const BED_RESPAWN_IS: string := "Bed respawn for world {name} is currently {status}."
  const BED_RESPAWN_SET: string := "Bed respawn for world {name} has been {status}."
  const GAMEMODE_SET: string := "Game mode for world {name} has been set to {mode}."

  /** What a handler changes before it replies. */
  datatype Effect =
    | NoEffect
    | AutoSaveSet(world: string, on: bool)
    | BedRespawnSet(world: string, on: bool)
    | GameModeSet(world: string, mode: SCWorld.GameMode)

  datatype Handled = Handled(effect: Effect, reply: Reply)

  function OnOff(b: bool): string {
    if b then "enabled" else "disabled"
  }

  /**
   * The reply after a status is read or set, as written: it names the world
   * by the name that was typed, which is `null` when a player acts on the
   * world the player is in.
   */
  function StatusReplyAsWritten(template: string, target: Target, worldName: Option<string>, status: string): (r: Reply)
    ensures target.Found? && worldName.None? ==> r == Threw("NullPointerException")
  {
    if target.Ended? then target.reply else Say(false, template, worldName, ["status", status])
  }

  /** The reply as evidently intended: it names the world acted on. */
  function StatusReply(template: string, target: Target, status: string): (r: Reply)
    ensures target.Found? ==> r == Message(SCString.Substitute(template, ["name", target.world.name, "status", status]))
  {
    if target.Ended? then target.reply else Say(false, template, Some(target.world.name), ["status", status])
  }

  /** For a world given by name the two replies agree. */
  lemma StatusReplyAgreesWhenNamed(template: string, target: Target, name: string, status: string)
    requires target.Found? ==> target.world.name == name
    ensures StatusReplyAsWritten(template, target, Some(name), status) == StatusReply(template, target, status)
  {
  }

  /** A player who names no world is answered with an exception after the setting is changed. */
  lemma OwnWorldReplyThrows(server: Server, player: Player, template: string, status: string)
    ensures StatusReplyAsWritten(template, ResolveTarget(server, PlayerSender(player), None), None, status)
            == Threw("NullPointerException")
    ensures StatusReply(template, ResolveTarget(server, PlayerSender(player), None), status)
            == Message(SCString.Substitute(template, ["name", player.world.name, "status", status]))
  {
  }

  /**
   * `executeAutosave` as written: the arguments are read only past two
   * words (a world after a status only past three), and the reply names the
   * world by the name typed, `null` when a player acts on the world the
   * player is in, so that reply throws after the setting has changed.
   * `isAutoSave` is `World.isAutoSave()`.
   */
  function ExecuteAutosave(sender: Sender, args: seq<string>, server: Server, isAutoSave: World -> bool): (r: Handled)
    ensures r.effect != NoEffect ==> r.effect.AutoSaveSet?
    ensures r.effect.AutoSaveSet? <==> ResolveTarget(server, sender, Classify(args, 2, STATUS_WORDS).worldName).Found?
                                       && |args| > 2 && Lower(args[1]) in STATUS_WORDS
    ensures r.effect.AutoSaveSet? ==> r.effect.on == (Lower(args[1]) == "enabled")
    ensures r.reply.Threw? <==> sender.PlayerSender? && Classify(args, 2, STATUS_WORDS).worldName.None?
    ensures r.reply.Threw? ==> r.reply == Threw("NullPointerException")
  {
    var c := Classify(args, 2, STATUS_WORDS);
    var target := ResolveTarget(server, sender, c.worldName);
    match target
    case Ended(reply) => Handled(NoEffect, reply)
    case Found(world) =>
      if c.keyword.None? then
        Handled(NoEffect, StatusReplyAsWritten(AUTOSAVE_IS, target, c.worldName,
                                               OnOff(isAutoSave(world))))
      else
        Handled(AutoSaveSet(world.name, Lower(c.keyword.value) == "enabled"),
                StatusReplyAsWritten(AUTOSAVE_SET, target, c.worldName, c.keyword.value))
  }

  /**
   * `executeAutosave` as evidently intended: the arguments are read after
   * one word, as `executeGameMode` reads them, and the reply names the world
   * acted on.
   */
  function ExecuteAutosaveCorrected(sender: Sender, args: seq<string>, server: Server, isAutoSave: World -> bool): (r: Handled)
    ensures r.effect != NoEffect ==> r.effect.AutoSaveSet?
    ensures r.effect.AutoSaveSet? <==> ResolveTarget(server, sender, Classify(args, 1, STATUS_WORDS).worldName).Found?
                                       && |args| > 1 && Lower(args[1]) in STATUS_WORDS
    ensures r.effect.AutoSaveSet? ==> r.effect.on == (Lower(args[1]) == "enabled")
    ensures !r.reply.Threw?
  {
    var c := Classify(args, 1, STATUS_WORDS);
    var target := ResolveTarget(server, sender, c.worldName);
    match target
    case Ended(reply) => Handled(NoEffect, reply)
    case Found(world) =>
      if c.keyword.None? then
        Handled(NoEffect, StatusReply(AUTOSAVE_IS, target, OnOff(isAutoSave(world))))
      else
        Handled(AutoSaveSet(world.name, Lower(c.keyword.value) == "enabled"),
                StatusReply(AUTOSAVE_SET, target, c.keyword.value))
  }

  /**
   * From the console, `/world autosave <status> <world>` is refused as
   * written, the world being lost; corrected, it sets autosave for that
   * world as the status says.
   */
  lemma AutosaveStatusThenWorld(server: Server, isAutoSave: World -> bool, sub: string, status: string, name: string)
    requires Lower(status) in STATUS_WORDS && IsLoaded(server, name)
    ensures ExecuteAutosave(Console, [sub, status, name], server, isAutoSave)
            == Handled(NoEffect, Message(CONSOLE_NEEDS_WORLD))
    ensures ExecuteAutosaveCorrected(Console, [sub, status, name], server, isAutoSave).effect
            == AutoSaveSet(name, Lower(status) == "enabled")
  {
  }

  /**
   * `executeBedRespawn` as written, read as `ExecuteAutosave`; the current
   * setting comes from `worlds.yml` through `SCWorld.bedRespawn(world, null)`,
   * which defaults to on.
   */
  function ExecuteBedRespawn(sender: Sender, args: seq<string>, server: Server, config: Config.Config): (r: Handled)
    ensures r.effect != NoEffect ==> r.effect.BedRespawnSet?
    ensures r.effect.BedRespawnSet? <==> ResolveTarget(server, sender, Classify(args, 2, STATUS_WORDS).worldName).Found?
                                         && |args| > 2 && Lower(args[1]) in STATUS_WORDS
    ensures r.effect.BedRespawnSet? ==> r.effect.on == (Lower(args[1]) == "enabled")
    ensures r.reply.Threw? <==> sender.PlayerSender? && Classify(args, 2, STATUS_WORDS).worldName.None?
    ensures r.reply.Threw? ==> r.reply == Threw("NullPointerException")
  {
    var c := Classify(args, 2, STATUS_WORDS);
    var target := ResolveTarget(server, sender, c.worldName);
    match target
    case Ended(reply) => Handled(NoEffect, reply)
    case Found(world) =>
      if c.keyword.None? then
        var on := Config.GetBoolean(config, SCWorld.BedRespawnPath(world.name), true);
        Handled(NoEffect, StatusReplyAsWritten(BED_RESPAWN_IS, target, c.worldName,
                                               OnOff(on)))
      else
        Handled(BedRespawnSet(world.name, Lower(c.keyword.value) == "enabled"),
                StatusReplyAsWritten(BED_RESPAWN_SET, target, c.worldName, c.keyword.value))
  }

  /** `executeBedRespawn` as evidently intended, corrected as `ExecuteAutosaveCorrected`. */
  function ExecuteBedRespawnCorrected(sender: Sender, args: seq<string>, server: Server, config: Config.Config): (r: Handled)
    ensures r.effect != NoEffect ==> r.effect.BedRespawnSet?
    ensures r.effect.BedRespawnSet? <==> ResolveTarget(server, sender, Classify(args, 1, STATUS_WORDS).worldName).Found?
                                         && |args| > 1 && Lower(args[1]) in STATUS_WORDS
    ensures r.effect.BedRespawnSet? ==> r.effect.on == (Lower(args[1]) == "enabled")
    ensures !r.reply.Threw?
  {
    var c := Classify(args, 1, STATUS_WORDS);
    var target := ResolveTarget(server, sender, c.worldName);
    match target
    case Ended(reply) => Handled(NoEffect, reply)
    case Found(world) =>
      if c.keyword.None? then
        var on := Config.GetBoolean(config, SCWorld.BedRespawnPath(world.name), true);
        Handled(NoEffect, StatusReply(BED_RESPAWN_IS, target, OnOff(on)))
      else
        Handled(BedRespawnSet(world.name, Lower(c.keyword.value) == "enabled"),
                StatusReply(BED_RESPAWN_SET, target, c.keyword.value))
  }

  const GAMEMODE_USAGE: string := "Usage: /world gamemode <survival|creative|adventure|spectator> [world]"

  /** The `switch` on the lower-cased game-mode word. */
  function ModeOfWord(word: string): (r: Option<SCWorld.GameMode>)
    ensures r.Some? <==> word in MODE_WORDS
  {
    if word == "survival" then Some(SCWorld.SURVIVAL)
    else if word == "creative" then Some(SCWorld.CREATIVE)
    else if word == "adventure" then Some(SCWorld.ADVENTURE)
    else if word == "spectator" then Some(SCWorld.SPECTATOR)
    else None
  }

  lemma SurvivalWord()
    ensures Lower("SURVIVAL") == "survival"
  {
    var s, t := "SURVIVAL", "survival";
    forall i | 0 <= i < |s| ensures ToLowerChar(s[i]) == t[i] { }
    LowerMatches(s, t);
  }

  lemma SelectsSurvival()
    ensures ModeOfWord("survival") == Some(SCWorld.SURVIVAL)
  {
  }

  lemma CreativeWord()
    ensures Lower("CREATIVE") == "creative"
  {
    var s, t := "CREATIVE", "creative";
    forall i | 0 <= i < |s| ensures ToLowerChar(s[i]) == t[i] { }
    LowerMatches(s, t);
  }

  lemma SelectsCreative()
    ensures ModeOfWord("creative") == Some(SCWorld.CREATIVE)
  {
    assert "creative"[7] != "survival"[7];
  }

  lemma AdventureWord()
    ensures Lower("ADVENTURE") == "adventure"
  {
    var s, t := "ADVENTURE", "adventure";
    forall i | 0 <= i < |s| ensures ToLowerChar(s[i]) == t[i] { }
    LowerMatches(s, t);
  }

  lemma SelectsAdventure()
    ensures ModeOfWord("adventure") == Some(SCWorld.ADVENTURE)
  {
  }

  lemma SpectatorWord()
    ensures Lower("SPECTATOR") == "spectator"
  {
    var s, t := "SPECTATOR", "spectator";
    forall i | 0 <= i < |s| ensures ToLowerChar(s[i]) == t[i] { }
    LowerMatches(s, t);
  }

  lemma SelectsSpectator()
    ensures ModeOfWord("spectator") == Some(SCWorld.SPECTATOR)
  {
  }

  /** Each mode is selected by its own name, lower-cased, and that word is one of the mode words. */
  lemma ModeOfWordNames(m: SCWorld.GameMode)
    ensures Lower(SCWorld.ModeName(m)) in MODE_WORDS
    ensures ModeOfWord(Lower(SCWorld.ModeName(m))) == Some(m)
  {
    match m
    case SURVIVAL => SurvivalWord(); SelectsSurvival();
    case CREATIVE => CreativeWord(); SelectsCreative();
    case ADVENTURE => AdventureWord(); SelectsAdventure();
    case SPECTATOR => SpectatorWord(); SelectsSpectator();
  }

  /**
   * `executeGameMode`: every player in the world is given the mode. A mode
   * word is recognised before the switch on it, so the "Invalid game mode"
   * reply cannot occur. As written, the reply names the world by the name
   * typed, `null` when a player acts on the world the player is in, so
   * that reply throws after the modes have been set.
   */
  function ExecuteGameMode(sender: Sender, args: seq<string>, server: Server): (r: Handled)
    ensures r.effect != NoEffect ==> r.effect.GameModeSet?
    ensures r.effect.GameModeSet? <==> ResolveTarget(server, sender, Classify(args, 1, MODE_WORDS).worldName).Found?
                                       && |args| > 1 && Lower(args[1]) in MODE_WORDS
    ensures r.effect.GameModeSet? ==> Some(r.effect.mode) == ModeOfWord(Lower(args[1]))
    ensures ResolveTarget(server, sender, Classify(args, 1, MODE_WORDS).worldName).Found? && r.effect == NoEffect
            ==> r.reply == Message(GAMEMODE_USAGE)
    ensures r.reply.Threw? <==> sender.PlayerSender? && Classify(args, 1, MODE_WORDS).worldName.None? && r.effect.GameModeSet?
    ensures r.reply.Threw? ==> r.reply == Threw("NullPointerException")
  {
    var c := Classify(args, 1, MODE_WORDS);
    var target := ResolveTarget(server, sender, c.worldName);
    match target
    case Ended(reply) => Handled(NoEffect, reply)
    case Found(world) =>
      if c.keyword.None? then Handled(NoEffect, Message(GAMEMODE_USAGE))
      else
        var mode := ModeOfWord(Lower(c.keyword.value)).value;
        Handled(GameModeSet(world.name, mode),
                Say(false, GAMEMODE_SET, c.worldName, ["mode", c.keyword.value]))
  }

  /** `executeGameMode` as evidently intended: the reply names the world acted on. */
  function ExecuteGameModeCorrected(sender: Sender, args: seq<string>, server: Server): (r: Handled)
    ensures r.effect != NoEffect ==> r.effect.GameModeSet?
    ensures r.effect.GameModeSet? <==> ResolveTarget(server, sender, Classify(args, 1, MODE_WORDS).worldName).Found?
                                       && |args| > 1 && Lower(args[1]) in MODE_WORDS
    ensures r.effect.GameModeSet? ==> Some(r.effect.mode) == ModeOfWord(Lower(args[1]))
    ensures ResolveTarget(server, sender, Classify(args, 1, MODE_WORDS).worldName).Found? && r.effect == NoEffect
            ==> r.reply == Message(GAMEMODE_USAGE)
    ensures !r.reply.Threw?
  {
    var c := Classify(args, 1, MODE_WORDS);
    var target := ResolveTarget(server, sender, c.worldName);
    match target
    case Ended(reply) => Handled(NoEffect, reply)
    case Found(world) =>
      if c.keyword.None? then Handled(NoEffect, Message(GAMEMODE_USAGE))
      else
        var mode := ModeOfWord(Lower(c.keyword.value)).value;
        Handled(GameModeSet(world.name, mode),
                Say(false, GAMEMODE_SET, Some(world.name), ["mode", c.keyword.value]))
  }

  /**
   * A player typing `/world gamemode <mode>` sets that mode for the
   * player's world and is then answered with an exception as written; the
   * corrected handler sets the same mode and answers normally.
   */
  lemma GameModeOwnWorldThrows(server: Server, player: Player, sub: string, word: string)
    requires Lower(word) in MODE_WORDS
    ensures ExecuteGameMode(PlayerSender(player), [sub, word], server)
            == Handled(GameModeSet(player.world.name, ModeOfWord(Lower(word)).value), Threw("NullPointerException"))
    ensures ExecuteGameModeCorrected(PlayerSender(player), [sub, word], server).effect
            == GameModeSet(player.world.name, ModeOfWord(Lower(word)).value)
    ensures ExecuteGameModeCorrected(PlayerSender(player), [sub, word], server).reply.Message?
  {
  }

  // ---------------------------------------------------------------------
  // list
  // ---------------------------------------------------------------------

  /** The main world and its nether and end dimensions, by exact name. */
  predicate IsDefaultWorld(name: string, first: string) {
    name == first || name == first + "_nether" || name == first + "_the_end"
  }

  lemma NetherSuffix()
    ensures Lower("_nether") == "_nether"
  {
    var s := "_nether";
    forall i | 0 <= i < |s| ensures !IsUpperAscii(s[i]) { }
    LowerOfLowerCase(s);
  }

  lemma EndSuffix()
    ensures Lower("_the_end") == "_the_end"
  {
    var s := "_the_end";
    forall i | 0 <= i < |s| ensures !IsUpperAscii(s[i]) { }
    LowerOfLowerCase(s);
  }

  /** `_nether` has `_` only in front, so no occurrence of it can reach into an appended `_nether`. */
  lemma NetherJoin(f: string)
    ensures NoStraddle(f, "_nether", "_nether")
  {
    var n := "_nether";
    forall k: nat | k < |f| < k + |n|
      ensures !OccursAt(f + n, n, k)
    {
      var d := |f| - k;
      assert (f + n)[k..k + |n|][d] == (f + n)[|f|] == '_';
      assert n[d] != '_' by { assert d == 1 || d == 2 || d == 3 || d == 4 || d == 5 || d == 6; }
    }
  }

  /** Nor can one reach into an appended `_the_end`, which starts with `_` but goes on with `t`. */
  lemma NetherBeforeEnd(f: string)
    ensures NoStraddle(f, "_the_end", "_nether")
  {
    var n, e := "_nether", "_the_end";
    forall k: nat | k < |f| < k + |n|
      ensures !OccursAt(f + e, n, k)
    {
      var d := |f| - k;
      if k + |n| <= |f + e| {
        assert (f + e)[k..k + |n|][d] == (f + e)[|f|] == '_';
        assert n[d] != '_' by { assert d == 1 || d == 2 || d == 3 || d == 4 || d == 5 || d == 6; }
      }
    }
  }

  /**
   * `_the_end` has a second `_`, but what follows it (`e`) differs from what
   * follows the first (`t`), so no occurrence reaches into an appended `_the_end`.
   */
  lemma EndJoin(g: string)
    ensures NoStraddle(g, "_the_end", "_the_end")
  {
    var e := "_the_end";
    forall k: nat | k < |g| < k + |e|
      ensures !OccursAt(g + e, e, k)
    {
      var d := |g| - k;
      if d == 4 {
        assert (g + e)[k..k + |e|][5] == (g + e)[|g| + 1] == 't' != e[5];
      } else {
        assert (g + e)[k..k + |e|][d] == (g + e)[|g|] == '_';
        assert e[d] != '_' by { assert d == 1 || d == 2 || d == 3 || d == 5 || d == 6 || d == 7; }
      }
    }
  }

  lemma ReplaceNetherInEnd()
    ensures ReplaceAll("_the_end", "_nether", "") == "_the_end"
  {
    var s := "_the_end";
    assert s[..7] != "_nether" by { assert s[1] != "_nether"[1]; }
    assert s[1..] == "the" + "_end";
    ReplacePrefixFree("the", "_end", "_nether", "");
    ReplaceShort("_end", "_nether", "");
  }

  /** The nether of a world lies in the world's realm. */
  lemma RealmBaseOfNether(first: string)
    ensures SCWorld.RealmBase(first + "_nether") == SCWorld.RealmBase(first)
  {
    var f := Lower(first);
    LowerConcat(first, "_nether");
    NetherSuffix();
    NetherJoin(f);
    ReplaceSplits(f, "_nether", "_nether", "");
    ReplaceWhole("_nether", "");
    var g := ReplaceAll(f, "_nether", "");
    assert g + "" == g;
  }

  /** The end of a world lies in the world's realm. */
  lemma RealmBaseOfEnd(first: string)
    ensures SCWorld.RealmBase(first + "_the_end") == SCWorld.RealmBase(first)
  {
    var f := Lower(first);
    LowerConcat(first, "_the_end");
    EndSuffix();
    NetherBeforeEnd(f);
    ReplaceSplits(f, "_the_end", "_nether", "");
    ReplaceNetherInEnd();
    var g := ReplaceAll(f, "_nether", "");
    EndJoin(g);
    ReplaceSplits(g, "_the_end", "_the_end", "");
    ReplaceWhole("_the_end", "");
    var h := ReplaceAll(g, "_the_end", "");
    assert h + "" == h;
  }

  /** The main world's nether and end dimensions lie in its realm, whatever its name. */
  lemma DefaultWorldsShareRealm(name: string, first: string)
    requires IsDefaultWorld(name, first)
    ensures SCWorld.SameRealm(name, first)
  {
    if name == first + "_nether" {
      RealmBaseOfNether(first);
    } else if name == first + "_the_end" {
      RealmBaseOfEnd(first);
    }
    SCWorld.SameRealmIff(name, first);
  }

  /** A clickable action on a row: its caption and the command it runs. */
  datatype Action = Action(caption: string, command: string)

  /** A row of the world list: its number, the world, whether it is loaded and its actions. */
  datatype Row = Row(number: int, name: string, loaded: bool, actions: seq<Action>)

  /** `listItemRow(worldName, number)`; `Bukkit.getWorlds().getFirst()` throws on an empty list. */
  function ListItemRow(server: Server, name: string, number: int): (r: Result<Row>)
    ensures server.worlds == [] <==> r == Failure("NoSuchElementException")
    ensures r.Success? ==> r.value.number == number + 1 && r.value.name == name
                           && r.value.loaded == IsLoaded(server, name)
    ensures r.Success? ==> (r.value.actions == [] <==> IsDefaultWorld(name, server.worlds[0].name))
    ensures r.Success? && r.value.actions != [] ==>
              r.value.actions == [if IsLoaded(server, name) then Action("[Unload]", "/world unload " + name)
                                  else Action("[Load]", "/world load " + name),
                                  Action("[Del]", "/world delete " + name)]
  {
    if server.worlds == [] then Failure("NoSuchElementException")
    else
      var loaded := IsLoaded(server, name);
      var actions :=
        if IsDefaultWorld(name, server.worlds[0].name) then []
        else
          [if loaded then Action("[Unload]", "/world unload " + name) else Action("[Load]", "/world load " + name),
           Action("[Del]", "/world delete " + name)];
      Success(Row(number + 1, name, loaded, actions))
  }

  /** The command `/world <word> <name>` of a sub-command's word. */
  function CommandLine(c: SubCommand, name: string): string
    requires c != Usage
  {
    "/world " + Word(c) + " " + name
  }

  lemma UnloadCommand(name: string)
    ensures "/world unload " + name == CommandLine(Unload, name)
  {
    assert "/world unload " == "/world " + "unload" + " ";
  }

  lemma LoadCommand(name: string)
    ensures "/world load " + name == CommandLine(Load, name)
  {
    assert "/world load " == "/world " + "load" + " ";
  }

  lemma DeleteCommand(name: string)
    ensures "/world delete " + name == CommandLine(Delete, name)
  {
    assert "/world delete " == "/world " + "delete" + " ";
  }

  /** The command of each action selects the sub-command its caption promises. */
  lemma ActionsDispatch(server: Server, name: string, number: int)
    requires ListItemRow(server, name, number).Success?
    requires ListItemRow(server, name, number).value.actions != []
    ensures var a := ListItemRow(server, name, number).value.actions;
            var c := if IsLoaded(server, name) then Unload else Load;
            a[0].command == CommandLine(c, name) && Dispatch([Word(c), name]) == c
            && a[1].command == CommandLine(Delete, name) && Dispatch([Word(Delete), name]) == Delete
  {
    var c := if IsLoaded(server, name) then Unload else Load;
    if c == Unload { UnloadCommand(name); } else { LoadCommand(name); }
    DeleteCommand(name);
    DispatchWord(c, Word(c), [name], _ => true);
    DispatchWord(Delete, Word(Delete), [name], _ => true);
  }

  /**
   * The page filler of `executeList`: rows for the indices from `start` up
   * to `min(start + count, |worlds|)`, each numbered one more than its index.
   * `worlds.get(i)` throws for a negative index.
   */
  method ListRows(server: Server, worlds: seq<string>, start: int, count: int) returns (r: Result<seq<Row>>)
    ensures var end := if start + count < |worlds| then start + count else |worlds|;
            (start < end && (start < 0 || server.worlds == [])) <==> r.Failure?
    ensures r.Success? ==> var end := if start + count < |worlds| then start + count else |worlds|;
            |r.value| == (if start < end then end - start else 0)
            && forall k :: 0 <= k < |r.value| ==>
                 0 <= start + k < |worlds|
                 && Success(r.value[k]) == ListItemRow(server, worlds[start + k], start + k)
  {
    var end := if start + count < |worlds| then start + count else |worlds|;
    var rows: seq<Row> := [];
    var i := start;
    while i < end
      invariant start <= i && (start < end ==> i <= end)
      invariant start >= end ==> i == start
      invariant i > start ==> 0 <= start && server.worlds != []
      invariant |rows| == i - start
      invariant forall k :: 0 <= k < |rows| ==>
                  0 <= start + k < |worlds| && Success(rows[k]) == ListItemRow(server, worlds[start + k], start + k)
      decreases end - i
    {
      if i < 0 {
        return Failure("IndexOutOfBoundsException");
      }
      var row := ListItemRow(server, worlds[i], i);
      if row.Failure? {
        return Failure(row.error);
      }
      rows := rows + [row.value];
      i := i + 1;
    }
    return Success(rows);
  }
}
