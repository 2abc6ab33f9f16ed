# STEMCraftLib core in Dafny

STEMCraftLib is a Bukkit/Paper library plugin. It gives other STEMCraft plugins:

- commands with pattern-driven tab completion;
- completion and variable registries;
- chat text helpers;
- managed worlds kept in a `worlds.yml` file;
- item attributes and a price table;
- paged chat menus.

This project models the string, collection and state logic of that core. Bukkit is replaced by plain values:

- a `Server` holds the online players, the loaded worlds in server order and the world folders on disk;
- a YAML file is a map from dotted paths to values;
- a completion supplier is a function of the `Server`.

Java's `null` is `None` and a thrown exception is a `Failure`/`thrown` value naming its class.

One module per Java class:

| module | Java class | form |
|---|---|---|
| `JString` | `java.lang.String` operations used by the core | functions and lemmas |
| `Config` | the YAML configuration API | functions and lemmas |
| `Host` | players, worlds, senders | datatypes |
| `TabCompleteParser` | `TabCompleteArgParser` and `onTabComplete` | a class for the parser; methods with loops proved against functions |
| `STEMCraftCommand`, `CommonSTEMCraftCommand` | the two command base classes | classes |
| `SCTabCompletion` | the static completion registry | a class over a map |
| `TabCompletionManager` | the per-library completion registry | the same `Registry` class, built with its defaults |
| `VariableManager` | `{variable}` replacement | a class over a map; a loop method |
| `SCString` | placeholders, pixel width | functions; loop methods |
| `STEMCraftLib` | `supports`, `loadWidthSet`, `getStackTrace`, `registerCommand` | methods with loops proved against functions |
| `STEMCraftException` | what the exception logs | functions |
| `SCWorld` | realms, the unloading list, per-world settings | a class `Worlds` |
| `WorldCommand` | the `/world` command | functions, one loop method |
| `SCItem` | attribute dispatch, the price table | classes `Item` and `Prices` |
| `SCChatMenu` | the paged chat menu | a class `ChatMenu` |

Both command classes share one parser. It works on a snapshot of the registry taken once per completion. The root class takes the snapshot from the static `SCTabCompletion`; the `common` class takes it from its `TabCompletionManager`. The two parsers' Java code is the same apart from where `parseValue` looks up `{p}`.

## Model

| member | source | states |
|---|---|---|
| TabCompleteParser.AsOption | src/main/java/com/stemcraft/STEMCraftCommand.java:113-119 | a word is a flag exactly when it starts with `-`; the flag is the word lower-cased (same length, equal ignoring case) |
| TabCompleteParser.AsValueOption | src/main/java/com/stemcraft/STEMCraftCommand.java:125-134 | a value option exactly when the word matches `^[a-zA-Z0-9-_]:.*`; the option is the first character lower-cased and the value is everything after the first `:` |
| TabCompleteParser.ParseValue | src/main/java/com/stemcraft/STEMCraftCommand.java:140-152 | `{p}` gives the registry's list for `p` (empty when `p` is not registered); any other item gives the one-element list of itself |
| TabCompleteParser.ParseValueOfPlaceholder | src/main/java/com/stemcraft/STEMCraftCommand.java:143-146 | every `{p}` expands to the lookup of exactly `p` |
| TabCompleteParser.Advance | src/main/java/com/stemcraft/STEMCraftCommand.java:163-197 | the cursor never moves back and never passes the end; `null` comes only with the cursor at the end; `next()` always consumes a word when one is left |
| TabCompleteParser.AdvanceSkips | src/main/java/com/stemcraft/STEMCraftCommand.java:164-179 | a flag or value-option word under the cursor is skipped and the walk continues from the next word |
| TabCompleteParser.AdvanceStops | src/main/java/com/stemcraft/STEMCraftCommand.java:181-192 | on a positional word the answer is true with the cursor moved past it iff the item is `null` or lists the word, and false with the cursor left on the word otherwise |
| TabCompleteParser.AdvanceRunsOut | src/main/java/com/stemcraft/STEMCraftCommand.java:164-196 | `null` means every word from the cursor on was a flag word |
| TabCompleteParser.AdvanceAccepts | src/main/java/com/stemcraft/STEMCraftCommand.java:181-190 | true means the word just consumed is positional, is accepted by the item, and only flag words were skipped before it |
| TabCompleteParser.AdvanceRejects | src/main/java/com/stemcraft/STEMCraftCommand.java:186-192 | false means the cursor rests on a positional word that the item does not list, after only flag words |
| TabCompleteParser.AdvanceOnlyRemoves | src/main/java/com/stemcraft/STEMCraftCommand.java:167-178 | skipping words only removes flags (as a multiset) and value options from what is available, and never changes a value option's values |
| TabCompleteParser.DrainRemaining | src/main/java/com/stemcraft/STEMCraftCommand.java:199-203 | `processRemainingArgs` stops with the cursor at or past the last word and never past the end; it does nothing when the cursor is already there |
| TabCompleteParser.RunItems | src/main/java/com/stemcraft/STEMCraftCommand.java:224-250 | a pattern that fails gives no candidates; candidates come only when the words ran out, and they are the parsed values of one of the pattern's items |
| TabCompleteParser.RunPattern | src/main/java/com/stemcraft/STEMCraftCommand.java:216-258 | a failing pattern gives no candidates; a matching one leaves the cursor at or past the last word |
| TabCompleteParser.CollectedResultsComeFromMatches | src/main/java/com/stemcraft/STEMCraftCommand.java:216-259 | every collected candidate comes from some pattern that matched |
| TabCompleteParser.FailingPatternAddsNothing | src/main/java/com/stemcraft/STEMCraftCommand.java:246-258 | a pattern whose positional item fails adds no candidates, flags or value options |
| TabCompleteParser.Prefixed | src/main/java/com/stemcraft/STEMCraftCommand.java:276-279 | each value, in order, with `k:` in front |
| TabCompleteParser.KeepContaining | src/main/java/com/stemcraft/STEMCraftCommand.java:285 | an item is kept exactly when it contains the typed word |
| TabCompleteParser.KeepContainingConcat | src/main/java/com/stemcraft/STEMCraftCommand.java:285 | filtering keeps the items' order and repetitions: it acts on each part of a list separately |
| TabCompleteParser.KeyOf | src/main/java/com/stemcraft/STEMCraftCommand.java:273 | the text before the first `:` (it contains no `:` and the word starts with it and `:`) |
| TabCompleteParser.FilterResults | src/main/java/com/stemcraft/STEMCraftCommand.java:262-286 | empty word: all candidates; `-`: the available flags; otherwise every result contains the word; the candidates (or, for an available `k:`, the `k:`-prefixed values) are kept iff they contain it |
| TabCompleteParser.EmptyWordOffersOnlyMatchedCandidates | src/main/java/com/stemcraft/STEMCraftCommand.java:207-289 | with an empty last word, every completion comes from a pattern that matched the earlier words |
| TabCompleteParser.ArgParser.constructor | src/main/java/com/stemcraft/STEMCraftCommand.java:99-111 | a parser over the given words with nothing available or used and the cursor at 0 |
| TabCompleteParser.ArgParser.AddOption | src/main/java/com/stemcraft/STEMCraftCommand.java:121-123 | the flag is appended to the available flags; nothing else changes |
| TabCompleteParser.ArgParser.AddValueOption | src/main/java/com/stemcraft/STEMCraftCommand.java:136-138 | the option is mapped to its parsed values, replacing an earlier entry; nothing else changes |
| TabCompleteParser.ArgParser.SkipFlagWord | src/main/java/com/stemcraft/STEMCraftCommand.java:167-178 | a flag word is recorded as used with one copy removed from the available flags; a value-option word is recorded with its key removed; the cursor moves one word |
| TabCompleteParser.ArgParser.NextMatches | src/main/java/com/stemcraft/STEMCraftCommand.java:163-197 | the answer and the new parser state are those of `Advance` |
| TabCompleteParser.ArgParser.Next | src/main/java/com/stemcraft/STEMCraftCommand.java:159-161 | `nextMatches(null)`, answer dropped |
| TabCompleteParser.ArgParser.ProcessRemainingArgs | src/main/java/com/stemcraft/STEMCraftCommand.java:199-203 | the loop ends in the state `DrainRemaining` gives |
| TabCompleteParser.MatchItem | src/main/java/com/stemcraft/STEMCraftCommand.java:225-249 | one item of the loop: stops with the run's answer, or continues exactly as `RunItems` does from the next item |
| TabCompleteParser.MatchPattern | src/main/java/com/stemcraft/STEMCraftCommand.java:217-250 | on a fresh parser, the item loop gives the answer and state of `RunItems` |
| TabCompleteParser.CollectPatterns | src/main/java/com/stemcraft/STEMCraftCommand.java:216-259 | candidates, flags and value options are those `CollectAll` gathers over the patterns in order |
| TabCompleteParser.PrefixValues | src/main/java/com/stemcraft/STEMCraftCommand.java:276-279 | the loop builds `Prefixed` |
| TabCompleteParser.RemoveIfMissing | src/main/java/com/stemcraft/STEMCraftCommand.java:285 | `removeIf` keeps `KeepContaining` |
| TabCompleteParser.Complete | src/main/java/com/stemcraft/STEMCraftCommand.java:207-289 | `onTabComplete` returns `TabComplete`: the patterns run over all words but the last, then the filter on the last |
| STEMCraftCommand.Command.constructor | src/main/java/com/stemcraft/STEMCraftCommand.java:10 | no patterns yet |
| STEMCraftCommand.Command.AddTabCompletion | src/main/java/com/stemcraft/STEMCraftCommand.java:16-18 | the pattern is appended |
| STEMCraftCommand.Command.OnTabComplete | src/main/java/com/stemcraft/STEMCraftCommand.java:207-289 | the completions against the static registry's lists |
| CommonSTEMCraftCommand.Command.constructor | src/main/java/com/stemcraft/common/STEMCraftCommand.java:15-19 | no patterns; the library's manager is kept |
| CommonSTEMCraftCommand.Command.AddTabCompletion | src/main/java/com/stemcraft/common/STEMCraftCommand.java:21-23 | the pattern is appended |
| CommonSTEMCraftCommand.Command.OnTabComplete | src/main/java/com/stemcraft/common/STEMCraftCommand.java:157-239 | the completions against the manager's lists |
| SCTabCompletion.Registry.constructor | src/main/java/com/stemcraft/util/SCTabCompletion.java:7 | the registry starts empty |
| SCTabCompletion.Registry.Register | src/main/java/com/stemcraft/util/SCTabCompletion.java:15-17 | the supplier is stored under the lower-cased name, replacing an earlier one; the name then exists |
| SCTabCompletion.Registry.RegisterList | src/main/java/com/stemcraft/util/SCTabCompletion.java:26-38 | afterwards `list` of the lower-cased name is exactly the given strings, on any server; other names keep their suppliers |
| SCTabCompletion.Registry.ExistsIgnoresCase | src/main/java/com/stemcraft/util/SCTabCompletion.java:46-48 | `exists` gives the same answer for names equal ignoring case |
| SCTabCompletion.Registry.Unregister | src/main/java/com/stemcraft/util/SCTabCompletion.java:55-57 | only the lower-cased name is removed; it no longer exists |
| SCTabCompletion.Registry.Keys | src/main/java/com/stemcraft/util/SCTabCompletion.java:59-61 | every key is lower-case |
| SCTabCompletion.Registry.Snapshot | src/main/java/com/stemcraft/util/SCTabCompletion.java:63-69 | one list per registered key, and `list(k)` is the snapshot's entry or empty |
| SCTabCompletion.Registry.ListMissesUpperCaseKey | src/main/java/com/stemcraft/util/SCTabCompletion.java:63-69 | `list` does not lower-case its key: a key with an upper-case letter finds nothing |
| SCTabCompletion.RegisterDefaults | src/main/java/com/stemcraft/STEMCraftLib.java:111-128 | `player`, `world`, `offline-world` and `gamemode` are registered with their suppliers |
| SCTabCompletion.OfflineWorlds | src/main/java/com/stemcraft/STEMCraftLib.java:121-126 | a world folder is offered exactly when no loaded world has its name |
| SCTabCompletion.Offline | src/main/java/com/stemcraft/STEMCraftLib.java:122-125 | keeps exactly the folder names that no loaded world has |
| TabCompletionManager.NewManager | src/main/java/com/stemcraft/TabCompletionManager.java:15-25 | a new manager holds exactly `player` and `world` |
| TabCompletionManager.NewManagerLists | src/main/java/com/stemcraft/TabCompletionManager.java:60-66 | the two defaults list the online players' and loaded worlds' names; every other key lists nothing |
| VariableManager.NextClose | src/main/java/com/stemcraft/variable/VariableManager.java:46 | the position of the first `}` from a given index |
| VariableManager.NextCloseAt | src/main/java/com/stemcraft/variable/VariableManager.java:46 | the first `}` from an index is found at its position |
| VariableManager.FindToken | src/main/java/com/stemcraft/variable/VariableManager.java:46 | `matcher.find()`: the leftmost `{`, followed by at least one non-`}` and a `}` |
| VariableManager.NoOpenNoToken | src/main/java/com/stemcraft/variable/VariableManager.java:46 | without a `{` there is no token |
| VariableManager.Values | src/main/java/com/stemcraft/variable/VariableManager.java:48-49 | each registered variable's value for the player |
| VariableManager.PassUnfold | src/main/java/com/stemcraft/variable/VariableManager.java:46-57 | one pass copies the text before a token, then the token's value or the token itself, then continues after it |
| VariableManager.NoTokenPassCopies | src/main/java/com/stemcraft/variable/VariableManager.java:41-60 | a pass over text without tokens copies it |
| VariableManager.PlainTextIsFinished | src/main/java/com/stemcraft/variable/VariableManager.java:41-60 | a text without tokens is returned unchanged after one pass |
| VariableManager.RewriteAfterPass | src/main/java/com/stemcraft/variable/VariableManager.java:41-60 | after a pass that found a token the rewrite goes on from the pass's output; after one that found none it ends with that output, which is the text itself |
| VariableManager.RewriteStep | src/main/java/com/stemcraft/variable/VariableManager.java:41-60 | the do-while repeats a pass exactly while the text had a token |
| VariableManager.Variables.ReplacePass | src/main/java/com/stemcraft/variable/VariableManager.java:44-59 | one pass of the loop gives `PassFrom` and reports whether a token was found |
| VariableManager.SingleTokenPass | src/main/java/com/stemcraft/variable/VariableManager.java:48-55 | `{name}` becomes the value of the lower-cased name, or stays as it is when that is not registered |
| VariableManager.UnknownTokenNeverFinishes | src/main/java/com/stemcraft/variable/VariableManager.java:41-60 | a token with no handler is put back, so no number of passes ends the loop |
| VariableManager.KnownTokenReplaced | src/main/java/com/stemcraft/variable/VariableManager.java:41-60 | a registered `{name}` whose value holds no `{` ends after two passes with the value, looked up ignoring case |
| VariableManager.Variables.constructor | src/main/java/com/stemcraft/variable/VariableManager.java:14-18 | `player` and `world` are registered at start |
| VariableManager.Variables.Register | src/main/java/com/stemcraft/variable/VariableManager.java:26-28 | stored under the lower-cased name; it then exists |
| VariableManager.Variables.Unregister | src/main/java/com/stemcraft/variable/VariableManager.java:80-82 | only the lower-cased name is removed; it no longer exists |
| VariableManager.Variables.Replace | src/main/java/com/stemcraft/variable/VariableManager.java:37-63 | the loop computes `Rewrite` with the player's values; a text it returns holds no token |
| SCString.Placeholder | src/main/java/com/stemcraft/util/SCString.java:20 | the key in braces |
| SCString.Placeholders | src/main/java/com/stemcraft/util/SCString.java:14-26 | an odd number of arguments throws `IllegalArgumentException`; otherwise the loop's result is `Substitute` |
| SCString.SubstituteConcat | src/main/java/com/stemcraft/util/SCString.java:19-23 | the pairs are applied left to right: substituting `a + b` is substituting `a`, then `b` |
| SCString.SubstituteAbsent | src/main/java/com/stemcraft/util/SCString.java:19-25 | a message holding none of the placeholders is returned unchanged |
| SCString.SubstituteIdentity | src/main/java/com/stemcraft/util/SCString.java:22 | replacing `{k}` by itself changes nothing |
| SCString.StripCodes | src/main/java/com/stemcraft/util/SCString.java:54 | codes are removed in pairs of characters; text without `§` is unchanged |
| SCString.StripCodesIsSinglePass | src/main/java/com/stemcraft/util/SCString.java:54 | the text that results from stripping is not scanned again |
| SCString.CharWidth | src/main/java/com/stemcraft/util/SCString.java:57-65 | between 2 and 7; 2 for the 2-pixel set, 3 for the 3-pixel set when not in the 2-pixel one; characters in no set are `DEFAULT_WIDTH` wide |
| SCString.CalculatePixelWidth | src/main/java/com/stemcraft/util/SCString.java:52-67 | the loop adds up `PixelWidth` |
| SCString.WidthConcat | src/main/java/com/stemcraft/util/SCString.java:57-65 | width adds up over concatenation |
| SCString.WidthBounds | src/main/java/com/stemcraft/util/SCString.java:57-65 | `2n <= width <= 7n` for `n` characters |
| SCString.PixelWidthBounds | src/main/java/com/stemcraft/util/SCString.java:52-67 | `2n <= width <= 7n` for the `n` characters left after stripping |
| SCString.PixelWidthConcat | src/main/java/com/stemcraft/util/SCString.java:52-67 | for texts without `§`, pixel width adds up over concatenation |
| SCString.EmptyPixelWidth | src/main/java/com/stemcraft/util/SCString.java:52-67 | the empty text is 0 wide |
| STEMCraftLib.Supports | src/main/java/com/stemcraft/STEMCraftLib.java:165-185 | true exactly when one of the nine attributes equals the argument ignoring case |
| STEMCraftLib.Scan | src/main/java/com/stemcraft/STEMCraftLib.java:178-182 | the loop finds a name equal ignoring case iff there is one |
| STEMCraftLib.AnyEqualsIgnoreCaseIff | src/main/java/com/stemcraft/STEMCraftLib.java:178-182 | over lower-case names, the scan is membership of the lower-cased argument |
| STEMCraftLib.SupportedIff | src/main/java/com/stemcraft/STEMCraftLib.java:165-185 | `supports(a)` iff `a` lower-cased is one of the nine names |
| STEMCraftLib.LoadWidthSet | src/main/java/com/stemcraft/STEMCraftLib.java:486-497 | an empty setting keeps the default set; otherwise the set is exactly the setting's characters, not merged with the defaults |
| STEMCraftLib.LoadWidths | src/main/java/com/stemcraft/STEMCraftLib.java:81-85 | the five configurable sets are loaded from `widths.2`..`widths.6`; the 7-pixel set is kept |
| STEMCraftLib.Describe | src/main/java/com/stemcraft/STEMCraftLib.java:446-452 | the message, else the localised message, else `(Unknown cause)`; never blank |
| STEMCraftLib.FrameLines | src/main/java/com/stemcraft/STEMCraftLib.java:457-471 | at most one line per frame; each line is `\t at ` and a frame without `sun.reflect` |
| STEMCraftLib.GetStackTrace | src/main/java/com/stemcraft/STEMCraftLib.java:437-475 | the loops build `Trace` |
| STEMCraftLib.HeaderLine | src/main/java/com/stemcraft/STEMCraftLib.java:442-454 | the header is the simple class name, a space and `Describe` |
| STEMCraftLib.AppendFrames | src/main/java/com/stemcraft/STEMCraftLib.java:457-471 | the inner loop appends `FrameLines` |
| STEMCraftLib.NullTrace | src/main/java/com/stemcraft/STEMCraftLib.java:442-444 | a `null` throwable gives `Unknown error` |
| STEMCraftLib.ServerFrameCutsOff | src/main/java/com/stemcraft/STEMCraftLib.java:466-467 | a `net.minecraft.server` frame after the sixth leaves exactly the lines of the frames before it: it and every later frame are cut off |
| STEMCraftLib.FrameLinesHaveNoHeader | src/main/java/com/stemcraft/STEMCraftLib.java:457-471 | no frame line is a header line |
| STEMCraftLib.OneHeaderPerThrowable | src/main/java/com/stemcraft/STEMCraftLib.java:437-475 | the trace has exactly one header line per throwable of the cause chain |
| STEMCraftLib.SplitCommandStrings | src/main/java/com/stemcraft/STEMCraftLib.java:583-597 | aliases split on single spaces, a completion string becomes exactly one pattern, `null` gives an empty list |
| STEMCraftLib.PatternWordsRejoin | src/main/java/com/stemcraft/STEMCraftLib.java:594 | for a completion string that does not end in a space, the pattern's words joined with spaces give the string back |
| STEMCraftLib.RegisterCommand | src/main/java/com/stemcraft/STEMCraftLib.java:583-600 | the alias list is returned and the patterns are appended to the executor, in order |
| STEMCraftException.LogLines | src/main/java/com/stemcraft/exception/STEMCraftException.java:55-74 | the banner, then the messages, then the stack trace of the logged throwable |
| STEMCraftException.WrappingNullLogsUnknown | src/main/java/com/stemcraft/exception/STEMCraftException.java:45-48 | a message with a `null` cause logs the banner, the message and `Unknown error` |
| STEMCraftException.LoggedHeaders | src/main/java/com/stemcraft/exception/STEMCraftException.java:81-116 | the logged trace has one header per throwable of the chain |
| SCWorld.SameRealmIff | src/main/java/com/stemcraft/util/SCWorld.java:80-91 | two names share a realm exactly when their lower-cased names agree once `_nether` and then `_the_end` are deleted |
| JString.ReplaceSplits | src/main/java/com/stemcraft/util/SCWorld.java:88-89 | when no occurrence straddles the join of two texts, `replace` acts on each text separately |
| SCWorld.SameRealmEquivalence | src/main/java/com/stemcraft/util/SCWorld.java:80-91 | `sameRealm` is reflexive, symmetric and transitive |
| SCWorld.SameRealmIgnoresCase | src/main/java/com/stemcraft/util/SCWorld.java:82-85 | names equal ignoring case share a realm |
| SCWorld.SettingUnderWorld | src/main/java/com/stemcraft/util/SCWorld.java:436 | every setting path lies under `worlds.<name>` |
| SCWorld.ModeValueOf | src/main/java/com/stemcraft/util/SCWorld.java:573 | `GameMode.valueOf` accepts exactly the constant names; anything else throws `IllegalArgumentException` |
| SCWorld.ModeRoundTrip | src/main/java/com/stemcraft/util/SCWorld.java:567-573 | a stored mode reads back as the same mode |
| SCWorld.StoredGameMode | src/main/java/com/stemcraft/util/SCWorld.java:571-576 | `null` exactly when nothing is stored; otherwise `valueOf` of the text of what is stored, a number or a section included: a mode read is the one whose name is stored, and any other text throws `IllegalArgumentException` |
| SCWorld.SectionGameModeThrows | src/main/java/com/stemcraft/util/SCWorld.java:571-576 | a section stored at `game-mode` throws `IllegalArgumentException`, its text naming no mode |
| SCWorld.LastLocation | src/main/java/com/stemcraft/util/SCWorld.java:470-477 | the world's spawn when nothing is stored; otherwise `stringToLocation` of the text of what is stored, a number or a section included |
| SCWorld.ClearedWorldHasDefaults | src/main/java/com/stemcraft/util/SCWorld.java:436 | after `delete` clears `worlds.<name>`: autoload off, bed respawn on, no game mode, last location at spawn |
| SCWorld.RemoveFirstDistinct | src/main/java/com/stemcraft/util/SCWorld.java:358 | removing a name from a list without repeats removes it completely and keeps the others |
| SCWorld.Worlds.constructor | src/main/java/com/stemcraft/util/SCWorld.java:22-24 | nothing is unloading |
| SCWorld.Worlds.Unload | src/main/java/com/stemcraft/util/SCWorld.java:366-398 | `null` reports `WORLD_NOT_LOADED`; a world already unloading reports `UNLOADING_WORLD` and is not added again; with no worlds `NoSuchElementException`, for the first world `MainWorldUnloadException`, both with the list unchanged; otherwise `UNLOADING_WORLD` and the name is appended |
| SCWorld.Worlds.Unloaded | src/main/java/com/stemcraft/util/SCWorld.java:355-358 | the finished world leaves the list; other worlds keep their state |
| SCWorld.Worlds.Delete | src/main/java/com/stemcraft/util/SCWorld.java:430-461 | `null` reports `DELETED_WORLD`; with no worlds `NoSuchElementException` and for the first world `MainWorldDeletionException`, with nothing changed; otherwise `worlds.<name>` is cleared and the world is unloading, added once |
| SCWorld.Worlds.AutoLoad | src/main/java/com/stemcraft/util/SCWorld.java:247-254 | a given value is stored and returned; otherwise the stored value, false when unset |
| SCWorld.Worlds.BedRespawn | src/main/java/com/stemcraft/util/SCWorld.java:546-553 | a given value is stored and returned; otherwise the stored value, true when unset |
| SCWorld.Worlds.GameModeSetting | src/main/java/com/stemcraft/util/SCWorld.java:565-577 | a given mode is stored by name and returned; otherwise `StoredGameMode`: `null` when unset, the named mode, or `IllegalArgumentException` for any other stored text |
| WorldCommand.Word | src/main/java/com/stemcraft/command/World.java:40-81 | every sub-command has a non-empty word |
| WorldCommand.WordSelects | src/main/java/com/stemcraft/command/World.java:40-81 | each sub-command's word is lower-case and selects it |
| WorldCommand.SelectedByWord | src/main/java/com/stemcraft/command/World.java:40-81 | a word that selects a sub-command is that sub-command's word |
| WorldCommand.Execute | src/main/java/com/stemcraft/command/World.java:28-33 | a sender without `stemcraft.world` gets the no-permission message and nothing runs, and only such a sender |
| WorldCommand.DispatchWord | src/main/java/com/stemcraft/command/World.java:28-81 | a first argument equal ignoring case to a sub-command's word selects that sub-command, which runs exactly when the sender has the permission |
| WorldCommand.DispatchUsage | src/main/java/com/stemcraft/command/World.java:28-86 | the usage is selected exactly for no arguments or an unknown first word, and shown exactly when the sender also has the permission |
| WorldCommand.Say | src/main/java/com/stemcraft/STEMCraftLib.java:280-282 | the template with `{name}` and the other pairs substituted; a `null` name throws |
| WorldCommand.ParseWorldSpec | src/main/java/com/stemcraft/command/World.java:105-108 | fails (index out of bounds) exactly for a text of colons only; a text without `:` is the name; name and settings hold no `:` |
| WorldCommand.SplitThree | src/main/java/com/stemcraft/command/World.java:105 | `n:g:s` without other colons splits into its three parts |
| WorldCommand.ParseWorldSpecRoundTrip | src/main/java/com/stemcraft/command/World.java:105-108 | name, generator and non-empty settings joined with `:` read back as themselves |
| WorldCommand.SplitTrailingColons | src/main/java/com/stemcraft/command/World.java:105 | Java's split drops trailing empty parts |
| WorldCommand.TrailingColonsIgnored | src/main/java/com/stemcraft/command/World.java:105-108 | `name::` reads as the name with no generator and empty settings |
| WorldCommand.ExecuteCreate | src/main/java/com/stemcraft/command/World.java:99-137 | fewer than two words: usage; a bad seed: an error; an existing world: an error; otherwise the parsed spec with the seed iff one was typed |
| WorldCommand.Classify | src/main/java/com/stemcraft/command/World.java:444-454 | with at most `threshold` words nothing is read; a keyword is `args[1]` matched ignoring case, with the world from `args[2]`; any other `args[1]` is the world |
| WorldCommand.Typed | src/main/java/com/stemcraft/command/World.java:622-633 | the typed words begin with the sub-command |
| WorldCommand.ClassifyRoundTrip | src/main/java/com/stemcraft/command/World.java:622-633 | reading after one word gives back the keyword and world typed |
| WorldCommand.AsWrittenMisreadsArguments | src/main/java/com/stemcraft/command/World.java:444-454 | read as written, `autosave enabled lobby` loses the world and `autosave lobby` reads nothing |
| WorldCommand.ResolveTarget | src/main/java/com/stemcraft/command/World.java:456-481 | a named world must exist and be loaded; without a name a player acts on the player's own world and the console is refused |
| WorldCommand.StatusReplyAsWritten | src/main/java/com/stemcraft/command/World.java:483-494 | a player who names no world gets an exception for the reply |
| WorldCommand.StatusReply | src/main/java/com/stemcraft/command/World.java:483-494 | the reply names the world acted on |
| WorldCommand.StatusReplyAgreesWhenNamed | src/main/java/com/stemcraft/command/World.java:483-494 | for a world given by name both replies agree |
| WorldCommand.OwnWorldReplyThrows | src/main/java/com/stemcraft/command/World.java:474-494 | as written the reply throws for the player's own world; corrected it names that world |
| WorldCommand.ExecuteAutosave | src/main/java/com/stemcraft/command/World.java:438-495 | as written: the setting changes exactly when there are more than two words, a status word follows the sub-command and a world is found, to on iff the word is `enabled`; the reply throws `NullPointerException` exactly when a player's arguments give no world name |
| WorldCommand.ExecuteAutosaveCorrected | src/main/java/com/stemcraft/command/World.java:438-495 | as intended: the arguments are read after the sub-command word, the setting changes exactly when a status word was typed and a world is found, and no reply throws |
| WorldCommand.AutosaveStatusThenWorld | src/main/java/com/stemcraft/command/World.java:444-454 | from the console, `autosave <status> <world>` is refused as written but sets autosave for that world when corrected |
| WorldCommand.ExecuteBedRespawn | src/main/java/com/stemcraft/command/World.java:552-608 | as written, as `ExecuteAutosave`, for bed respawn |
| WorldCommand.ExecuteBedRespawnCorrected | src/main/java/com/stemcraft/command/World.java:552-608 | as intended, as `ExecuteAutosaveCorrected`, for bed respawn |
| WorldCommand.ModeOfWord | src/main/java/com/stemcraft/command/World.java:671-687 | exactly the four mode words are recognised |
| WorldCommand.ModeOfWordNames | src/main/java/com/stemcraft/command/World.java:671-687 | every game mode is selected by its lower-cased name |
| WorldCommand.ExecuteGameMode | src/main/java/com/stemcraft/command/World.java:616-694 | as written: the mode changes exactly when a world is found and a mode word was typed, to that word's mode; a found world without a mode word gets the usage; the reply throws `NullPointerException` exactly when a player who names no world changes the mode |
| WorldCommand.ExecuteGameModeCorrected | src/main/java/com/stemcraft/command/World.java:616-694 | as intended: the same effect and usage, and no reply throws |
| WorldCommand.GameModeOwnWorldThrows | src/main/java/com/stemcraft/command/World.java:689-693 | `gamemode <mode>` from a player sets the mode of the player's world, then throws as written and replies with a message when corrected |
| WorldCommand.DefaultWorldsShareRealm | src/main/java/com/stemcraft/command/World.java:767-771 | for every first-world name, it and its `_nether` and `_the_end` worlds share one realm |
| WorldCommand.ListItemRow | src/main/java/com/stemcraft/command/World.java:755-796 | numbered `i+1`; no actions exactly for a default world; otherwise Load or Unload, as the world is loaded, and Del; no worlds throws |
| WorldCommand.ActionsDispatch | src/main/java/com/stemcraft/command/World.java:778-793 | each action's command runs the sub-command it names |
| WorldCommand.ListRows | src/main/java/com/stemcraft/command/World.java:235-238 | fails exactly when some row is due and the start is negative or there are no worlds; otherwise one row per index from `start` to `min(start+count, size)-1`, each the `ListItemRow` of that world |
| SCItem.ClassDispatch | src/main/java/com/stemcraft/util/SCItem.java:113-126 | the five classes are recognised, each data type comes from its own class only, and any other class has none |
| SCItem.ValueDispatchAgrees | src/main/java/com/stemcraft/util/SCItem.java:113-141 | a value has the data type of its class; `null` and other objects have none |
| SCItem.Item.constructor | src/main/java/com/stemcraft/util/SCItem.java:30-31 | an item with the given meta |
| SCItem.AddAttrib | src/main/java/com/stemcraft/util/SCItem.java:30-40 | a supported value on an item with meta is stored and reads back; otherwise nothing changes |
| SCItem.HasAttrib | src/main/java/com/stemcraft/util/SCItem.java:49-57 | only a stored string counts |
| SCItem.RemoveAttrib | src/main/java/com/stemcraft/util/SCItem.java:65-72 | the key is removed, so every `getAttrib` of it returns its default |
| SCItem.GetAttrib | src/main/java/com/stemcraft/util/SCItem.java:83-100 | the stored value exactly when there is meta, a supported type and a stored non-`null` value of that type, on any item and not only after `addAttrib`; the default in every other case |
| SCItem.GetAttribOrNull | src/main/java/com/stemcraft/util/SCItem.java:102-104 | `null` or a value of the asked type |
| SCItem.Prices.constructor | src/main/java/com/stemcraft/util/SCItem.java:19-21 | an empty table and no file |
| SCItem.Prices.LoadPricesFromConfig | src/main/java/com/stemcraft/util/SCItem.java:147-185 | a missing file changes nothing; a file whose `prices` is not a section throws with the table cleared; otherwise the table holds exactly one price per upper-cased name under `prices`, 0 for an unparsable value |
| SCItem.LoadedStep | src/main/java/com/stemcraft/util/SCItem.java:166-176 | storing one more name's price keeps the table loaded from the names so far |
| SCItem.KeysStep | src/main/java/com/stemcraft/util/SCItem.java:166-176 | the table's keys stay exactly the upper-cased names read so far |
| SCItem.PricesStep | src/main/java/com/stemcraft/util/SCItem.java:166-176 | every key keeps the price of a name read so far whose upper-cased form it is |
| SCItem.Prices.GetPrice | src/main/java/com/stemcraft/util/SCItem.java:193-195 | the stored price of the upper-cased material, or the default |
| SCItem.Prices.GetPriceOrZero | src/main/java/com/stemcraft/util/SCItem.java:202-204 | 0 for a missing material |
| SCItem.Prices.SetPrice | src/main/java/com/stemcraft/util/SCItem.java:211-223 | the price is stored under the upper-cased material and any casing reads it back; with no file loaded it throws `NullPointerException`, otherwise `prices.<MATERIAL>` is set in the file's configuration to the price as a `Double` |
| SCItem.GetPriceIgnoresCase | src/main/java/com/stemcraft/util/SCItem.java:193-195 | materials equal ignoring case have the same price |
| SCItem.UnlistedMaterialCostsDefault | src/main/java/com/stemcraft/util/SCItem.java:164-176 | after a load, a material listed under no casing has no price |
| SCChatMenu.Start | src/main/java/com/stemcraft/util/SCChatMenu.java:61 | page `p` starts at item `(p-1)*8` |
| SCChatMenu.MaxPages | src/main/java/com/stemcraft/util/SCChatMenu.java:62 | the page count is the ceiling of `count/8` |
| SCChatMenu.MaxPagesOfCount | src/main/java/com/stemcraft/util/SCChatMenu.java:62 | for a count that is not negative it is `(count+7)/8` |
| SCChatMenu.PagesStartInsideTheList | src/main/java/com/stemcraft/util/SCChatMenu.java:61-62 | every page from 1 to the last starts at an existing item |
| SCChatMenu.PagesAfterTheLastAreEmpty | src/main/java/com/stemcraft/util/SCChatMenu.java:61-62 | a page after the last starts past the end |
| SCChatMenu.SeparatorLength | src/main/java/com/stemcraft/util/SCChatMenu.java:106-110 | the dash count is `(54 - length) / 2` truncated toward zero, and negative, so that `repeat` throws, exactly for a text of 56 characters or more |
| SCChatMenu.ItemLines | src/main/java/com/stemcraft/util/SCChatMenu.java:73-75 | one line per item, in order |
| SCChatMenu.PageFooter | src/main/java/com/stemcraft/util/SCChatMenu.java:78-92 | a previous link iff `page > 1`, a next link iff `page < maxPages`, each running the command for that page |
| SCChatMenu.ChatMenu.constructor | src/main/java/com/stemcraft/util/SCChatMenu.java:22-25 | sender and page as given; the default "none" text |
| SCChatMenu.ChatMenu.FromText | src/main/java/com/stemcraft/util/SCChatMenu.java:27-33 | the page is the parsed number, 0 when the text is not one; the sender is not stored |
| SCChatMenu.ChatMenu.FromTextKeepingSender | src/main/java/com/stemcraft/util/SCChatMenu.java:27-33 | as `FromText`, keeping the sender |
| SCChatMenu.ChatMenu.Count | src/main/java/com/stemcraft/util/SCChatMenu.java:35-38 | sets the count only and returns the menu |
| SCChatMenu.ChatMenu.Command | src/main/java/com/stemcraft/util/SCChatMenu.java:40-43 | sets the command only and returns the menu |
| SCChatMenu.ChatMenu.Title | src/main/java/com/stemcraft/util/SCChatMenu.java:45-48 | sets the title only and returns the menu |
| SCChatMenu.ChatMenu.NoneMessage | src/main/java/com/stemcraft/util/SCChatMenu.java:55-58 | sets the "none" text only and returns the menu |
| SCChatMenu.ChatMenu.ShowItems | src/main/java/com/stemcraft/util/SCChatMenu.java:60-115 | an empty page sends only the "none" error (`NullPointerException` for a `null` sender). For a non-empty page, in Java's evaluation order: a `null` title (the default) throws `NullPointerException`, a title too long to centre throws `IllegalArgumentException`, then a `null` sender throws `NullPointerException`, all before anything is sent. Otherwise the title bar and the page's lines are sent, then the footer, or `IllegalArgumentException` when the footer is too long to centre |
| SCChatMenu.TextPageMenuThrows | src/main/java/com/stemcraft/util/SCChatMenu.java:27-33 | a menu built from a page text throws when shown, even with a title set: `IllegalArgumentException` when a non-empty page's title is too long to centre, `NullPointerException` otherwise |
| SCChatMenu.TextPageMenuShows | src/main/java/com/stemcraft/util/SCChatMenu.java:27-33 | with the sender kept and a title set it never throws `NullPointerException`; it fails only when a bar is too long to centre, and otherwise shows the page under that title |

## Left out

- The asynchronous world lifecycle (teleports, scheduled tasks, `Bukkit.unloadWorld`, world creation and copying) is not modelled. These are driven by the scheduler. `SCWorld.Worlds.Unloaded` stands for the delayed removal from the unloading list.
- File system work is not modelled: world folders, saving `worlds.yml` and `prices.yml`, extracting files. `SCItem.Prices.SetPrice` does not model the logging of an `IOException` when the file is saved.
- `SCHologram`, the listeners, the plugin classes and `SCPlayer` are not part of this model. They are host plumbing.
- Adventure rendering is not modelled: colours, prefixes, the dashes of the separator line, hover and click events. Messages are plain texts and menu lines are datatypes.
- SCChatMenu.ChatMenu.ShowItems: the length of a component's `toString()` (Adventure's debug form) is not computed; it is a parameter, so whether a bar is too long to centre is left to it.
- The YAML parser is not modelled; a configuration is a flat map from dotted paths to values. A number carries the text its Java `toString` gives, which the model does not compute (`SCItem.Prices.SetPrice` takes `Double.toString` as a parameter). A section's text is `MemorySection[path='…', root='YamlConfiguration']`, and it is taken as never parsing as a number.
- `Long.parseLong`, `Integer.parseInt`, `Double.parseDouble` and `SCString.stringToLocation` are parameters, and `World.isAutoSave()` is a function parameter. A sender's `hasPermission` is a parameter of `WorldCommand.Execute`; the permission system is not modelled.
- `JString.Lower`, `JString.Upper`: case mapping covers ASCII letters only, not Java's full Unicode mapping.
- `NamespacedKey` normalisation is not modelled; attribute keys are used as given. Bukkit's check of the stored primitive type is modelled as equality of data types.
- SCItem.Prices.LoadPricesFromConfig, SCItem.Prices.GetPrice, SCItem.Prices.SetPrice and SCItem.Obj: Java's `double` and `float` are unbounded `real`s here and a `byte` an unbounded `int`. NaN, the infinities and `-0.0` (from `Double.parseDouble` or a YAML `.nan`/`.inf`) are not represented, nor is the rounding of `doubleValue()` for an integer above 2^53; the `parseDouble` parameter yields only finite values.
- `HashMap` iteration order is not modelled. `SCItem.Prices.LoadPricesFromConfig` takes the names in any order.
- `VariableManager.Variables.Replace`: the do-while can repeat forever on a token with no handler. The method therefore takes a pass budget and returns `None` when the budget runs out. `UnknownTokenNeverFinishes` shows that such a token needs every budget. Handlers are evaluated once per call, as functions of the player.
- `SCChatMenu.ChatMenu.ShowItems`: does not model 32-bit overflow of `(page-1)*8`, because integers are unbounded here.
- `SCString.CalculatePixelWidth`: does not model 32-bit overflow of the width sum, because integers are unbounded here.
- SCString.CalculatePixelWidth: counts Unicode scalar values, where Java's `toCharArray` counts UTF-16 code units. A character outside the Basic Multilingual Plane therefore weighs one `DEFAULT_WIDTH` here and two in Java, because Dafny's `char` is a scalar value.
- STEMCraftLib.LoadWidthSet: for the same reason a character outside the Basic Multilingual Plane adds itself here, where Java adds its two surrogate halves.
- STEMCraftLib.GetStackTrace: a cause chain is a finite sequence here. A cycle of causes, possible through `initCause`, makes Java's do-while loop forever; the model cannot express that.
- `STEMCraftLib.RegisterCommand`: the command map and the reflective `PluginCommand` creation are not modelled. The model assumes both succeed.
- `SCChatMenu.render`, `getPageFromArgs` and `SCWorld.list` are not part of this model. `executeList` is modelled from its row loop on, over a given list of names.
- `WorldCommand.ExecuteCreate` stops at the call of `SCWorld.create`. The other `/world` handlers (delete, load, unload, teleport, spawn, setspawn, copy, save, listgenerators) only call host operations and are not modelled beyond their dispatch.

## Findings

| source | as written | input that shows it | evidently intended | confidence | as-written member | corrected member |
|---|---|---|---|---|---|---|
| src/main/java/com/stemcraft/command/World.java:444-454 | `autosave` and `bedrespawn` read arguments only when `args.size() > 2`, and the world after a status only when `> 3` | from the console, `/world autosave enabled lobby` is refused for want of a world name (`AutosaveStatusThenWorld`); `/world autosave lobby` reads nothing | thresholds 1 and 2, as `gamemode` uses (World.java:622-633) | not executed | WorldCommand.ExecuteAutosave | WorldCommand.ExecuteAutosaveCorrected |
| src/main/java/com/stemcraft/command/World.java:483-494 | the reply names the world by the typed name | a player running `/world autosave enabled lobby`: the status is read and the name is not, so the player's own world changes, then the reply's `null` name throws | name the world acted on | not executed | WorldCommand.OwnWorldReplyThrows | WorldCommand.StatusReply |
| src/main/java/com/stemcraft/command/World.java:693 | the game-mode reply names the world by the typed name | a player running `/world gamemode creative`: every player in the player's world is set to creative, then the reply's `null` name throws (`GameModeOwnWorldThrows`) | name the world acted on | not executed | WorldCommand.ExecuteGameMode | WorldCommand.ExecuteGameModeCorrected |
| src/main/java/com/stemcraft/util/SCChatMenu.java:27-33 | the text-page constructor never stores the sender | `new SCChatMenu(player, "2").title("Worlds").showItems(f)` throws `NullPointerException`, or `IllegalArgumentException` first when the title's component text is 56 characters or longer | store the sender as the other constructor does | not executed | SCChatMenu.TextPageMenuThrows | SCChatMenu.TextPageMenuShows |
