/**
 * `STEMCraftLib`: the plugin's static helpers that are plain logic — the
 * feature list behind `supports`, the character width sets read from the
 * configuration, the stack-trace formatter and the string form of
 * `registerCommand`.
 */
module STEMCraftLib {
  import opened JString
  import opened Config
  import STEMCraftCommand

  // ---------------------------------------------------------------------
  // supports
  // ---------------------------------------------------------------------

  const SUPPORTED_ATTRIBUTES: seq<string> :=
    ["plugin_base", "register_event", "register_command", "tab_completion",
     "message", "log", "bedrock", "item_attrib", "player_heads"]

  /** Some name of `names` equals `attribute`, ignoring case. */
  predicate AnyEqualsIgnoreCase(names: seq<string>, attribute: string) {
    exists i :: 0 <= i < |names| && EqualsIgnoreCase(names[i], attribute)
  }

  predicate IsSupported(attribute: string) {
    AnyEqualsIgnoreCase(SUPPORTED_ATTRIBUTES, attribute)
  }

  /** `supports(attribute)`: a scan of the feature list that ignores case. */
  method Supports(attribute: string) returns (r: bool)
    ensures r <==> IsSupported(attribute)
  {
    r := Scan(SUPPORTED_ATTRIBUTES, attribute);
  }

  method Scan(names: seq<string>, attribute: string) returns (r: bool)
    ensures r <==> AnyEqualsIgnoreCase(names, attribute)
  {
    for i := 0 to |names|
      invariant forall j :: 0 <= j < i ==> !EqualsIgnoreCase(names[j], attribute)
    {
      if EqualsIgnoreCase(names[i], attribute) {
        return true;
      }
    }
    return false;
  }

  /** Against a list of lowercase names, ignoring case is looking the lowercase form up. */
  lemma AnyEqualsIgnoreCaseIff(names: seq<string>, attribute: string)
    requires forall i :: 0 <= i < |names| ==> IsLowerCase(names[i])
    ensures AnyEqualsIgnoreCase(names, attribute) <==> Lower(attribute) in names
  {
    if Lower(attribute) in names {
      var i :| 0 <= i < |names| && names[i] == Lower(attribute);
      LowerIdempotent(attribute);
      assert EqualsIgnoreCase(names[i], attribute);
    }
    if AnyEqualsIgnoreCase(names, attribute) {
      var i :| 0 <= i < |names| && EqualsIgnoreCase(names[i], attribute);
      LowerOfLowerCase(names[i]);
    }
  }

  /** An attribute is supported exactly when its lowercase form is one of the listed names. */
  lemma SupportedIff(attribute: string)
    ensures IsSupported(attribute) <==> Lower(attribute) in SUPPORTED_ATTRIBUTES
  {
    assert IsLowerCase("plugin_base") by {
      var s := "plugin_base";
      forall i | 0 <= i < |s| ensures !IsUpperAscii(s[i]) { }
    }
    assert IsLowerCase("register_event") by {
      var s := "register_event";
      forall i | 0 <= i < |s| ensures !IsUpperAscii(s[i]) { }
    }
    assert IsLowerCase("register_command") by {
      var s := "register_command";
      forall i | 0 <= i < |s| ensures !IsUpperAscii(s[i]) { }
    }
    assert IsLowerCase("tab_completion") by {
      var s := "tab_completion";
      forall i | 0 <= i < |s| ensures !IsUpperAscii(s[i]) { }
    }
    assert IsLowerCase("message") by {
      var s := "message";
      forall i | 0 <= i < |s| ensures !IsUpperAscii(s[i]) { }
    }
    assert IsLowerCase("log") by {
      var s := "log";
      forall i | 0 <= i < |s| ensures !IsUpperAscii(s[i]) { }
    }
    assert IsLowerCase("bedrock") by {
      var s := "bedrock";
      forall i | 0 <= i < |s| ensures !IsUpperAscii(s[i]) { }
    }
    assert IsLowerCase("item_attrib") by {
      var s := "item_attrib";
      forall i | 0 <= i < |s| ensures !IsUpperAscii(s[i]) { }
    }
    assert IsLowerCase("player_heads") by {
      var s := "player_heads";
      forall i | 0 <= i < |s| ensures !IsUpperAscii(s[i]) { }
    }
    AnyEqualsIgnoreCaseIff(SUPPORTED_ATTRIBUTES, attribute);
  }

  // ---------------------------------------------------------------------
  // Character widths
  // ---------------------------------------------------------------------

  /** Width of a character in no set. */
  const DEFAULT_WIDTH: nat := 6

  /** The six character sets of the default font, by pixel width (2 to 7). */
  datatype WidthSets = WidthSets(w2: set<char>, w3: set<char>, w4: set<char>,
                                 w5: set<char>, w6: set<char>, w7: set<char>)

  function DefaultWidths(): WidthSets {
    WidthSets(
      {'i', '!', ';', ':', '\'', ',', '.', '|'},
      {'l', '`'},
      {'t', '*', '(', ')', '[', ']', '{', '}', '"', 'I', ' '},
      {'f', 'k', '<', '>'},
      {'a', 'b', 'c', 'd', 'e', 'g', 'h', 'j', 'm', 'n', 'o', 'p', 'q', 'r', 's', 'u',
       'v', 'w', 'x', 'y', 'z',
       'A', 'B', 'C', 'D', 'E', 'F', 'G', 'H', 'J', 'K', 'L', 'M', 'N', 'O', 'P', 'Q',
       'R', 'S', 'T', 'U', 'V', 'W', 'X', 'Y', 'Z',
       '0', '1', '2', '3', '4', '5', '6', '7', '8', '9',
       '#', '$', '%', '^', '&', '-', '_', '=', '+', '/', '?', '\\'},
      {'~', '@'})
  }

  /**
   * What `loadWidthSet` promises: with no text configured at `path` the
   * default set, otherwise exactly the characters of that text (the
   * defaults are replaced, not extended).
   */
  predicate LoadedFrom(config: Config, path: string, defaultSet: set<char>, result: set<char>) {
    var values := GetStringOr(config, path, "");
    (values == "" ==> result == defaultSet) &&
    (values != "" ==> forall c :: c in result <==> c in values)
  }

  method LoadWidthSet(config: Config, path: string, defaultSet: set<char>) returns (result: set<char>)
    ensures LoadedFrom(config, path, defaultSet, result)
  {
    result := {};
    var values := GetStringOr(config, path, "");
    if values != "" {
      for i := 0 to |values|
        invariant forall c :: c in result <==> c in values[..i]
      {
        result := result + {values[i]};
      }
      assert values[..|values|] == values;
    } else {
      result := defaultSet;
    }
  }

  /**
   * The width part of `onEnable`: the sets for widths 2 to 6 are read from
   * `widths.2` … `widths.6`; the 7-pixel set is never configurable.
   */
  method LoadWidths(config: Config, current: WidthSets) returns (w: WidthSets)
    ensures LoadedFrom(config, "widths.2", current.w2, w.w2)
    ensures LoadedFrom(config, "widths.3", current.w3, w.w3)
    ensures LoadedFrom(config, "widths.4", current.w4, w.w4)
    ensures LoadedFrom(config, "widths.5", current.w5, w.w5)
    ensures LoadedFrom(config, "widths.6", current.w6, w.w6)
    ensures w.w7 == current.w7
  {
    var w2 := LoadWidthSet(config, "widths.2", current.w2);
    var w3 := LoadWidthSet(config, "widths.3", current.w3);
    var w4 := LoadWidthSet(config, "widths.4", current.w4);
    var w5 := LoadWidthSet(config, "widths.5", current.w5);
    var w6 := LoadWidthSet(config, "widths.6", current.w6);
    w := WidthSets(w2, w3, w4, w5, w6, current.w7);
  }

  // ---------------------------------------------------------------------
  // Stack traces
  // ---------------------------------------------------------------------

  /**
   * One throwable of a cause chain: its class's simple name, `getMessage()`,
   * `getLocalizedMessage()` (`None` for `null`) and its stack frames as
   * `StackTraceElement.toString()` writes them. A chain is the throwable
   * followed by its causes; the empty chain stands for a `null` throwable.
   */
  datatype Throwable = Throwable(simpleName: string, message: Option<string>,
                                 localizedMessage: Option<string>, frames: seq<string>)

  /** A text that is present and not blank. */
  predicate Meaningful(v: Option<string>) {
    v.Some? && !IsBlank(v.value)
  }

  /** The text after the class name: the message, else the localised message, else a fixed phrase. */
  function Describe(t: Throwable): (r: string)
    ensures !IsBlank(r)
    ensures Meaningful(t.message) ==> r == t.message.value
    ensures !Meaningful(t.message) && Meaningful(t.localizedMessage) ==> r == t.localizedMessage.value
    ensures !Meaningful(t.message) && !Meaningful(t.localizedMessage) ==> r == "(Unknown cause)"
  {
    if Meaningful(t.message) then t.message.value
    else if Meaningful(t.localizedMessage) then t.localizedMessage.value
    else assert !IsWhitespace("(Unknown cause)"[0]); "(Unknown cause)"
  }

  function Header(t: Throwable): string {
    t.simpleName + " " + Describe(t)
  }

  function FrameLine(frame: string): string {
    "\t at " + frame
  }

  /**
   * The lines for the frames of one throwable, `count` frames having been
   * looked at already: a `sun.reflect` frame is skipped, and a
   * `net.minecraft.server` frame past the sixth ends the list.
   */
  function FrameLines(frames: seq<string>, count: nat): (r: seq<string>)
    ensures |r| <= |frames|
    ensures forall l :: l in r ==> exists j :: 0 <= j < |frames| && l == FrameLine(frames[j]) && !JString.Contains(frames[j], "sun.reflect")
    decreases |frames|
  {
    if frames == [] then []
    else if JString.Contains(frames[0], "sun.reflect") then FrameLines(frames[1..], count + 1)
    else if count + 1 > 6 && StartsWith(frames[0], "net.minecraft.server") then []
    else [FrameLine(frames[0])] + FrameLines(frames[1..], count + 1)
  }

  function ChainLines(chain: seq<Throwable>): seq<string> {
    if chain == [] then []
    else [Header(chain[0])] + FrameLines(chain[0].frames, 0) + ChainLines(chain[1..])
  }

  /** `getStackTrace(t)`, for the chain that starts at `t`. */
  function Trace(chain: seq<Throwable>): seq<string> {
    if chain == [] then ["Unknown error"] else ChainLines(chain)
  }

  /** `getStackTrace`: a walk down the cause chain with an inner walk over each throwable's frames. */
  method GetStackTrace(chain: seq<Throwable>) returns (lines: seq<string>)
    ensures lines == Trace(chain)
  {
    if chain == [] {
      return ["Unknown error"];
    }
    lines := [];
    var i := 0;
    while i < |chain|
      invariant 0 <= i <= |chain|
      invariant lines + ChainLines(chain[i..]) == ChainLines(chain)
    {
      var t := chain[i];
      ChainLinesStep(lines, chain, i);
      var header := HeaderLine(t);
      lines := AppendFrames(lines + [header], t.frames);
      i := i + 1;
    }
  }

  /** One turn of the outer loop: the throwable at `i` contributes its header, then its frames. */
  lemma ChainLinesStep(lines: seq<string>, chain: seq<Throwable>, i: nat)
    requires i < |chain|
    ensures lines + ChainLines(chain[i..])
            == (lines + [Header(chain[i])] + FrameLines(chain[i].frames, 0)) + ChainLines(chain[i + 1..])
  {
    var rest := chain[i..];
    assert rest[0] == chain[i] && rest[1..] == chain[i + 1..];
    var own := [Header(chain[i])] + FrameLines(chain[i].frames, 0);
    assert ChainLines(rest) == own + ChainLines(chain[i + 1..]);
    assert lines + (own + ChainLines(chain[i + 1..])) == (lines + own) + ChainLines(chain[i + 1..]);
  }

  /** The header of one throwable, with the message falling back as the plugin does. */
  method HeaderLine(t: Throwable) returns (header: string)
    ensures header == Header(t)
  {
    var v := t.message;
    var text: string;
    if v.None? || IsBlank(v.value) {
      v := t.localizedMessage;
      if v.None? || IsBlank(v.value) {
        text := "(Unknown cause)";
      } else {
        text := v.value;
      }
    } else {
      text := v.value;
    }
    header := t.simpleName + " " + text;
  }

  /** The inner loop over one throwable's frames, counting skipped frames too. */
  method AppendFrames(lines0: seq<string>, frames: seq<string>) returns (lines: seq<string>)
    ensures lines == lines0 + FrameLines(frames, 0)
  {
    lines := lines0;
    var count := 0;
    var k := 0;
    while k < |frames|
      invariant 0 <= k <= |frames| && count == k
      invariant lines + FrameLines(frames[k..], count) == lines0 + FrameLines(frames, 0)
    {
      count := count + 1;
      var trace := frames[k];
      assert frames[k..] == [trace] + frames[k + 1..];
      if JString.Contains(trace, "sun.reflect") {
        k := k + 1;
        continue;
      }
      if count > 6 && StartsWith(trace, "net.minecraft.server") {
        break;
      }
      lines := lines + [FrameLine(trace)];
      k := k + 1;
    }
    assert frames[0..] == frames;
  }

  /** `getStackTrace(null)` is the single line "Unknown error". */
  lemma NullTrace()
    ensures Trace([]) == ["Unknown error"]
  {
  }

  /**
   * A `net.minecraft.server` frame at position `j` past the sixth that is
   * not a `sun.reflect` frame cuts the list before it: the lines are those
   * of the frames before it, and neither it nor any later frame shows.
   */
  lemma {:induction false} ServerFrameCutsOff(frames: seq<string>, count: nat, j: nat)
    requires j < |frames| && count + j + 1 > 6
    requires StartsWith(frames[j], "net.minecraft.server") && !JString.Contains(frames[j], "sun.reflect")
    ensures FrameLines(frames, count) == FrameLines(frames[..j], count)
    ensures |FrameLines(frames, count)| <= j
    decreases j
  {
    if j > 0 {
      ServerFrameCutsOff(frames[1..], count + 1, j - 1);
      assert frames[..j][0] == frames[0];
      assert frames[..j][1..] == frames[1..][..j - 1];
    } else {
      assert frames[..j] == [];
    }
  }

  /** A header never begins with a tab: Java class names hold no tab. */
  predicate PlainName(t: Throwable) {
    t.simpleName == [] || t.simpleName[0] != '\t'
  }

  /** Lines that are not frame lines. */
  function CountHeaders(lines: seq<string>): nat {
    if lines == [] then 0
    else (if StartsWith(lines[0], "\t") then 0 else 1) + CountHeaders(lines[1..])
  }

  lemma {:induction false} CountHeadersAppend(a: seq<string>, b: seq<string>)
    ensures CountHeaders(a + b) == CountHeaders(a) + CountHeaders(b)
    decreases |a|
  {
    if a != [] {
      assert (a + b)[1..] == a[1..] + b;
      CountHeadersAppend(a[1..], b);
    } else {
      assert a + b == b;
    }
  }

  lemma {:induction false} FrameLinesHaveNoHeader(frames: seq<string>, count: nat)
    ensures CountHeaders(FrameLines(frames, count)) == 0
    decreases |frames|
  {
    if frames != [] {
      FrameLinesHaveNoHeader(frames[1..], count + 1);
      if !JString.Contains(frames[0], "sun.reflect") && !(count + 1 > 6 && StartsWith(frames[0], "net.minecraft.server")) {
        CountHeadersAppend([FrameLine(frames[0])], FrameLines(frames[1..], count + 1));
      }
    }
  }

  /** The header of a throwable whose class name does not start with a tab counts once. */
  lemma HeaderCounts(t: Throwable)
    requires PlainName(t)
    ensures CountHeaders([Header(t)]) == 1
  {
    assert Header(t)[0] == (if t.simpleName == [] then ' ' else t.simpleName[0]);
    assert [Header(t)][1..] == [];
  }

  /** There is one header line per throwable of the chain, and one line for a `null` throwable. */
  lemma {:induction false} OneHeaderPerThrowable(chain: seq<Throwable>)
    requires forall t :: t in chain ==> PlainName(t)
    ensures CountHeaders(ChainLines(chain)) == |chain|
    ensures chain != [] ==> CountHeaders(Trace(chain)) == |chain|
    decreases |chain|
  {
    if chain != [] {
      var t := chain[0];
      assert PlainName(t);
      OneHeaderPerThrowable(chain[1..]);
      FrameLinesHaveNoHeader(t.frames, 0);
      CountHeadersAppend([Header(t)] + FrameLines(t.frames, 0), ChainLines(chain[1..]));
      CountHeadersAppend([Header(t)], FrameLines(t.frames, 0));
      HeaderCounts(t);
      assert chain == [t] + chain[1..];
    }
  }

  // ---------------------------------------------------------------------
  // registerCommand(executor, command, String aliases, String tabCompletions)
  // ---------------------------------------------------------------------

  /** The alias list and the completion patterns made from the two strings (`None` for `null`). */
  datatype CommandLists = CommandLists(aliases: seq<string>, patterns: seq<seq<string>>)

  function SplitCommandStrings(aliases: Option<string>, tabCompletions: Option<string>): (r: CommandLists)
    ensures aliases.None? ==> r.aliases == []
    ensures aliases.Some? ==> r.aliases == JavaSplit(aliases.value, ' ')
    ensures tabCompletions.None? ==> r.patterns == []
    ensures tabCompletions.Some? ==> |r.patterns| == 1 && r.patterns[0] == JavaSplit(tabCompletions.value, ' ')
  {
    CommandLists(
      if aliases.Some? then JavaSplit(aliases.value, ' ') else [],
      if tabCompletions.Some? then [JavaSplit(tabCompletions.value, ' ')] else [])
  }

  /** A completion string that does not end in a space is split into words that join back into it. */
  lemma PatternWordsRejoin(tabCompletions: string)
    requires |tabCompletions| > 0 && tabCompletions[|tabCompletions| - 1] != ' '
    ensures var r := SplitCommandStrings(None, Some(tabCompletions));
            |r.patterns[0]| >= 1 && Join(r.patterns[0], ' ') == tabCompletions
  {
    JoinJavaSplit(tabCompletions, ' ');
  }

  /**
   * The part of `registerCommand` that touches the executor: every pattern
   * is added to it, in order. The alias list is returned for the command map.
   */
  method RegisterCommand(executor: STEMCraftCommand.Command, aliases: Option<string>, tabCompletions: Option<string>)
      returns (aliasList: seq<string>)
    modifies executor
    ensures aliasList == SplitCommandStrings(aliases, tabCompletions).aliases
    ensures executor.tabCompletionList
            == old(executor.tabCompletionList) + SplitCommandStrings(aliases, tabCompletions).patterns
  {
    var lists := SplitCommandStrings(aliases, tabCompletions);
    aliasList := lists.aliases;
    for i := 0 to |lists.patterns|
      invariant executor.tabCompletionList == old(executor.tabCompletionList) + lists.patterns[..i]
    {
      executor.AddTabCompletion(lists.patterns[i]);
      assert lists.patterns[..i + 1] == lists.patterns[..i] + [lists.patterns[i]];
    }
    assert lists.patterns[..|lists.patterns|] == lists.patterns;
  }
}
