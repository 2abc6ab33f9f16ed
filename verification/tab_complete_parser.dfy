/**
 * The tab-completion matcher shared by both `STEMCraftCommand` classes
 * (`TabCompleteArgParser` and `onTabComplete`). A command holds a list of
 * patterns; each pattern item is a literal, a `{placeholder}`, a `-flag` or a
 * one-character `k:value` option. The matcher walks the words already typed
 * with a cursor, skips flag words, checks each positional word against the
 * pattern, and offers the candidates of the item it reaches when the typed
 * words run out, filtered by the word being typed.
 *
 * Placeholders are looked up in `completions`, the registry's lists as
 * evaluated for this one completion request.
 *
 * The pure functions below state what each step computes; the class
 * `ArgParser` and the method `Complete` do it step by step, as the plugin
 * does, and are proved to compute exactly those functions.
 */
module TabCompleteParser {
  import opened JString

  datatype ValueOption = ValueOption(option: string, value: string)

  /** `getStringAsOption`: a word starting with `-` is a flag, lowercased. */
  function AsOption(arg: string): (r: Option<string>)
    ensures r.Some? <==> |arg| > 0 && arg[0] == '-'
    ensures r.Some? ==> |r.value| == |arg| && IsLowerCase(r.value) && EqualsIgnoreCase(r.value, arg)
  {
    LowerIsLowerCase(arg);
    LowerIdempotent(arg);
    if StartsWith(arg, "-") then Some(Lower(arg)) else None
  }

  /** The character class `[a-zA-Z0-9-_]`. */
  predicate IsKeyChar(c: char) {
    'a' <= c <= 'z' || 'A' <= c <= 'Z' || '0' <= c <= '9' || c == '-' || c == '_'
  }

  /** The characters a regular-expression `.` does not match. */
  predicate IsLineTerminator(c: char) {
    c == '\n' || c == '\r' || c == '\U{0085}' || c == '\U{2028}' || c == '\U{2029}'
  }

  /** `arg.matches("^[a-zA-Z0-9-_]:.*")` */
  predicate MatchesValueOption(arg: string) {
    |arg| >= 2 && IsKeyChar(arg[0]) && arg[1] == ':'
    && forall i :: 2 <= i < |arg| ==> !IsLineTerminator(arg[i])
  }

  /**
   * `getStringAsValueOption`: the option is the text before the first `:`,
   * lowercased, and the value everything after it.
   */
  function AsValueOption(arg: string): (r: Option<ValueOption>)
    ensures r.Some? <==> MatchesValueOption(arg)
    ensures r.Some? ==> r.value.option == [ToLowerChar(arg[0])]
    ensures r.Some? ==> arg == [arg[0], ':'] + r.value.value
  {
    if MatchesValueOption(arg) then
      assert ':' in arg by { assert arg[1] == ':'; }
      IndexOfFirst(arg, ':');
      var k := IndexOf(arg, ':').value;
      assert k == 1;
      Some(ValueOption(Lower(arg[..k]), arg[k + 1..]))
    else
      None
  }

  /** A typed word `nextMatches` passes over: a flag or a value option. */
  predicate IsFlagWord(arg: string) {
    (|arg| > 0 && arg[0] == '-') || MatchesValueOption(arg)
  }

  /** Every word of `args` from `lo` up to `hi` is a flag word. */
  predicate AllFlags(args: seq<string>, lo: int, hi: int)
    requires 0 <= lo && hi <= |args|
  {
    forall i :: lo <= i < hi ==> IsFlagWord(args[i])
  }

  /** `list(key)` of the registry: an exact-key lookup, empty on a miss. */
  function Lookup(completions: map<string, seq<string>>, key: string): seq<string> {
    if key in completions then completions[key] else []
  }

  /** `parseValue`: `{p}` stands for the registry's list `p`; anything else for itself. */
  function ParseValue(value: string, completions: map<string, seq<string>>): (r: seq<string>)
    ensures (|value| >= 2 && value[0] == '{' && value[|value| - 1] == '}')
              ==> r == Lookup(completions, value[1..|value| - 1])
    ensures !(|value| >= 2 && value[0] == '{' && value[|value| - 1] == '}') ==> r == [value]
  {
    if StartsWith(value, "{") && EndsWith(value, "}") then
      assert |value| >= 2 by { assert value[0] == '{' && value[|value| - 1] == '}'; }
      Lookup(completions, value[1..|value| - 1])
    else
      [value]
  }

  /** A placeholder item offers the registry's list under its name. */
  lemma ParseValueOfPlaceholder(p: string, completions: map<string, seq<string>>)
    ensures ParseValue("{" + p + "}", completions) == Lookup(completions, p)
  {
    var v := "{" + p + "}";
    assert v[1..|v| - 1] == p;
  }

  /** The parser's fields: what is still available, what was used, and the cursor. */
  datatype ParserState = ParserState(
    optionsAvailable: seq<string>,
    valueOptionsAvailable: map<string, seq<string>>,
    optionsUsed: seq<string>,
    valueOptionsUsed: seq<string>,
    argIndex: nat)

  function Initial(): ParserState {
    ParserState([], map[], [], [], 0)
  }

  /** The bookkeeping for one flag word: mark it used, drop it from the available ones, move on. */
  function Skip(st: ParserState, arg: string): (r: ParserState)
    requires IsFlagWord(arg)
    ensures r.argIndex == st.argIndex + 1
  {
    assert AsOption(arg).Some? || AsValueOption(arg).Some?;
    match AsOption(arg)
    case Some(o) =>
      st.(optionsUsed := st.optionsUsed + [o],
          optionsAvailable := RemoveFirst(st.optionsAvailable, o),
          argIndex := st.argIndex + 1)
    case None =>
      var vo := AsValueOption(arg).value;
      st.(valueOptionsUsed := st.valueOptionsUsed + [vo.option],
          valueOptionsAvailable := st.valueOptionsAvailable - {vo.option},
          argIndex := st.argIndex + 1)
  }

  /** The three-valued answer of `nextMatches` (`None` for `null`) and the parser afterwards. */
  datatype Outcome = Outcome(result: Option<bool>, state: ParserState)

  /**
   * `nextMatches(item)` (`item` is `None` for `next()`): skip flag words;
   * on the first positional word answer true and step past it when `item` is
   * absent or lists that word, answer false and stay on it otherwise;
   * answer `None` when the words run out.
   */
  function Advance(args: seq<string>, completions: map<string, seq<string>>,
                   item: Option<string>, st: ParserState): (r: Outcome)
    requires st.argIndex <= |args|
    ensures st.argIndex <= r.state.argIndex <= |args|
    ensures r.result.None? ==> r.state.argIndex == |args|
    ensures item.None? && st.argIndex < |args| ==> st.argIndex < r.state.argIndex
    decreases |args| - st.argIndex
  {
    if st.argIndex == |args| then
      Outcome(None, st)
    else
      var arg := args[st.argIndex];
      if IsFlagWord(arg) then
        Advance(args, completions, item, Skip(st, arg))
      else if item.None? || arg in ParseValue(item.value, completions) then
        Outcome(Some(true), st.(argIndex := st.argIndex + 1))
      else
        Outcome(Some(false), st)
  }

  /** A flag word under the cursor is skipped and the walk goes on from the next word. */
  lemma AdvanceSkips(args: seq<string>, completions: map<string, seq<string>>,
                     item: Option<string>, st: ParserState)
    requires st.argIndex < |args| && IsFlagWord(args[st.argIndex])
    ensures Advance(args, completions, item, st) == Advance(args, completions, item, Skip(st, args[st.argIndex]))
  {
  }

  /** A positional word under the cursor is answered at once. */
  lemma AdvanceStops(args: seq<string>, completions: map<string, seq<string>>,
                     item: Option<string>, st: ParserState)
    requires st.argIndex < |args| && !IsFlagWord(args[st.argIndex])
    ensures Advance(args, completions, item, st)
            == if item.None? || args[st.argIndex] in ParseValue(item.value, completions)
               then Outcome(Some(true), st.(argIndex := st.argIndex + 1))
               else Outcome(Some(false), st)
  {
  }

  /** A flag word in front of a run of flag words extends the run. */
  lemma AllFlagsExtend(args: seq<string>, lo: nat, hi: nat)
    requires lo < hi <= |args| && IsFlagWord(args[lo]) && AllFlags(args, lo + 1, hi)
    ensures AllFlags(args, lo, hi)
  {
  }

  lemma {:induction false} AdvanceRunsOut(args: seq<string>, completions: map<string, seq<string>>,
                                          item: Option<string>, st: ParserState)
    requires st.argIndex <= |args|
    ensures var r := Advance(args, completions, item, st);
            r.result.None? ==> r.state.argIndex == |args| && AllFlags(args, st.argIndex, |args|)
    decreases |args| - st.argIndex
  {
    if st.argIndex < |args| && IsFlagWord(args[st.argIndex]) {
      var st' := Skip(st, args[st.argIndex]);
      AdvanceSkips(args, completions, item, st);
      AdvanceRunsOut(args, completions, item, st');
      var r := Advance(args, completions, item, st);
      if r.result.None? {
        AllFlagsExtend(args, st.argIndex, |args|);
      }
    }
  }

  /** The word before `hi` is positional and accepted by `item`, and only flag words lie between `lo` and it. */
  predicate AcceptedAfterFlags(args: seq<string>, completions: map<string, seq<string>>,
                               item: Option<string>, lo: nat, hi: nat)
    requires lo < hi <= |args|
  {
    && !IsFlagWord(args[hi - 1])
    && (item.None? || args[hi - 1] in ParseValue(item.value, completions))
    && AllFlags(args, lo, hi - 1)
  }

  /** A flag word in front of an accepted run extends it. */
  lemma AcceptedExtend(args: seq<string>, completions: map<string, seq<string>>,
                       item: Option<string>, lo: nat, hi: nat)
    requires lo + 1 < hi <= |args| && IsFlagWord(args[lo])
    requires AcceptedAfterFlags(args, completions, item, lo + 1, hi)
    ensures AcceptedAfterFlags(args, completions, item, lo, hi)
  {
    AllFlagsExtend(args, lo, hi - 1);
  }

  /** The word at `hi` is positional and not listed by `item`, and only flag words lie between `lo` and it. */
  predicate RejectedAfterFlags(args: seq<string>, completions: map<string, seq<string>>,
                               item: Option<string>, lo: nat, hi: nat)
    requires lo <= hi < |args|
  {
    && item.Some?
    && !IsFlagWord(args[hi])
    && args[hi] !in ParseValue(item.value, completions)
    && AllFlags(args, lo, hi)
  }

  lemma {:induction false} AdvanceAccepts(args: seq<string>, completions: map<string, seq<string>>,
                                          item: Option<string>, st: ParserState)
    requires st.argIndex <= |args|
    ensures var r := Advance(args, completions, item, st);
            r.result == Some(true) ==>
              st.argIndex < r.state.argIndex
              && AcceptedAfterFlags(args, completions, item, st.argIndex, r.state.argIndex)
    decreases |args| - st.argIndex
  {
    if st.argIndex < |args| {
      if IsFlagWord(args[st.argIndex]) {
        var st' := Skip(st, args[st.argIndex]);
        AdvanceSkips(args, completions, item, st);
        AdvanceAccepts(args, completions, item, st');
        var r := Advance(args, completions, item, st');
        if r.result == Some(true) {
          AcceptedExtend(args, completions, item, st.argIndex, r.state.argIndex);
        }
      } else {
        AdvanceStops(args, completions, item, st);
      }
    }
  }

  lemma {:induction false} AdvanceRejects(args: seq<string>, completions: map<string, seq<string>>,
                                          item: Option<string>, st: ParserState)
    requires st.argIndex <= |args|
    ensures var r := Advance(args, completions, item, st);
            r.result == Some(false) ==>
              r.state.argIndex < |args|
              && RejectedAfterFlags(args, completions, item, st.argIndex, r.state.argIndex)
    decreases |args| - st.argIndex
  {
    if st.argIndex < |args| {
      if IsFlagWord(args[st.argIndex]) {
        var st' := Skip(st, args[st.argIndex]);
        AdvanceSkips(args, completions, item, st);
        AdvanceRejects(args, completions, item, st');
        var r := Advance(args, completions, item, st');
        if r.result == Some(false) {
          AllFlagsExtend(args, st.argIndex, r.state.argIndex);
        }
      } else {
        AdvanceStops(args, completions, item, st);
      }
    }
  }

  /** Nothing became available, and the value options still available keep their values. */
  predicate OnlyRemoved(before: ParserState, after: ParserState) {
    && multiset(after.optionsAvailable) <= multiset(before.optionsAvailable)
    && after.valueOptionsAvailable.Keys <= before.valueOptionsAvailable.Keys
    && forall k :: k in after.valueOptionsAvailable
         ==> after.valueOptionsAvailable[k] == before.valueOptionsAvailable[k]
  }

  lemma OnlyRemovedTrans(a: ParserState, b: ParserState, c: ParserState)
    requires OnlyRemoved(a, b) && OnlyRemoved(b, c)
    ensures OnlyRemoved(a, c)
  {
  }

  lemma SkipOnlyRemoves(st: ParserState, arg: string)
    requires IsFlagWord(arg)
    ensures OnlyRemoved(st, Skip(st, arg))
  {
  }

  /**
   * Typed flag words only take flags and value options away from what is
   * available; the values of the value options that remain are untouched.
   */
  lemma {:induction false} AdvanceOnlyRemoves(args: seq<string>, completions: map<string, seq<string>>,
                                              item: Option<string>, st: ParserState)
    requires st.argIndex <= |args|
    ensures OnlyRemoved(st, Advance(args, completions, item, st).state)
    decreases |args| - st.argIndex
  {
    if st.argIndex < |args| && IsFlagWord(args[st.argIndex]) {
      var st' := Skip(st, args[st.argIndex]);
      SkipOnlyRemoves(st, args[st.argIndex]);
      AdvanceSkips(args, completions, item, st);
      AdvanceOnlyRemoves(args, completions, item, st');
      OnlyRemovedTrans(st, st', Advance(args, completions, item, st).state);
    }
  }

  /**
   * `processRemainingArgs`: `next()` while the cursor is before the last
   * word of `args` (`hasRemainingArgs`).
   */
  function DrainRemaining(args: seq<string>, completions: map<string, seq<string>>,
                          st: ParserState): (r: ParserState)
    requires st.argIndex <= |args|
    ensures st.argIndex <= r.argIndex <= |args|
    ensures r.argIndex >= |args| - 1
    ensures st.argIndex >= |args| - 1 ==> r == st
    decreases |args| - st.argIndex
  {
    if st.argIndex < |args| - 1 then
      DrainRemaining(args, completions, Advance(args, completions, None, st).state)
    else
      st
  }

  /** What one pattern yields: whether it matched, the candidates it offers, and the parser at the end. */
  datatype PatternRun = PatternRun(matches: bool, candidates: seq<string>, state: ParserState)

  /**
   * The loop over a pattern's items from index `k`: flag items become
   * available, value-option items become available with their parsed
   * values, and positional items are matched against the typed words. The
   * candidates are those of the positional item reached when the words run out.
   */
  function RunItems(pattern: seq<string>, k: nat, args: seq<string>,
                    completions: map<string, seq<string>>, st: ParserState): (r: PatternRun)
    requires k <= |pattern| && st.argIndex <= |args|
    ensures st.argIndex <= r.state.argIndex <= |args|
    ensures !r.matches ==> r.candidates == []
    ensures r.candidates != [] ==>
              r.state.argIndex == |args|
              && exists i :: k <= i < |pattern| && r.candidates == ParseValue(pattern[i], completions)
    decreases |pattern| - k
  {
    if k == |pattern| then
      PatternRun(true, [], st)
    else
      var item := pattern[k];
      match AsOption(item)
      case Some(o) =>
        RunItems(pattern, k + 1, args, completions, st.(optionsAvailable := st.optionsAvailable + [o]))
      case None =>
        match AsValueOption(item)
        case Some(vo) =>
          var vs := st.valueOptionsAvailable[vo.option := ParseValue(vo.value, completions)];
          RunItems(pattern, k + 1, args, completions, st.(valueOptionsAvailable := vs))
        case None =>
          var out := Advance(args, completions, Some(item), st);
          match out.result
          case None => PatternRun(true, ParseValue(item, completions), out.state)
          case Some(false) => PatternRun(false, [], out.state)
          case Some(true) => RunItems(pattern, k + 1, args, completions, out.state)
  }

  /** A flag item makes its flag available and moves on to the next item. */
  lemma RunItemsOptionStep(pattern: seq<string>, k: nat, args: seq<string>, completions: map<string, seq<string>>,
                           st: ParserState, o: string, next: ParserState)
    requires k < |pattern| && st.argIndex <= |args| && AsOption(pattern[k]) == Some(o)
    requires next == st.(optionsAvailable := st.optionsAvailable + [o])
    ensures RunItems(pattern, k, args, completions, st) == RunItems(pattern, k + 1, args, completions, next)
  {
  }

  /** A value-option item makes its option available with its parsed values and moves on. */
  lemma RunItemsValueOptionStep(pattern: seq<string>, k: nat, args: seq<string>,
                                completions: map<string, seq<string>>, st: ParserState, vo: ValueOption,
                                next: ParserState)
    requires k < |pattern| && st.argIndex <= |args|
    requires AsOption(pattern[k]).None? && AsValueOption(pattern[k]) == Some(vo)
    requires next == st.(valueOptionsAvailable := st.valueOptionsAvailable[vo.option := ParseValue(vo.value, completions)])
    ensures RunItems(pattern, k, args, completions, st) == RunItems(pattern, k + 1, args, completions, next)
  {
  }

  /** A positional item is matched against the typed words by `Advance`. */
  lemma RunItemsPositionalStep(pattern: seq<string>, k: nat, args: seq<string>,
                               completions: map<string, seq<string>>, st: ParserState, out: Outcome)
    requires k < |pattern| && st.argIndex <= |args|
    requires AsOption(pattern[k]).None? && AsValueOption(pattern[k]).None?
    requires out == Advance(args, completions, Some(pattern[k]), st)
    ensures out.result.None? ==>
              RunItems(pattern, k, args, completions, st) == PatternRun(true, ParseValue(pattern[k], completions), out.state)
    ensures out.result == Some(false) ==>
              RunItems(pattern, k, args, completions, st) == PatternRun(false, [], out.state)
    ensures out.result == Some(true) ==>
              RunItems(pattern, k, args, completions, st) == RunItems(pattern, k + 1, args, completions, out.state)
  {
  }

  /** One pattern against the typed words; a matching pattern then drains the remaining words. */
  function RunPattern(pattern: seq<string>, args: seq<string>,
                      completions: map<string, seq<string>>): (r: PatternRun)
    ensures !r.matches ==> r.candidates == []
    ensures r.matches ==> r.state.argIndex >= |args| - 1
  {
    var run := RunItems(pattern, 0, args, completions, Initial());
    if run.matches then run.(state := DrainRemaining(args, completions, run.state)) else run
  }

  /** The three collections `onTabComplete` gathers over the patterns. */
  datatype Collected = Collected(results: seq<string>, options: seq<string>,
                                 valueOptions: map<string, seq<string>>)

  /** The patterns taken in order; a pattern that fails adds nothing. */
  function CollectAll(patterns: seq<seq<string>>, args: seq<string>,
                      completions: map<string, seq<string>>): Collected
  {
    if patterns == [] then Collected([], [], map[])
    else
      var c := CollectAll(patterns[..|patterns| - 1], args, completions);
      var run := RunPattern(patterns[|patterns| - 1], args, completions);
      if run.matches then
        Collected(c.results + run.candidates,
                  c.options + run.state.optionsAvailable,
                  c.valueOptions + run.state.valueOptionsAvailable)
      else
        c
  }

  /** Every result is offered by some pattern that matched, from the item it reached. */
  lemma {:induction false} CollectedResultsComeFromMatches(patterns: seq<seq<string>>, args: seq<string>,
                                                           completions: map<string, seq<string>>, x: string)
    requires x in CollectAll(patterns, args, completions).results
    ensures exists j :: 0 <= j < |patterns| && RunPattern(patterns[j], args, completions).matches
                        && x in RunPattern(patterns[j], args, completions).candidates
  {
    var n := |patterns|;
    var c := CollectAll(patterns[..n - 1], args, completions);
    var run := RunPattern(patterns[n - 1], args, completions);
    if run.matches && x in run.candidates {
    } else {
      assert x in c.results;
      CollectedResultsComeFromMatches(patterns[..n - 1], args, completions, x);
      var j :| 0 <= j < n - 1 && RunPattern(patterns[..n - 1][j], args, completions).matches
               && x in RunPattern(patterns[..n - 1][j], args, completions).candidates;
      assert patterns[..n - 1][j] == patterns[j];
    }
  }

  /** A pattern that does not match leaves results, flags and value options as they were. */
  lemma FailingPatternAddsNothing(patterns: seq<seq<string>>, p: seq<string>, args: seq<string>,
                                  completions: map<string, seq<string>>)
    requires !RunPattern(p, args, completions).matches
    ensures CollectAll(patterns + [p], args, completions) == CollectAll(patterns, args, completions)
  {
    assert (patterns + [p])[..|patterns|] == patterns;
  }

  /** The candidates of a typed `k:` prefix: `k:` followed by each available value. */
  function Prefixed(prefix: string, items: seq<string>): (r: seq<string>)
    ensures |r| == |items|
    ensures forall i :: 0 <= i < |items| ==> r[i] == prefix + items[i]
  {
    if items == [] then [] else Prefixed(prefix, items[..|items| - 1]) + [prefix + items[|items| - 1]]
  }

  /** `removeIf(item -> !item.contains(w))`: the items containing `w`, in order. */
  function KeepContaining(items: seq<string>, w: string): (r: seq<string>)
    ensures |r| <= |items|
    ensures forall x :: x in r <==> x in items && Contains(x, w)
  {
    if items == [] then []
    else
      var rest := KeepContaining(items[..|items| - 1], w);
      var last := items[|items| - 1];
      assert items == items[..|items| - 1] + [last];
      if Contains(last, w) then rest + [last] else rest
  }

  /**
   * Filtering keeps the order and the repetitions of the items: it works on
   * each part of a list separately, and keeps a single item iff it contains `w`.
   */
  lemma {:induction false} KeepContainingConcat(a: seq<string>, b: seq<string>, w: string)
    ensures KeepContaining(a + b, w) == KeepContaining(a, w) + KeepContaining(b, w)
    decreases |b|
  {
    if b == [] {
      assert a + b == a;
    } else {
      var b', last := b[..|b| - 1], b[|b| - 1];
      assert (a + b)[..|a + b| - 1] == a + b';
      assert (a + b)[|a + b| - 1] == last;
      KeepContainingConcat(a, b', w);
      if Contains(last, w) {
        assert KeepContaining(a, w) + KeepContaining(b', w) + [last]
               == KeepContaining(a, w) + (KeepContaining(b', w) + [last]);
      }
    }
  }

  /** The text of a typed `k:value` word before its first `:`. */
  function KeyOf(arg: string): (r: string)
    requires ':' in arg
    ensures StartsWith(arg, r + ":") && ':' !in r
  {
    IndexOfFirst(arg, ':');
    var k := IndexOf(arg, ':').value;
    assert arg[..k + 1] == arg[..k] + ":";
    arg[..k]
  }

  /** Whether the word being typed starts a value option that is still available. */
  predicate TypesValueOption(c: Collected, last: string) {
    ':' in last && KeyOf(last) in c.valueOptions
  }

  /**
   * The final filter of `onTabComplete` on the word being typed: nothing is
   * filtered for an empty word; a lone `-` yields the available flags; a
   * typed `k:` of an available value option replaces the candidates by the
   * `k:`-prefixed values; and only items containing the typed word remain.
   */
  function FilterResults(c: Collected, last: string): (r: seq<string>)
    ensures last == [] ==> r == c.results
    ensures last == "-" ==> r == c.options
    ensures last != [] && last != "-" ==> forall x :: x in r ==> Contains(x, last)
    ensures last != [] && last != "-" && !TypesValueOption(c, last) ==>
              forall x :: x in r <==> x in c.results && Contains(x, last)
    ensures last != [] && last != "-" && TypesValueOption(c, last) ==>
              forall x :: x in r <==> Contains(x, last)
                                      && x in Prefixed(KeyOf(last) + ":", c.valueOptions[KeyOf(last)])
  {
    if last == [] then c.results
    else if last == "-" then c.options
    else if TypesValueOption(c, last) then
      KeepContaining(Prefixed(KeyOf(last) + ":", c.valueOptions[KeyOf(last)]), last)
    else
      KeepContaining(c.results, last)
  }

  /**
   * `onTabComplete`: the patterns are matched against every typed word but
   * the last, and the last is the word being completed.
   */
  function TabComplete(patterns: seq<seq<string>>, args: seq<string>,
                       completions: map<string, seq<string>>): (r: seq<string>)
    requires |args| >= 1
  {
    FilterResults(CollectAll(patterns, args[..|args| - 1], completions), args[|args| - 1])
  }

  /** With nothing typed yet in the last word, the candidates come only from patterns that matched. */
  lemma {:induction false} EmptyWordOffersOnlyMatchedCandidates(patterns: seq<seq<string>>, args: seq<string>,
                                                                completions: map<string, seq<string>>, x: string)
    requires |args| >= 1 && args[|args| - 1] == [] && x in TabComplete(patterns, args, completions)
    ensures exists j :: 0 <= j < |patterns| && RunPattern(patterns[j], args[..|args| - 1], completions).matches
                        && x in RunPattern(patterns[j], args[..|args| - 1], completions).candidates
  {
    CollectedResultsComeFromMatches(patterns, args[..|args| - 1], completions, x);
  }

  /** `TabCompleteArgParser`: a cursor over the typed words and the flags seen so far. */
  class ArgParser {
    var optionArgsAvailable: seq<string>
    var valueOptionArgsAvailable: map<string, seq<string>>
    var optionArgsUsed: seq<string>
    var valueOptionArgsUsed: seq<string>
    var argIndex: nat
    const args: seq<string>
    const completions: map<string, seq<string>>

    function State(): ParserState
      reads this
    {
      ParserState(optionArgsAvailable, valueOptionArgsAvailable, optionArgsUsed, valueOptionArgsUsed, argIndex)
    }

    ghost predicate Valid()
      reads this
    {
      argIndex <= |args|
    }

    constructor (args: seq<string>, completions: map<string, seq<string>>)
      ensures Valid() && State() == Initial()
      ensures this.args == args && this.completions == completions
    {
      this.args := args;
      this.completions := completions;
      optionArgsAvailable := [];
      valueOptionArgsAvailable := map[];
      optionArgsUsed := [];
      valueOptionArgsUsed := [];
      argIndex := 0;
    }

    /** `addOption`: a flag item of the pattern becomes available. */
    method AddOption(option: string)
      modifies this
      ensures State() == old(State()).(optionsAvailable := old(optionArgsAvailable) + [option])
    {
      optionArgsAvailable := optionArgsAvailable + [option];
    }

    /** `addValueOption`: a value-option item becomes available with its parsed values. */
    method AddValueOption(option: ValueOption)
      modifies this
      ensures State() == old(State()).(valueOptionsAvailable :=
                old(valueOptionArgsAvailable)[option.option := ParseValue(option.value, completions)])
    {
      valueOptionArgsAvailable := valueOptionArgsAvailable[option.option := ParseValue(option.value, completions)];
    }

    predicate HasRemainingArgs()
      reads this
    {
      argIndex < |args| - 1
    }

    /**
     * The bookkeeping of `nextMatches` for a flag word under the cursor: a
     * `-flag` is recorded as used and one copy leaves the available flags; a
     * `k:value` word is recorded as used and its key leaves the available value options.
     */
    method SkipFlagWord()
      requires Valid() && argIndex < |args| && IsFlagWord(args[argIndex])
      modifies this
      ensures Valid()
      ensures State() == Skip(old(State()), args[old(argIndex)])
    {
      var arg := args[argIndex];
      var option := AsOption(arg);
      if option.Some? {
        optionArgsUsed := optionArgsUsed + [option.value];
        optionArgsAvailable := RemoveFirst(optionArgsAvailable, option.value);
      } else {
        var valueOption := AsValueOption(arg).value;
        valueOptionArgsUsed := valueOptionArgsUsed + [valueOption.option];
        valueOptionArgsAvailable := valueOptionArgsAvailable - {valueOption.option};
      }
      argIndex := argIndex + 1;
    }

    method NextMatches(item: Option<string>) returns (r: Option<bool>)
      requires Valid()
      modifies this
      ensures Valid()
      ensures Outcome(r, State()) == Advance(args, completions, item, old(State()))
    {
      ghost var goal := Advance(args, completions, item, State());
      while argIndex < |args|
        invariant Valid()
        invariant Advance(args, completions, item, State()) == goal
        decreases |args| - argIndex
      {
        var arg := args[argIndex];
        if IsFlagWord(arg) {
          ghost var before := State();
          SkipFlagWord();
          AdvanceSkips(args, completions, item, before);
          continue;
        }

        AdvanceStops(args, completions, item, State());
        if item.None? {
          argIndex := argIndex + 1;
          return Some(true);
        }

        var values := ParseValue(item.value, completions);
        if arg in values {
          argIndex := argIndex + 1;
          return Some(true);
        }

        return Some(false);
      }

      return None;
    }

    method Next()
      requires Valid()
      modifies this
      ensures Valid()
      ensures State() == Advance(args, completions, None, old(State())).state
    {
      var _ := NextMatches(None);
    }

    method ProcessRemainingArgs()
      requires Valid()
      modifies this
      ensures Valid()
      ensures State() == DrainRemaining(args, completions, old(State()))
    {
      while HasRemainingArgs()
        invariant Valid()
        invariant DrainRemaining(args, completions, State()) == DrainRemaining(args, completions, old(State()))
        decreases |args| - argIndex
      {
        Next();
      }
    }
  }

  /**
   * One iteration of the item loop of `onTabComplete`: a flag or value-option
   * item is made available; a positional item is matched against the next
   * typed word. `done` says the loop stops here, with `matches` and
   * `candidates` as its answer.
   */
  method MatchItem(parser: ArgParser, pattern: seq<string>, k: nat)
    returns (done: bool, matches: bool, candidates: seq<string>)
    requires k < |pattern| && parser.Valid()
    modifies parser
    ensures parser.Valid()
    ensures done ==> RunItems(pattern, k, parser.args, parser.completions, old(parser.State()))
                     == PatternRun(matches, candidates, parser.State())
    ensures !done ==> RunItems(pattern, k, parser.args, parser.completions, old(parser.State()))
                      == RunItems(pattern, k + 1, parser.args, parser.completions, parser.State())
  {
    var listItem := pattern[k];
    ghost var before := parser.State();
    done, matches, candidates := false, true, [];

    var option := AsOption(listItem);
    if option.Some? {
      parser.AddOption(option.value);
      RunItemsOptionStep(pattern, k, parser.args, parser.completions, before, option.value, parser.State());
      return;
    }

    var valueOption := AsValueOption(listItem);
    if valueOption.Some? {
      parser.AddValueOption(valueOption.value);
      RunItemsValueOptionStep(pattern, k, parser.args, parser.completions, before, valueOption.value,
                              parser.State());
      return;
    }

    var nextMatches := parser.NextMatches(Some(listItem));
    RunItemsPositionalStep(pattern, k, parser.args, parser.completions, before,
                           Outcome(nextMatches, parser.State()));
    if nextMatches.None? {
      done, candidates := true, ParseValue(listItem, parser.completions);
    } else if !nextMatches.value {
      done, matches := true, false;
    }
  }

  /** The loop of `onTabComplete` over one pattern's items, on a fresh parser. */
  method MatchPattern(pattern: seq<string>, fullArgs: seq<string>, completions: map<string, seq<string>>)
    returns (matches: bool, candidates: seq<string>, parser: ArgParser)
    ensures fresh(parser) && parser.Valid() && parser.args == fullArgs && parser.completions == completions
    ensures RunItems(pattern, 0, fullArgs, completions, Initial())
            == PatternRun(matches, candidates, parser.State())
  {
    parser := new ArgParser(fullArgs, completions);
    ghost var goal := RunItems(pattern, 0, fullArgs, completions, Initial());
    var listIndex := 0;
    while listIndex < |pattern|
      invariant listIndex <= |pattern| && parser.Valid()
      invariant RunItems(pattern, listIndex, fullArgs, completions, parser.State()) == goal
      decreases |pattern| - listIndex
    {
      var done;
      done, matches, candidates := MatchItem(parser, pattern, listIndex);
      if done {
        return;
      }
      listIndex := listIndex + 1;
    }
    matches, candidates := true, [];
  }

  /** The loop of `onTabComplete` over the patterns, gathering candidates, flags and value options. */
  method CollectPatterns(tabCompletionList: seq<seq<string>>, fullArgs: seq<string>,
                         completions: map<string, seq<string>>)
    returns (results: seq<string>, options: seq<string>, valueOptions: map<string, seq<string>>)
    ensures Collected(results, options, valueOptions) == CollectAll(tabCompletionList, fullArgs, completions)
  {
    results, options, valueOptions := [], [], map[];
    for p := 0 to |tabCompletionList|
      invariant Collected(results, options, valueOptions)
                == CollectAll(tabCompletionList[..p], fullArgs, completions)
    {
      assert tabCompletionList[..p + 1][..p] == tabCompletionList[..p];
      var matches, candidates, parser := MatchPattern(tabCompletionList[p], fullArgs, completions);
      results := results + candidates;
      if matches {
        parser.ProcessRemainingArgs();
        options := options + parser.optionArgsAvailable;
        valueOptions := valueOptions + parser.valueOptionArgsAvailable;
      }
    }
    assert tabCompletionList[..|tabCompletionList|] == tabCompletionList;
  }

  /** The loop that builds the `k:`-prefixed candidates. */
  method PrefixValues(prefix: string, values: seq<string>) returns (results: seq<string>)
    ensures results == Prefixed(prefix, values)
  {
    results := [];
    for i := 0 to |values|
      invariant results == Prefixed(prefix, values[..i])
    {
      assert values[..i + 1][..i] == values[..i];
      results := results + [prefix + values[i]];
    }
    assert values[..|values|] == values;
  }

  /** `removeIf(item -> !item.contains(arg))` */
  method RemoveIfMissing(results: seq<string>, arg: string) returns (kept: seq<string>)
    ensures kept == KeepContaining(results, arg)
  {
    kept := [];
    for i := 0 to |results|
      invariant kept == KeepContaining(results[..i], arg)
    {
      assert results[..i + 1][..i] == results[..i];
      if Contains(results[i], arg) {
        kept := kept + [results[i]];
      }
    }
    assert results[..|results|] == results;
  }

  /** `onTabComplete` over the command's patterns and the typed words. */
  method Complete(tabCompletionList: seq<seq<string>>, args: seq<string>,
                  completions: map<string, seq<string>>) returns (r: seq<string>)
    requires |args| >= 1
    ensures r == TabComplete(tabCompletionList, args, completions)
  {
    var fullArgs := args[..|args| - 1];
    var results, options, valueOptions := CollectPatterns(tabCompletionList, fullArgs, completions);

    var arg := args[|args| - 1];
    if arg != [] {
      if arg == "-" {
        return options;
      }

      if ':' in arg {
        var key := KeyOf(arg);
        if key in valueOptions {
          results := PrefixValues(key + ":", valueOptions[key]);
        }
      }

      results := RemoveIfMissing(results, arg);
    }
    return results;
  }
}
