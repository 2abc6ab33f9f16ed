/**
 * `VariableManager`: named text variables (`{player}`, `{world}`, ...) and
 * the rewrite that replaces every `{name}` token in a text by the value of
 * the variable registered under the lowercased name, pass after pass, until
 * a pass finds no token at all.
 */
module VariableManager {
  import opened JString
  import opened Host

  /** A variable's value for a player; it is also given the (lowercased) variable name. */
  type Handler = (Player, string) -> string

  /** The position of the first `}` in `s` at or after `from`. */
  function NextClose(s: string, from: nat): (r: Option<nat>)
    requires from <= |s|
    ensures r.Some? ==> from <= r.value < |s| && s[r.value] == '}'
    decreases |s| - from
  {
    if from == |s| then None
    else if s[from] == '}' then Some(from)
    else NextClose(s, from + 1)
  }

  /** The first `}` at or after `from` is the one at `k` when none comes between. */
  lemma {:induction false} NextCloseAt(s: string, from: nat, k: nat)
    requires from <= k < |s| && s[k] == '}'
    requires forall i :: from <= i < k ==> s[i] != '}'
    ensures NextClose(s, from) == Some(k)
    decreases k - from
  {
    if from < k {
      NextCloseAt(s, from + 1, k);
    }
  }

  /**
   * The pattern `\{([^}]+)}` matches at `p`: a `{`, at least one character
   * other than `}`, then the first `}` after it.
   */
  predicate TokenAt(s: string, p: nat) {
    p < |s| && s[p] == '{' && var c := NextClose(s, p + 1); c.Some? && c.value >= p + 2
  }

  /** `matcher.find()` from position `from`: the leftmost position where a token starts. */
  function FindToken(s: string, from: nat): (r: Option<nat>)
    requires from <= |s|
    ensures r.Some? ==> from <= r.value < |s| && TokenAt(s, r.value)
    decreases |s| - from
  {
    if from == |s| then None
    else if TokenAt(s, from) then Some(from)
    else FindToken(s, from + 1)
  }

  /** No token can start where there is no `{`. */
  lemma {:induction false} NoOpenNoToken(s: string, from: nat)
    requires from <= |s| && '{' !in s[from..]
    ensures FindToken(s, from).None?
    decreases |s| - from
  {
    if from < |s| {
      assert s[from] == s[from..][0];
      assert s[from + 1..] == s[from..][1..];
      NoOpenNoToken(s, from + 1);
    }
  }

  /** The text has a `{name}` token somewhere. */
  predicate HasToken(s: string) {
    FindToken(s, 0).Some?
  }

  /** The index of the `}` that closes the token at `p`. */
  function TokenEnd(s: string, p: nat): (q: nat)
    requires TokenAt(s, p)
    ensures p + 2 <= q < |s| && s[q] == '}'
  {
    NextClose(s, p + 1).value
  }

  /**
   * The value of every registered variable for one player: the handler under
   * each name, applied to the player and that name. Handlers are functions
   * of their arguments, so applying each once per `replace` gives the values
   * every token of every pass sees.
   */
  function Values(variables: map<string, Handler>, player: Player): (r: map<string, string>)
    ensures r.Keys == variables.Keys
    ensures forall k :: k in r ==> r[k] == variables[k](player, k)
  {
    map k | k in variables :: variables[k](player, k)
  }

  /**
   * What one pass appends for a token: the variable's value when the
   * lowercased name is registered, the token itself otherwise.
   */
  function TokenValue(s: string, p: nat, values: map<string, string>): string
    requires TokenAt(s, p)
  {
    var q := TokenEnd(s, p);
    var name := Lower(s[p + 1..q]);
    if name in values then values[name] else s[p..q + 1]
  }

  /**
   * One pass of the `find`/`appendReplacement` loop from `from` on, followed
   * by `appendTail`: the text between tokens is copied and each token is
   * replaced by its value, literally.
   */
  function PassFrom(s: string, from: nat, values: map<string, string>): string
    requires from <= |s|
    decreases |s| - from
  {
    match FindToken(s, from)
    case None => s[from..]
    case Some(p) =>
      s[from..p] + TokenValue(s, p, values) + PassFrom(s, TokenEnd(s, p) + 1, values)
  }

  /** A pass that meets a token at `p` copies up to it, appends its value, and goes on after it. */
  lemma PassUnfold(s: string, from: nat, p: nat, values: map<string, string>)
    requires from <= |s| && FindToken(s, from) == Some(p)
    ensures PassFrom(s, from, values)
            == s[from..p] + TokenValue(s, p, values) + PassFrom(s, TokenEnd(s, p) + 1, values)
  {
    var v := TokenValue(s, p, values);
    var rest := PassFrom(s, TokenEnd(s, p) + 1, values);
    assert PassFrom(s, from, values) == s[from..p] + v + rest;
  }

  lemma Regroup(built: string, a: string, b: string, rest: string)
    ensures (built + a + b) + rest == built + (a + b + rest)
  {
  }

  /** One token further in a pass: what is built so far plus the rest of the pass is still the whole pass. */
  lemma PassStep(s: string, from: nat, p: nat, built: string, next: string, after: nat, values: map<string, string>)
    requires from <= |s| && FindToken(s, from) == Some(p)
    requires built + PassFrom(s, from, values) == PassFrom(s, 0, values)
    requires next == built + s[from..p] + TokenValue(s, p, values) && after == TokenEnd(s, p) + 1
    ensures after <= |s| && next + PassFrom(s, after, values) == PassFrom(s, 0, values)
  {
    PassUnfold(s, from, p, values);
    Regroup(built, s[from..p], TokenValue(s, p, values), PassFrom(s, TokenEnd(s, p) + 1, values));
  }

  /** A pass over a text without tokens copies it. */
  lemma NoTokenPassCopies(s: string, values: map<string, string>)
    requires !HasToken(s)
    ensures PassFrom(s, 0, values) == s
  {
  }

  /**
   * The do-while of `replace`, allowed at most `passes` passes. `None` means
   * the rewrite was still going when the passes ran out; the plugin itself
   * has no bound and keeps looping. A pass that finds no token gives back its
   * input (`NoTokenPassCopies`), which is the text returned.
   */
  function Rewrite(s: string, values: map<string, string>, passes: nat): Option<string>
    decreases passes
  {
    if passes == 0 then None
    else if HasToken(s) then Rewrite(PassFrom(s, 0, values), values, passes - 1)
    else Some(s)
  }

  /** A text without tokens is finished at once, unchanged. */
  lemma PlainTextIsFinished(s: string, values: map<string, string>, passes: nat)
    requires passes >= 1 && !HasToken(s)
    ensures Rewrite(s, values, passes) == Some(s)
  {
  }

  lemma RewriteStep(s: string, values: map<string, string>, passes: nat)
    requires passes > 0
    ensures Rewrite(s, values, passes)
            == if HasToken(s) then Rewrite(PassFrom(s, 0, values), values, passes - 1)
               else Some(s)
    ensures !HasToken(s) ==> PassFrom(s, 0, values) == s
  {
    if !HasToken(s) {
      NoTokenPassCopies(s, values);
    }
  }

  /** A pass that found a token leaves the rest of the rewrite to the next pass. */
  lemma RewriteAfterTokenPass(s: string, next: string, values: map<string, string>, passes: nat, remaining: nat)
    requires passes == remaining + 1 && HasToken(s) && next == PassFrom(s, 0, values)
    ensures Rewrite(s, values, passes) == Rewrite(next, values, remaining)
  {
  }

  /** A pass that found no token ends the rewrite with its own output. */
  lemma RewriteAfterPlainPass(s: string, next: string, values: map<string, string>, passes: nat)
    requires passes > 0 && !HasToken(s) && next == PassFrom(s, 0, values)
    ensures next == s && Rewrite(s, values, passes) == Some(next)
  {
    NoTokenPassCopies(s, values);
  }

  /** What is left of the rewrite after one pass, with the pass's own report of whether it found a token. */
  lemma RewriteAfterPass(s: string, next: string, found: bool, values: map<string, string>,
                         passes: nat, remaining: nat)
    requires passes == remaining + 1 && next == PassFrom(s, 0, values) && found == HasToken(s)
    ensures found ==> Rewrite(s, values, passes) == Rewrite(next, values, remaining)
    ensures !found ==> next == s && Rewrite(s, values, passes) == Some(next)
  {
    if found {
      RewriteAfterTokenPass(s, next, values, passes, remaining);
    } else {
      RewriteAfterPlainPass(s, next, values, passes);
    }
  }

  /** The text of a single token `{name}`. */
  lemma SingleToken(name: string)
    requires name != [] && '}' !in name
    ensures var s := "{" + name + "}";
            FindToken(s, 0) == Some(0) && TokenEnd(s, 0) == |s| - 1 && s[1..|s| - 1] == name
  {
    var s := "{" + name + "}";
    assert s[1..] == name + "}";
    assert forall i :: 1 <= i < |s| - 1 ==> s[i] == name[i - 1];
    NextCloseAt(s, 1, |s| - 1);
    assert TokenAt(s, 0);
  }

  /** One pass over a single token: its value, or the token itself when the name is unknown. */
  lemma SingleTokenPass(name: string, values: map<string, string>)
    requires name != [] && '}' !in name
    ensures var s := "{" + name + "}";
            HasToken(s)
            && PassFrom(s, 0, values) == if Lower(name) in values then values[Lower(name)] else s
  {
    var s := "{" + name + "}";
    SingleToken(name);
    SingleTokenValue(name, values);
    PassUnfold(s, 0, 0, values);
    PassAtEnd(s, values);
    assert s[0..0] + TokenValue(s, 0, values) + [] == TokenValue(s, 0, values);
  }

  /** The value a single token stands for. */
  lemma SingleTokenValue(name: string, values: map<string, string>)
    requires name != [] && '}' !in name
    ensures var s := "{" + name + "}";
            TokenAt(s, 0) && TokenValue(s, 0, values) == if Lower(name) in values then values[Lower(name)] else s
  {
    var s := "{" + name + "}";
    SingleToken(name);
    assert s[0..|s|] == s;
  }

  /** A pass that starts at the end of the text adds nothing. */
  lemma PassAtEnd(s: string, values: map<string, string>)
    ensures PassFrom(s, |s|, values) == []
  {
  }

  /**
   * A token whose lowercased name has no variable is put back as it was, so
   * every pass finds it again: the rewrite never finishes, whatever the bound.
   */
  lemma {:induction false} UnknownTokenNeverFinishes(name: string, values: map<string, string>, passes: nat)
    requires name != [] && '}' !in name && Lower(name) !in values
    ensures Rewrite("{" + name + "}", values, passes) == None
    decreases passes
  {
    if passes > 0 {
      var s := "{" + name + "}";
      SingleTokenPass(name, values);
      RewriteStep(s, values, passes);
      UnknownTokenNeverFinishes(name, values, passes - 1);
    }
  }

  /**
   * A token whose lowercased name has a variable is replaced by the value;
   * when that value holds no `{`, the second pass finds nothing and the
   * rewrite ends. The name is looked up lowercased, so `{PLAYER}` and
   * `{player}` give the same value.
   */
  lemma KnownTokenReplaced(name: string, values: map<string, string>, passes: nat)
    requires name != [] && '}' !in name && Lower(name) in values
    requires '{' !in values[Lower(name)]
    requires passes >= 2
    ensures Rewrite("{" + name + "}", values, passes) == Some(values[Lower(name)])
  {
    var s := "{" + name + "}";
    var v := values[Lower(name)];
    SingleTokenPass(name, values);
    RewriteStep(s, values, passes);
    assert v[0..] == v;
    NoOpenNoToken(v, 0);
    RewriteStep(v, values, passes - 1);
  }

  /** The registered variables: names stored lowercased. */
  class Variables {
    var variables: map<string, Handler>

    ghost predicate Valid()
      reads this
    {
      forall k :: k in variables ==> IsLowerCase(k)
    }

    /** The static initialiser: `player` gives the player's name, `world` the name of the player's world. */
    constructor ()
      ensures Valid()
      ensures variables == map["player" := PlayerName, "world" := PlayerWorld]
    {
      variables := map[];
      new;
      PlayerIsLowerCase();
      WorldIsLowerCase();
      Register("player", PlayerName);
      Register("world", PlayerWorld);
    }

    method Register(name: string, handler: Handler)
      requires Valid()
      modifies this
      ensures Valid()
      ensures variables == old(variables)[Lower(name) := handler]
      ensures Exists(name)
    {
      LowerIsLowerCase(name);
      variables := variables[Lower(name) := handler];
    }

    predicate Exists(name: string)
      reads this
    {
      Lower(name) in variables
    }

    method Unregister(name: string)
      requires Valid()
      modifies this
      ensures Valid()
      ensures variables == old(variables) - {Lower(name)}
      ensures !Exists(name)
    {
      variables := variables - {Lower(name)};
    }

    /**
     * `replace(player, text)`, allowed at most `passes` passes. Each pass
     * walks the tokens left to right, building the new text as the matcher
     * does; the loop stops after a pass that found no token.
     */
    method Replace(player: Player, text: string, passes: nat) returns (r: Option<string>)
      ensures r == Rewrite(text, Values(variables, player), passes)
      ensures r.Some? ==> !HasToken(r.value)
    {
      var values := Values(variables, player);
      var result := text;
      var left: nat := passes;
      var containsVariables := true;
      while containsVariables && left > 0
        invariant containsVariables ==> Rewrite(result, values, left) == Rewrite(text, values, passes)
        invariant !containsVariables ==> Rewrite(text, values, passes) == Some(result) && !HasToken(result)
        decreases left
      {
        var before, count := result, left;
        result, containsVariables := ReplacePass(values, before);
        left := left - 1;
        RewriteAfterPass(before, result, containsVariables, values, count, left);
      }
      if containsVariables {
        return None;
      }
      return Some(result);
    }

    /** One pass of `replace`: the new text, and whether any token was found. */
    static method ReplacePass(values: map<string, string>, s: string) returns (result: string, containsVariables: bool)
      ensures result == PassFrom(s, 0, values)
      ensures containsVariables == HasToken(s)
    {
      var sb := "";
      var append := 0;
      containsVariables := false;
      var found := FindToken(s, 0);
      while found.Some?
        invariant append <= |s| && found == FindToken(s, append)
        invariant sb + PassFrom(s, append, values) == PassFrom(s, 0, values)
        invariant containsVariables ==> HasToken(s)
        invariant !containsVariables ==> append == 0
        decreases |s| - append
      {
        containsVariables := true;
        var p := found.value;
        var q := TokenEnd(s, p);
        var replacement := TokenValue(s, p, values);
        var built, from := sb, append;
        sb := sb + s[append..p] + replacement;
        append := q + 1;
        PassStep(s, from, p, built, sb, append, values);
        found := FindToken(s, append);
      }
      assert PassFrom(s, append, values) == s[append..];
      sb := sb + s[append..];
      result := sb;
    }
  }

  function PlayerName(p: Player, variable: string): string {
    p.name
  }

  function PlayerWorld(p: Player, variable: string): string {
    p.world.name
  }

  lemma PlayerIsLowerCase() ensures Lower("player") == "player" {
    var s := "player";
    forall i | 0 <= i < |s| ensures !IsUpperAscii(s[i]) { }
    LowerOfLowerCase(s);
  }
  lemma WorldIsLowerCase() ensures Lower("world") == "world" {
    var s := "world";
    forall i | 0 <= i < |s| ensures !IsUpperAscii(s[i]) { }
    LowerOfLowerCase(s);
  }
}
