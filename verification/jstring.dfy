/**
 * The few operations of Java's `String` that the plugin relies on, stated
 * over `seq<char>`. Case mapping covers the ASCII letters only.
 */
module JString {

  datatype Option<+T> = None | Some(value: T)

  /** A result or the exception that was thrown instead, by name. */
  datatype Result<+T> = Success(value: T) | Failure(error: string)

  predicate IsUpperAscii(c: char) { 'A' <= c <= 'Z' }

  predicate IsLowerAscii(c: char) { 'a' <= c <= 'z' }

  function ToLowerChar(c: char): (r: char)
    ensures !IsUpperAscii(r)
    ensures IsUpperAscii(c) ==> r as int == c as int + 32
    ensures !IsUpperAscii(c) ==> r == c
  {
    if IsUpperAscii(c) then (c as int + 32) as char else c
  }

  function ToUpperChar(c: char): (r: char)
    ensures !IsLowerAscii(r)
    ensures IsLowerAscii(c) ==> r as int == c as int - 32
    ensures !IsLowerAscii(c) ==> r == c
  {
    if IsLowerAscii(c) then (c as int - 32) as char else c
  }

  /** `String.toLowerCase()` */
  function Lower(s: string): (r: string)
    ensures |r| == |s|
    ensures forall i :: 0 <= i < |s| ==> r[i] == ToLowerChar(s[i])
  {
    if s == [] then [] else [ToLowerChar(s[0])] + Lower(s[1..])
  }

  /** `String.toUpperCase()` */
  function Upper(s: string): (r: string)
    ensures |r| == |s|
    ensures forall i :: 0 <= i < |s| ==> r[i] == ToUpperChar(s[i])
  {
    if s == [] then [] else [ToUpperChar(s[0])] + Upper(s[1..])
  }

  /** A string `toLowerCase()` leaves unchanged. */
  predicate IsLowerCase(s: string) {
    forall i :: 0 <= i < |s| ==> !IsUpperAscii(s[i])
  }

  lemma LowerIsLowerCase(s: string)
    ensures IsLowerCase(Lower(s))
  {
  }

  lemma LowerOfLowerCase(s: string)
    requires IsLowerCase(s)
    ensures Lower(s) == s
  {
  }

  /** `t` is the lower-case form of `s` when it is so character by character. */
  lemma LowerMatches(s: string, t: string)
    requires |s| == |t| && forall i :: 0 <= i < |s| ==> ToLowerChar(s[i]) == t[i]
    ensures Lower(s) == t
  {
  }

  lemma LowerIdempotent(s: string)
    ensures Lower(Lower(s)) == Lower(s)
  {
  }

  /** `String.equalsIgnoreCase` */
  predicate EqualsIgnoreCase(a: string, b: string) {
    Lower(a) == Lower(b)
  }

  /** Two characters agree upper-cased exactly when they agree lower-cased. */
  lemma CaseCharsAgree(c: char, d: char)
    ensures ToUpperChar(c) == ToUpperChar(d) <==> ToLowerChar(c) == ToLowerChar(d)
  {
  }

  /** Names equal but for case upper-case alike. */
  lemma UpperIgnoresCase(a: string, b: string)
    requires EqualsIgnoreCase(a, b)
    ensures Upper(a) == Upper(b)
  {
    assert |a| == |Lower(a)| == |Lower(b)| == |b|;
    forall i | 0 <= i < |a|
      ensures Upper(a)[i] == Upper(b)[i]
    {
      assert Lower(a)[i] == Lower(b)[i];
      CaseCharsAgree(a[i], b[i]);
    }
  }

  /** Names that upper-case alike are equal but for case. */
  lemma UpperEqualsIgnoreCase(a: string, b: string)
    requires Upper(a) == Upper(b)
    ensures EqualsIgnoreCase(a, b)
  {
    assert |a| == |Upper(a)| == |Upper(b)| == |b|;
    forall i | 0 <= i < |a|
      ensures Lower(a)[i] == Lower(b)[i]
    {
      assert Upper(a)[i] == Upper(b)[i];
      CaseCharsAgree(a[i], b[i]);
    }
  }

  predicate StartsWith(s: string, prefix: string) {
    |prefix| <= |s| && s[..|prefix|] == prefix
  }

  predicate EndsWith(s: string, suffix: string) {
    |suffix| <= |s| && s[|s| - |suffix|..] == suffix
  }

  /** `String.contains`: `sub` occurs in `s` at some position. */
  predicate Contains(s: string, sub: string)
    decreases |s|
  {
    StartsWith(s, sub) || (|s| > 0 && Contains(s[1..], sub))
  }

  lemma {:induction false} ContainsAt(s: string, sub: string, k: nat)
    requires k + |sub| <= |s| && s[k..k + |sub|] == sub
    ensures Contains(s, sub)
    decreases k
  {
    if k > 0 {
      assert s[1..][k - 1..k - 1 + |sub|] == sub;
      ContainsAt(s[1..], sub, k - 1);
    }
  }

  lemma {:induction false} ContainsInConcat(a: string, b: string, sub: string)
    requires Contains(b, sub)
    ensures Contains(a + b, sub)
    decreases |a|
  {
    if a != [] {
      ContainsInConcat(a[1..], b, sub);
      assert (a + b)[1..] == a[1..] + b;
      assert Contains((a + b)[1..], sub);
    } else {
      assert a + b == b;
    }
  }

  lemma ContainsSelf(s: string)
    ensures Contains(s, s)
  {
  }

  /** `String.indexOf(char)`, with `None` standing for -1. */
  function IndexOf(s: string, c: char): (r: Option<nat>)
    ensures r.Some? ==> r.value < |s| && s[r.value] == c
  {
    if s == [] then None
    else if s[0] == c then Some(0)
    else match IndexOf(s[1..], c)
      case None => None
      case Some(k) => Some(k + 1)
  }

  /** `indexOf` answers -1 exactly when the character does not occur, and otherwise finds its first occurrence. */
  lemma {:induction false} IndexOfFirst(s: string, c: char)
    ensures IndexOf(s, c).None? <==> c !in s
    ensures IndexOf(s, c).Some? ==> forall i :: 0 <= i < IndexOf(s, c).value ==> s[i] != c
    decreases |s|
  {
    if s != [] && s[0] != c {
      IndexOfFirst(s[1..], c);
      assert forall i :: 1 <= i < |s| ==> s[i] == s[1..][i - 1];
      if c in s {
        var j :| 0 <= j < |s| && s[j] == c;
        assert s[1..][j - 1] == c;
      }
    }
  }

  /** Java `isBlank`: empty or made only of white space (`Character.isWhitespace`). */
  predicate IsWhitespace(c: char) {
    || c == ' ' || c == '\t' || c == '\n' || c == '\r'
    || c == '\U{000B}' || c == '\U{000C}'
    || ('\U{001C}' <= c <= '\U{001F}')
    || c == '\U{1680}' || ('\U{2000}' <= c <= '\U{2006}') || ('\U{2008}' <= c <= '\U{200A}')
    || c == '\U{2028}' || c == '\U{2029}' || c == '\U{205F}' || c == '\U{3000}'
  }

  predicate IsBlank(s: string) {
    forall i :: 0 <= i < |s| ==> IsWhitespace(s[i])
  }

  /**
   * Every piece of `s` between occurrences of `sep`, empty pieces included:
   * Java's `split` before it drops the trailing empty pieces.
   */
  function SplitAll(s: string, sep: char): (r: seq<string>)
    ensures |r| >= 1
  {
    match IndexOf(s, sep)
    case None => [s]
    case Some(k) => [s[..k]] + SplitAll(s[k + 1..], sep)
  }

  /** Without a separator the text is its only piece. */
  lemma SplitAllNoSep(s: string, sep: char)
    requires sep !in s
    ensures SplitAll(s, sep) == [s]
  {
    IndexOfFirst(s, sep);
  }

  /** The first separator ends the first piece; the rest is split on its own. */
  lemma SplitAllAtFirst(a: string, b: string, sep: char)
    requires sep !in a
    ensures SplitAll(a + [sep] + b, sep) == [a] + SplitAll(b, sep)
  {
    var s := a + [sep] + b;
    assert s[|a|] == sep;
    IndexOfFirst(s, sep);
    var k := IndexOf(s, sep).value;
    assert forall i :: 0 <= i < |a| ==> s[i] == a[i];
    assert k == |a|;
    assert s[..k] == a;
    assert s[k + 1..] == b;
  }

  /** No piece holds the separator. */
  lemma {:induction false} SplitAllPiecesFree(s: string, sep: char)
    ensures forall i :: 0 <= i < |SplitAll(s, sep)| ==> sep !in SplitAll(s, sep)[i]
    decreases |s|
  {
    IndexOfFirst(s, sep);
    match IndexOf(s, sep)
    case None =>
    case Some(k) =>
      SplitAllPiecesFree(s[k + 1..], sep);
      assert sep !in s[..k] by {
        forall i | 0 <= i < k ensures s[..k][i] != sep { assert s[..k][i] == s[i]; }
      }
  }

  /** Joining the pieces again with `sep` gives back the input. */
  function Join(parts: seq<string>, sep: char): string
    requires |parts| >= 1
  {
    if |parts| == 1 then parts[0] else parts[0] + [sep] + Join(parts[1..], sep)
  }

  /** Splitting at a first separator at `k`: the piece before it, then the pieces after it. */
  lemma SplitAllAt(s: string, sep: char, k: nat)
    requires IndexOf(s, sep) == Some(k)
    ensures k < |s| && SplitAll(s, sep) == [s[..k]] + SplitAll(s[k + 1..], sep)
  {
  }

  lemma JoinCons(piece: string, rest: seq<string>, sep: char)
    requires |rest| >= 1
    ensures Join([piece] + rest, sep) == piece + [sep] + Join(rest, sep)
  {
    assert ([piece] + rest)[1..] == rest;
  }

  lemma AroundIndex<T>(s: seq<T>, k: nat)
    requires k < |s|
    ensures s[..k] + [s[k]] + s[k + 1..] == s
  {
  }

  lemma {:induction false} JoinSplitAll(s: string, sep: char)
    ensures Join(SplitAll(s, sep), sep) == s
    decreases |s|
  {
    match IndexOf(s, sep)
    case None =>
    case Some(k) =>
      SplitAllAt(s, sep, k);
      var rest := SplitAll(s[k + 1..], sep);
      JoinCons(s[..k], rest, sep);
      JoinSplitAll(s[k + 1..], sep);
      AroundIndex(s, k);
  }

  function DropTrailingEmpty(parts: seq<string>): (r: seq<string>)
    ensures |r| <= |parts| && r == parts[..|r|]
    ensures r != [] ==> r[|r| - 1] != []
    ensures forall i :: |r| <= i < |parts| ==> parts[i] == []
  {
    if parts == [] then []
    else if parts[|parts| - 1] == [] then DropTrailingEmpty(parts[..|parts| - 1])
    else parts
  }

  /**
   * `String.split(sep)` for a one-character separator: with no separator in
   * `s` the result is `[s]` (so `""` gives `[""]`); otherwise all pieces
   * without the trailing empty ones (so `":"` gives `[]`).
   */
  function JavaSplit(s: string, sep: char): (r: seq<string>)
  {
    if sep !in s then [s] else DropTrailingEmpty(SplitAll(s, sep))
  }

  /** A text that does not end with the separator splits into pieces whose last one is not empty. */
  lemma {:induction false} SplitAllLastNotEmpty(s: string, sep: char)
    requires |s| > 0 && s[|s| - 1] != sep
    ensures var r := SplitAll(s, sep); r[|r| - 1] != []
    decreases |s|
  {
    match IndexOf(s, sep)
    case None =>
    case Some(k) =>
      SplitAllLastNotEmpty(s[k + 1..], sep);
  }

  /** Java's split loses nothing when the text is not empty and does not end with the separator. */
  lemma JoinJavaSplit(s: string, sep: char)
    requires |s| > 0 && s[|s| - 1] != sep
    ensures |JavaSplit(s, sep)| >= 1 && Join(JavaSplit(s, sep), sep) == s
  {
    if sep in s {
      SplitAllLastNotEmpty(s, sep);
      JoinSplitAll(s, sep);
    }
  }

  predicate AllEqual(s: string, c: char) {
    forall i :: 0 <= i < |s| ==> s[i] == c
  }

  predicate AllEmpty(parts: seq<string>) {
    forall j :: 0 <= j < |parts| ==> parts[j] == []
  }

  /** Every piece is empty exactly when the text is made of separators only. */
  lemma {:induction false} SplitAllAllEmpty(s: string, sep: char)
    ensures AllEmpty(SplitAll(s, sep)) <==> AllEqual(s, sep)
    decreases |s|
  {
    var r := SplitAll(s, sep);
    match IndexOf(s, sep)
    case None =>
      assert r == [s];
      if s != [] {
        assert s[0] in s && s[0] != sep;
        assert !AllEqual(s, sep);
        assert r[0] != [];
      }
    case Some(k) =>
      var rest := s[k + 1..];
      SplitAllAllEmpty(rest, sep);
      assert r == [s[..k]] + SplitAll(rest, sep);
      if AllEqual(s, sep) {
        assert s[0] == sep && k == 0;
        assert AllEqual(rest, sep) by {
          forall i | 0 <= i < |rest| ensures rest[i] == sep { assert rest[i] == s[k + 1 + i]; }
        }
        assert AllEmpty(r) by {
          forall j | 0 <= j < |r| ensures r[j] == [] {
            if j > 0 { assert r[j] == SplitAll(rest, sep)[j - 1]; }
          }
        }
      }
      if AllEmpty(r) {
        assert r[0] == [];
        assert k == 0 by { assert |s[..k]| == k; }
        assert AllEmpty(SplitAll(rest, sep)) by {
          forall j | 0 <= j < |SplitAll(rest, sep)| ensures SplitAll(rest, sep)[j] == [] {
            assert SplitAll(rest, sep)[j] == r[j + 1];
          }
        }
        forall i | 0 <= i < |s| ensures s[i] == sep {
          if i > 0 { assert s[i] == rest[i - 1]; }
        }
      }
  }

  /** Java's split gives no piece at all exactly for a non-empty run of separators. */
  lemma JavaSplitEmpty(s: string, sep: char)
    ensures JavaSplit(s, sep) == [] <==> |s| > 0 && AllEqual(s, sep)
  {
    if sep in s {
      var parts := SplitAll(s, sep);
      SplitAllAllEmpty(s, sep);
      var r := DropTrailingEmpty(parts);
      if r != [] {
        assert r[|r| - 1] == parts[|r| - 1];
        assert !AllEmpty(parts);
      } else {
        assert AllEmpty(parts);
      }
    } else if |s| > 0 {
      assert s[0] in s;
    }
  }

  /**
   * `String.replace(target, replacement)`: every occurrence of `target`,
   * scanning left to right without overlap, is replaced; the replacement
   * text is never rescanned.
   */
  function ReplaceAll(s: string, target: string, replacement: string): (r: string)
    requires |target| > 0
    decreases |s|
  {
    if |s| < |target| then s
    else if s[..|target|] == target then replacement + ReplaceAll(s[|target|..], target, replacement)
    else [s[0]] + ReplaceAll(s[1..], target, replacement)
  }

  /** Replacing a text that does not occur changes nothing. */
  lemma {:induction false} ReplaceAbsent(s: string, target: string, replacement: string)
    requires |target| > 0 && !Contains(s, target)
    ensures ReplaceAll(s, target, replacement) == s
    decreases |s|
  {
    if |s| >= |target| {
      assert !StartsWith(s, target);
      ReplaceAbsent(s[1..], target, replacement);
    }
  }

  /** A text without the first character of `sub` does not contain `sub`. */
  lemma {:induction false} NoFirstCharNoContains(s: string, sub: string)
    requires |sub| > 0 && sub[0] !in s
    ensures !Contains(s, sub)
    decreases |s|
  {
    if |s| > 0 {
      NoFirstCharNoContains(s[1..], sub);
    }
  }

  /** A prefix that cannot start an occurrence of `target` is copied through unchanged. */
  lemma {:induction false} ReplacePrefixFree(a: string, b: string, target: string, replacement: string)
    requires |target| > 0 && target[0] !in a
    ensures ReplaceAll(a + b, target, replacement) == a + ReplaceAll(b, target, replacement)
    decreases |a|
  {
    if a != [] {
      assert (a + b)[0] == a[0];
      assert (a + b)[1..] == a[1..] + b;
      if |a + b| < |target| {
        ReplaceShort(b, target, replacement);
      } else {
        ReplacePrefixFree(a[1..], b, target, replacement);
      }
    } else {
      assert a + b == b;
    }
  }

  lemma ReplaceShort(s: string, target: string, replacement: string)
    requires 0 < |target| && |s| < |target|
    ensures ReplaceAll(s, target, replacement) == s
  {
  }

  /** Replacing the target text alone leaves just the replacement. */
  lemma ReplaceWhole(target: string, replacement: string)
    requires |target| > 0
    ensures ReplaceAll(target, target, replacement) == replacement
  {
    assert target[..|target|] == target;
    assert target[|target|..] == [];
    assert ReplaceAll(target[|target|..], target, replacement) == [];
  }

  /** `target` occurs in `s` at position `k`. */
  predicate OccursAt(s: string, target: string, k: nat) {
    k + |target| <= |s| && s[k..k + |target|] == target
  }

  /** No occurrence of `target` in `a + b` starts inside `a` and ends inside `b`. */
  predicate NoStraddle(a: string, b: string, target: string) {
    forall k: nat :: k < |a| < k + |target| ==> !OccursAt(a + b, target, k)
  }

  /** Occurrences in a suffix are occurrences in the whole text, shifted. */
  lemma OccursAtDrop(s: string, d: nat, target: string, k: nat)
    requires d <= |s|
    ensures OccursAt(s[d..], target, k) <==> OccursAt(s, target, k + d)
  {
    if k + |target| <= |s| - d {
      assert s[d..][k..k + |target|] == s[k + d..k + d + |target|];
    }
  }

  /** Dropping the first `d` characters of `a` keeps the join free of straddling occurrences. */
  lemma NoStraddleDrop(a: string, b: string, target: string, d: nat)
    requires d <= |a| && NoStraddle(a, b, target)
    ensures (a + b)[d..] == a[d..] + b
    ensures NoStraddle(a[d..], b, target)
  {
    assert (a + b)[d..] == a[d..] + b;
    forall k: nat | k < |a[d..]| < k + |target|
      ensures !OccursAt(a[d..] + b, target, k)
    {
      OccursAtDrop(a + b, d, target, k);
    }
  }

  /** A match at the front of `a` is replaced in `a + b` as it is in `a`. */
  lemma ReplaceJoinAtMatch(a: string, b: string, target: string, replacement: string)
    requires 0 < |target| <= |a| && a[..|target|] == target
    requires ReplaceAll(a[|target|..] + b, target, replacement)
             == ReplaceAll(a[|target|..], target, replacement) + ReplaceAll(b, target, replacement)
    ensures ReplaceAll(a + b, target, replacement) == ReplaceAll(a, target, replacement) + ReplaceAll(b, target, replacement)
  {
    var t := |target|;
    assert (a + b)[..t] == target;
    assert (a + b)[t..] == a[t..] + b;
  }

  /** A first character that starts no match is copied in `a + b` as it is in `a`. */
  lemma ReplaceJoinAtCopy(a: string, b: string, target: string, replacement: string)
    requires 0 < |target| <= |a + b| && a != [] && (a + b)[..|target|] != target
    requires ReplaceAll(a[1..] + b, target, replacement)
             == ReplaceAll(a[1..], target, replacement) + ReplaceAll(b, target, replacement)
    ensures ReplaceAll(a + b, target, replacement) == ReplaceAll(a, target, replacement) + ReplaceAll(b, target, replacement)
  {
    var t := |target|;
    var c := [a[0]];
    var rest := ReplaceAll(a[1..], target, replacement);
    var tail := ReplaceAll(b, target, replacement);
    assert (a + b)[0] == a[0];
    assert (a + b)[1..] == a[1..] + b;
    assert ReplaceAll(a + b, target, replacement) == c + (rest + tail);
    if |a| < t {
      ReplaceShort(a, target, replacement);
      ReplaceShort(a[1..], target, replacement);
      assert a == c + rest;
    } else {
      assert a[..t] == (a + b)[..t];
      assert ReplaceAll(a, target, replacement) == c + rest;
    }
    assert c + (rest + tail) == (c + rest) + tail;
  }

  /** When no occurrence straddles the join, `replace` works on each side separately. */
  lemma {:induction false} ReplaceSplits(a: string, b: string, target: string, replacement: string)
    requires |target| > 0 && NoStraddle(a, b, target)
    ensures ReplaceAll(a + b, target, replacement) == ReplaceAll(a, target, replacement) + ReplaceAll(b, target, replacement)
    decreases |a|
  {
    var t := |target|;
    if a == [] {
      assert a + b == b;
    } else if |a + b| < t {
      ReplaceShort(a, target, replacement);
      ReplaceShort(b, target, replacement);
    } else if |a| >= t && a[..t] == target {
      NoStraddleDrop(a, b, target, t);
      ReplaceSplits(a[t..], b, target, replacement);
      ReplaceJoinAtMatch(a, b, target, replacement);
    } else {
      if |a| < t {
        assert !OccursAt(a + b, target, 0);
      } else {
        assert a[..t] == (a + b)[..t];
      }
      NoStraddleDrop(a, b, target, 1);
      ReplaceSplits(a[1..], b, target, replacement);
      ReplaceJoinAtCopy(a, b, target, replacement);
    }
  }

  /** `toLowerCase` distributes over concatenation. */
  lemma LowerConcat(a: string, b: string)
    ensures Lower(a + b) == Lower(a) + Lower(b)
  {
  }

  /** Replacing a text by itself changes nothing. */
  lemma {:induction false} ReplaceBySelf(s: string, target: string)
    requires |target| > 0
    ensures ReplaceAll(s, target, target) == s
    decreases |s|
  {
    if |s| < |target| {
    } else if s[..|target|] == target {
      ReplaceBySelf(s[|target|..], target);
      assert s == s[..|target|] + s[|target|..];
    } else {
      ReplaceBySelf(s[1..], target);
      assert s == [s[0]] + s[1..];
    }
  }

  /** The number of occurrences `ReplaceAll` rewrites. */
  function Occurrences(s: string, target: string): nat
    requires |target| > 0
    decreases |s|
  {
    if |s| < |target| then 0
    else if s[..|target|] == target then 1 + Occurrences(s[|target|..], target)
    else Occurrences(s[1..], target)
  }

  /** Each rewrite changes the length by the difference of the two texts. */
  lemma {:induction false} ReplaceLength(s: string, target: string, replacement: string)
    requires |target| > 0
    ensures |ReplaceAll(s, target, replacement)|
            == |s| + Occurrences(s, target) * (|replacement| - |target|)
    decreases |s|
  {
    if |s| < |target| {
    } else if s[..|target|] == target {
      var rest := s[|target|..];
      ReplaceLength(rest, target, replacement);
      assert ReplaceAll(s, target, replacement) == replacement + ReplaceAll(rest, target, replacement);
      assert Occurrences(s, target) == 1 + Occurrences(rest, target);
      MultiplyStep(Occurrences(rest, target), |replacement| - |target|);
    } else {
      ReplaceLength(s[1..], target, replacement);
    }
  }

  lemma MultiplyStep(k: int, d: int)
    ensures (1 + k) * d == d + k * d
  {
  }

  /** `List.remove(Object)`: drops the first element equal to `x`, if any. */
  function RemoveFirst<T(==)>(s: seq<T>, x: T): (r: seq<T>)
    ensures x !in s ==> r == s
    ensures x in s ==> |r| == |s| - 1 && multiset(r) == multiset(s) - multiset{x}
  {
    if s == [] then []
    else if s[0] == x then assert s == [s[0]] + s[1..]; s[1..]
    else assert s == [s[0]] + s[1..]; [s[0]] + RemoveFirst(s[1..], x)
  }

  /** Decimal text of an integer, as `String.valueOf(int)` writes it. */
  function IntToString(n: int): (r: string)
    ensures |r| >= 1
    decreases if n < 0 then 1 - n else n
  {
    if n < 0 then "-" + NatToString(-n) else NatToString(n)
  }

  function NatToString(n: nat): (r: string)
    ensures |r| >= 1
    ensures forall i :: 0 <= i < |r| ==> '0' <= r[i] <= '9'
  {
    if n < 10 then [(n + '0' as int) as char]
    else NatToString(n / 10) + [(n % 10 + '0' as int) as char]
  }
}
