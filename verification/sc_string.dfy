/**
 * `SCString`: `{key}` placeholder substitution and the pixel width of a
 * text in the default font, after its `§` formatting codes are removed.
 */
module SCString {
  import opened JString
  import opened STEMCraftLib

  // ---------------------------------------------------------------------
  // placeholders
  // ---------------------------------------------------------------------

  function Placeholder(key: string): (r: string)
    ensures |r| == |key| + 2 && r[0] == '{' && r[|r| - 1] == '}'
  {
    "{" + key + "}"
  }

  /**
   * The pairs `(args[0], args[1])`, `(args[2], args[3])`, … applied in that
   * order, each replacing every `{key}` in the text as it stands after the
   * pairs before it.
   */
  function Substitute(message: string, args: seq<string>): string
    requires |args| % 2 == 0
    decreases |args|
  {
    if args == [] then message
    else Substitute(ReplaceAll(message, Placeholder(args[0]), args[1]), args[2..])
  }

  /** `placeholders(message, args...)`: an odd number of arguments is refused. */
  method Placeholders(message: string, args: seq<string>) returns (r: Result<string>)
    ensures |args| % 2 != 0 ==> r == Failure("IllegalArgumentException")
    ensures |args| % 2 == 0 ==> r == Success(Substitute(message, args))
  {
    if |args| % 2 != 0 {
      return Failure("IllegalArgumentException");
    }
    var m := message;
    var i := 0;
    while i < |args|
      invariant 0 <= i <= |args| && i % 2 == 0
      invariant Substitute(m, args[i..]) == Substitute(message, args)
    {
      var placeholder := Placeholder(args[i]);
      var value := args[i + 1];
      assert args[i..][2..] == args[i + 2..];
      m := ReplaceAll(m, placeholder, value);
      i := i + 2;
    }
    assert args[i..] == [];
    return Success(m);
  }

  /** Pairs given together act as the first group followed by the second. */
  lemma {:induction false} SubstituteConcat(message: string, a: seq<string>, b: seq<string>)
    requires |a| % 2 == 0 && |b| % 2 == 0
    ensures Substitute(message, a + b) == Substitute(Substitute(message, a), b)
    decreases |a|
  {
    if a != [] {
      assert (a + b)[2..] == a[2..] + b;
      SubstituteConcat(ReplaceAll(message, Placeholder(a[0]), a[1]), a[2..], b);
    } else {
      assert a + b == b;
    }
  }

  /** A message in which no `{key}` of the pairs occurs comes back unchanged. */
  lemma {:induction false} SubstituteAbsent(message: string, args: seq<string>)
    requires |args| % 2 == 0
    requires forall i :: 0 <= i < |args| && i % 2 == 0 ==> !Contains(message, Placeholder(args[i]))
    ensures Substitute(message, args) == message
    decreases |args|
  {
    if args != [] {
      ReplaceAbsent(message, Placeholder(args[0]), args[1]);
      forall i | 0 <= i < |args[2..]| && i % 2 == 0
        ensures !Contains(message, Placeholder(args[2..][i]))
      {
        assert args[2..][i] == args[i + 2];
      }
      SubstituteAbsent(message, args[2..]);
    }
  }

  /** A pair whose value is its own placeholder changes nothing. */
  lemma SubstituteIdentity(message: string, key: string)
    ensures Substitute(message, [key, Placeholder(key)]) == message
  {
    ReplaceBySelf(message, Placeholder(key));
  }

  // ---------------------------------------------------------------------
  // calculatePixelWidth
  // ---------------------------------------------------------------------

  const SECTION: char := '\U{00A7}'

  /** The second character of a formatting code: `[0-9a-fk-or]`. */
  predicate IsCodeChar(c: char) {
    ('0' <= c <= '9') || ('a' <= c <= 'f') || ('k' <= c <= 'o') || c == 'r'
  }

  /**
   * `replaceAll("§[0-9a-fk-or]", "")`: one scan from the left that drops
   * each `§` followed by a code character together with that character;
   * the text that results is not scanned again.
   */
  function StripCodes(s: string): (r: string)
    ensures |r| <= |s| && (|s| - |r|) % 2 == 0
    ensures SECTION !in s ==> r == s
    decreases |s|
  {
    if |s| >= 2 && s[0] == SECTION && IsCodeChar(s[1]) then StripCodes(s[2..])
    else if s == [] then []
    else [s[0]] + StripCodes(s[1..])
  }

  /** One pass only: a code revealed by removing another one stays. */
  lemma StripCodesIsSinglePass()
    ensures StripCodes([SECTION, SECTION, 'a', 'a']) == [SECTION, 'a']
  {
    assert StripCodes([SECTION, 'a', 'a']) == StripCodes(['a']);
    assert StripCodes([SECTION, SECTION, 'a', 'a'])
           == [SECTION] + StripCodes([SECTION, 'a', 'a']);
  }

  /** The width of one character: the first set that holds it, else the default. */
  function CharWidth(c: char, widths: WidthSets): (r: nat)
    ensures 2 <= r <= 7
    ensures c in widths.w2 ==> r == 2
    ensures c !in widths.w2 && c in widths.w3 ==> r == 3
    ensures c !in widths.w2 + widths.w3 + widths.w4 + widths.w5 + widths.w6 + widths.w7 ==> r == DEFAULT_WIDTH
  {
    if c in widths.w2 then 2
    else if c in widths.w3 then 3
    else if c in widths.w4 then 4
    else if c in widths.w5 then 5
    else if c in widths.w6 then 6
    else if c in widths.w7 then 7
    else DEFAULT_WIDTH
  }

  function Width(s: string, widths: WidthSets): nat {
    if s == [] then 0 else CharWidth(s[0], widths) + Width(s[1..], widths)
  }

  /** What `calculatePixelWidth` computes. */
  function PixelWidth(text: string, widths: WidthSets): nat {
    Width(StripCodes(text), widths)
  }

  /** `calculatePixelWidth(text)`: strip the codes, then add up the widths one character at a time. */
  method CalculatePixelWidth(text: string, widths: WidthSets) returns (width: int)
    ensures width == PixelWidth(text, widths)
  {
    var stripped := StripCodes(text);
    width := 0;
    for i := 0 to |stripped|
      invariant width + Width(stripped[i..], widths) == Width(stripped, widths)
    {
      assert stripped[i..][1..] == stripped[i + 1..];
      width := width + CharWidth(stripped[i], widths);
    }
  }

  lemma {:induction false} WidthConcat(a: string, b: string, widths: WidthSets)
    ensures Width(a + b, widths) == Width(a, widths) + Width(b, widths)
    decreases |a|
  {
    if a != [] {
      assert (a + b)[1..] == a[1..] + b;
      WidthConcat(a[1..], b, widths);
    } else {
      assert a + b == b;
    }
  }

  /** Each character left after stripping is between 2 and 7 pixels wide. */
  lemma {:induction false} WidthBounds(s: string, widths: WidthSets)
    ensures 2 * |s| <= Width(s, widths) <= 7 * |s|
    decreases |s|
  {
    if s != [] {
      WidthBounds(s[1..], widths);
    }
  }

  lemma PixelWidthBounds(text: string, widths: WidthSets)
    ensures 2 * |StripCodes(text)| <= PixelWidth(text, widths) <= 7 * |StripCodes(text)|
  {
    WidthBounds(StripCodes(text), widths);
  }

  /** Without `§` characters, widths add up over concatenation. */
  lemma PixelWidthConcat(a: string, b: string, widths: WidthSets)
    requires SECTION !in a && SECTION !in b
    ensures PixelWidth(a + b, widths) == PixelWidth(a, widths) + PixelWidth(b, widths)
  {
    assert SECTION !in a + b;
    WidthConcat(a, b, widths);
  }

  lemma EmptyPixelWidth(widths: WidthSets)
    ensures PixelWidth("", widths) == 0
  {
  }
}
