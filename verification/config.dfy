/**
 * A YAML configuration (`YamlConfiguration`) as the plugin sees it: a flat
 * map from dotted paths to scalar values. A path with no value of its own
 * but with values below it is a section.
 */
module Config {
  import opened JString

  /**
   * A scalar. A number keeps the text its Java object's `toString` gives
   * (`123` for an `Integer`, `1.5` for a `Double`), which this model does
   * not compute.
   */
  datatype Value = Text(s: string) | Flag(b: bool) | Number(n: real, text: string)

  type Config = map<string, Value>

  /** What `get(path)` finds: a scalar, a section, or nothing. */
  datatype Entry = Leaf(value: Value) | Section | Missing

  /** `k` is `path` itself or lies below it. */
  predicate Under(k: string, path: string) {
    k == path || StartsWith(k, path + ".")
  }

  predicate HasSection(c: Config, path: string) {
    exists k :: k in c && k != path && Under(k, path)
  }

  function Lookup(c: Config, path: string): (e: Entry)
    ensures e.Leaf? <==> path in c
    ensures e.Leaf? ==> e.value == c[path]
    ensures e.Section? <==> path !in c && HasSection(c, path)
  {
    if path in c then Leaf(c[path])
    else if HasSection(c, path) then Section
    else Missing
  }

  /** `contains(path)` */
  predicate Contains(c: Config, path: string) {
    !Lookup(c, path).Missing?
  }

  /** `getBoolean(path, def)`: the stored boolean, or `def` when the path holds anything else or nothing. */
  function GetBoolean(c: Config, path: string, def: bool): (r: bool)
    ensures (path in c && c[path].Flag?) ==> r == c[path].b
    ensures !(path in c && c[path].Flag?) ==> r == def
  {
    match Lookup(c, path)
    case Leaf(Flag(b)) => b
    case _ => def
  }

  /** `toString` of the section at `path` of a YAML configuration (Bukkit's `MemorySection`). */
  function SectionText(path: string): string {
    "MemorySection[path='" + path + "', root='YamlConfiguration']"
  }

  /**
   * `getString(path)`: the `toString` of whatever the path holds, a section
   * included; `None` for a missing path (Java's `null`).
   */
  function GetString(c: Config, path: string): (r: Option<string>)
    ensures r.None? <==> !Contains(c, path)
    ensures (path in c && c[path].Text?) ==> r == Some(c[path].s)
    ensures (path in c && c[path].Number?) ==> r == Some(c[path].text)
    ensures Lookup(c, path).Section? ==> r == Some(SectionText(path))
  {
    match Lookup(c, path)
    case Leaf(Text(s)) => Some(s)
    case Leaf(Flag(b)) => Some(if b then "true" else "false")
    case Leaf(Number(_, text)) => Some(text)
    case Section => Some(SectionText(path))
    case Missing => None
  }

  /** `getString(path, def)` */
  function GetStringOr(c: Config, path: string, def: string): (r: string)
    ensures GetString(c, path).Some? ==> r == GetString(c, path).value
    ensures GetString(c, path).None? ==> r == def
  {
    match GetString(c, path)
    case Some(s) => s
    case None => def
  }

  /**
   * `set(path, value)` with a value: the path becomes a scalar, so whatever
   * was below it is dropped, and so is any scalar on the way down, which
   * turns into a section.
   */
  function Set(c: Config, path: string, v: Value): (r: Config)
    ensures Lookup(r, path) == Leaf(v)
    ensures forall k :: k in r && k != path ==> k in c && r[k] == c[k] && !Under(k, path) && !Under(path, k)
    ensures forall k :: k in c && !Under(k, path) && !Under(path, k) ==> k in r && r[k] == c[k]
  {
    (map k | k in c && !Under(k, path) && !Under(path, k) :: c[k])[path := v]
  }

  /** `set(path, null)`: the path and everything below it are removed. */
  function Unset(c: Config, path: string): (r: Config)
    ensures Lookup(r, path) == Missing
    ensures forall k :: k in r <==> k in c && !Under(k, path)
    ensures forall k :: k in r ==> r[k] == c[k]
  {
    var r := map k | k in c && !Under(k, path) :: c[k];
    assert !HasSection(r, path);
    r
  }

  /** Lying below is transitive. */
  lemma UnderTrans(k: string, sub: string, path: string)
    requires Under(k, sub) && Under(sub, path)
    ensures Under(k, path)
  {
    if k != sub && sub != path {
      assert k[..|sub|] == sub;
      assert k[..|path + "."|] == sub[..|path + "."|];
    } else if k != sub {
      assert sub + "." == path + ".";
    }
  }

  /** After `set(path, null)` nothing is found at or below `path`. */
  lemma UnsetClearsBelow(c: Config, path: string, sub: string)
    requires Under(sub, path)
    ensures Lookup(Unset(c, path), sub).Missing?
  {
    var r := Unset(c, path);
    if HasSection(r, sub) {
      var k :| k in r && k != sub && Under(k, sub);
      UnderTrans(k, sub, path);
      assert false;
    }
    if sub in r {
      assert false;
    }
  }

  /** Setting a path never disturbs a path that is neither above nor below it. */
  lemma SetKeepsUnrelated(c: Config, path: string, v: Value, other: string)
    requires !Under(other, path) && !Under(path, other)
    ensures Lookup(Set(c, path, v), other).Leaf? <==> Lookup(c, other).Leaf?
    ensures other in c ==> Set(c, path, v)[other] == c[other]
  {
  }

  /** A boolean written is the boolean read back, whatever the default. */
  lemma GetBooleanAfterSet(c: Config, path: string, b: bool, def: bool)
    ensures GetBoolean(Set(c, path, Flag(b)), path, def) == b
  {
  }

  /** A text written is the text read back. */
  lemma GetStringAfterSet(c: Config, path: string, s: string)
    ensures GetString(Set(c, path, Text(s)), path) == Some(s)
  {
  }

  /**
   * The names directly below `path` (`getConfigurationSection(path).getKeys(false)`):
   * the first segment of every key that lies below it.
   */
  function Children(c: Config, path: string): (r: set<string>)
    ensures forall k :: k in c && StartsWith(k, path + ".") ==> FirstSegment(k[|path| + 1..]) in r
  {
    set k | k in c && StartsWith(k, path + ".") :: FirstSegment(k[|path| + 1..])
  }

  /** The text before the first `.`, or all of it. */
  function FirstSegment(s: string): (r: string)
    ensures '.' !in r
    ensures StartsWith(s, r)
  {
    IndexOfFirst(s, '.');
    match IndexOf(s, '.')
    case None => s
    case Some(k) => s[..k]
  }
}
