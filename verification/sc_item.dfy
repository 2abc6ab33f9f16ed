/**
 * `SCItem`: typed attributes stored on an item, and the table of material
 * prices read from `prices.yml`.
 */
module SCItem {
  import opened JString
  import opened Config

  // ---------------------------------------------------------------------
  // getPersistentDataType
  // ---------------------------------------------------------------------

  /** The data types an attribute can be stored as. */
  datatype DataType = STRING | BYTE | INTEGER | DOUBLE | FLOAT

  /** A Java class given to `getAttrib`: one of the five boxed types, or any other class. */
  datatype JavaClass = StringClass | ByteClass | IntegerClass | DoubleClass | FloatClass | OtherClass(name: string)

  /** A Java value given to `addAttrib`: a boxed value of one of the five types, another object, or `null`. */
  datatype Obj = Str(s: string) | Byte(b: int) | Int(i: int) | Dbl(d: real) | Flt(f: real)
               | OtherObj(className: string) | Null

  /** The argument of `getPersistentDataType`: a class object or a value. */
  datatype Probe = AClass(c: JavaClass) | AValue(o: Obj)

  /** The class of a value; `null` has none. */
  function ClassOf(o: Obj): Option<JavaClass> {
    match o
    case Str(_) => Some(StringClass)
    case Byte(_) => Some(ByteClass)
    case Int(_) => Some(IntegerClass)
    case Dbl(_) => Some(DoubleClass)
    case Flt(_) => Some(FloatClass)
    case OtherObj(n) => Some(OtherClass(n))
    case Null => None
  }

  /** The class whose values a data type stores. */
  function ClassFor(t: DataType): JavaClass {
    match t
    case STRING => StringClass
    case BYTE => ByteClass
    case INTEGER => IntegerClass
    case DOUBLE => DoubleClass
    case FLOAT => FloatClass
  }

  /**
   * `getPersistentDataType(object)`: a class is compared with the five
   * boxed classes, a value is tested with `instanceof` against them; anything
   * else, `null` included, has no data type.
   */
  function DataTypeOf(p: Probe): Option<DataType> {
    match p
    case AClass(c) =>
      if c == StringClass then Some(STRING)
      else if c == ByteClass then Some(BYTE)
      else if c == IntegerClass then Some(INTEGER)
      else if c == DoubleClass then Some(DOUBLE)
      else if c == FloatClass then Some(FLOAT)
      else None
    case AValue(o) =>
      if o.Str? then Some(STRING)
      else if o.Byte? then Some(BYTE)
      else if o.Int? then Some(INTEGER)
      else if o.Dbl? then Some(DOUBLE)
      else if o.Flt? then Some(FLOAT)
      else None
  }

  /** A value has a data type exactly when it is a boxed value of one of the five types. */
  predicate Supported(o: Obj) {
    DataTypeOf(AValue(o)).Some?
  }

  /** The class branch recognises exactly the five classes, and each data type comes from its own class only. */
  lemma ClassDispatch(c: JavaClass, t: DataType)
    ensures DataTypeOf(AClass(ClassFor(t))) == Some(t)
    ensures DataTypeOf(AClass(c)) == Some(t) <==> c == ClassFor(t)
    ensures DataTypeOf(AClass(c)).None? <==> c.OtherClass?
  {
    match t
    case STRING =>
    case BYTE =>
    case INTEGER =>
    case DOUBLE =>
    case FLOAT =>
  }

  /** A value and its class give the same data type; `null` gives none. */
  lemma ValueDispatchAgrees(o: Obj)
    ensures o.Null? ==> DataTypeOf(AValue(o)).None?
    ensures ClassOf(o).Some? ==> DataTypeOf(AValue(o)) == DataTypeOf(AClass(ClassOf(o).value))
    ensures Supported(o) <==> !o.OtherObj? && !o.Null?
  {
    match o
    case Str(_) =>
    case Byte(_) =>
    case Int(_) =>
    case Dbl(_) =>
    case Flt(_) =>
    case OtherObj(_) =>
    case Null =>
  }

  // ---------------------------------------------------------------------
  // attributes
  // ---------------------------------------------------------------------

  /** A persistent data container: each key holds one value. */
  type Container = map<string, Obj>

  /** `container.has(key, type)`: the key holds a value of that data type. */
  predicate Has(c: Container, key: string, t: DataType) {
    key in c && DataTypeOf(AValue(c[key])) == Some(t)
  }

  /** An item stack; `meta` is `None` for an item that has no item meta. */
  class Item {
    var meta: Option<Container>

    constructor (meta: Option<Container>)
      ensures this.meta == meta
    {
      this.meta := meta;
    }
  }

  /** `addAttrib(item, key, value)`: stores a value of a supported type; anything else leaves the item as it was. */
  method AddAttrib(item: Item, key: string, value: Obj)
    modifies item
    ensures old(item.meta).Some? && Supported(value) ==> item.meta == Some(old(item.meta).value[key := value])
    ensures old(item.meta).None? || !Supported(value) ==> item.meta == old(item.meta)
    ensures old(item.meta).Some? && Supported(value) ==>
              GetAttrib(item, key, ClassOf(value).value, Null) == value
              && (HasAttrib(item, key) <==> value.Str?)
  {
    if item.meta.Some? {
      var t := DataTypeOf(AValue(value));
      if t.Some? {
        ValueDispatchAgrees(value);
        item.meta := Some(item.meta.value[key := value]);
      }
    }
  }

  /** `hasAttrib(item, key)`: only a text attribute counts. */
  function HasAttrib(item: Item, key: string): (r: bool)
    reads item
    ensures r <==> item.meta.Some? && key in item.meta.value && item.meta.value[key].Str?
  {
    item.meta.Some? && Has(item.meta.value, key, STRING)
  }

  /** `removeAttrib(item, key)` */
  method RemoveAttrib(item: Item, key: string)
    modifies item
    ensures old(item.meta).Some? ==> item.meta == Some(old(item.meta).value - {key})
    ensures old(item.meta).None? ==> item.meta == None
    ensures forall c: JavaClass, d: Obj :: GetAttrib(item, key, c, d) == d
    ensures !HasAttrib(item, key)
  {
    if item.meta.Some? {
      item.meta := Some(item.meta.value - {key});
    }
  }

  /**
   * `getAttrib(item, key, typeClass, defaultValue)`: the stored value when
   * the item has meta, the class has a data type and the key holds a
   * non-null value of that type; the default in every other case.
   */
  function GetAttrib(item: Item, key: string, typeClass: JavaClass, defaultValue: Obj): (r: Obj)
    reads item
    ensures item.meta.None? || DataTypeOf(AClass(typeClass)).None? ==> r == defaultValue
    ensures item.meta.Some? && key !in item.meta.value ==> r == defaultValue
    ensures r == defaultValue
            || (item.meta.Some? && key in item.meta.value && r == item.meta.value[key]
                && r != Null && ClassOf(r) == Some(typeClass))
    ensures item.meta.Some? && DataTypeOf(AClass(typeClass)).Some?
            && Has(item.meta.value, key, DataTypeOf(AClass(typeClass)).value) && item.meta.value[key] != Null
            ==> r == item.meta.value[key]
  {
    match item.meta
    case None => defaultValue
    case Some(container) =>
      match DataTypeOf(AClass(typeClass))
      case None => defaultValue
      case Some(t) =>
        if Has(container, key, t) then
          var value := container[key];
          if value != Null then
            ValueDispatchAgrees(value);
            ClassDispatch(typeClass, t);
            ClassDispatch(ClassOf(value).value, t);
            value
          else defaultValue
        else defaultValue
  }

  /** `getAttrib(item, key, typeClass)`: the default is `null`. */
  function GetAttribOrNull(item: Item, key: string, typeClass: JavaClass): (r: Obj)
    reads item
    ensures r == Null || ClassOf(r) == Some(typeClass)
  {
    GetAttrib(item, key, typeClass, Null)
  }

  // ---------------------------------------------------------------------
  // prices
  // ---------------------------------------------------------------------

  /** A configuration file: whether it exists, and what `loadConfiguration` reads from it. */
  datatype ConfigFile = ConfigFile(path: string, onDisk: bool, contents: Config)

  /** The materials under `prices`, when `prices` is a section. */
  function PriceNames(config: Config): set<string> {
    if Lookup(config, "prices").Section? then Children(config, "prices") else {}
  }

  /**
   * The price stored for one entry of `prices`: a number as it is, any other
   * value through `Double.parseDouble` of its text, 0 when that fails. The
   * text of a section (`MemorySection[...]`) is never a number.
   */
  function PriceOf(config: Config, name: string, parseDouble: string -> Option<real>): real {
    match Lookup(config, "prices." + name)
    case Leaf(Number(n, _)) => n
    case Leaf(Text(s)) => ParsedOrZero(parseDouble(s))
    case Leaf(Flag(b)) => ParsedOrZero(parseDouble(if b then "true" else "false"))
    case _ => 0.0
  }

  function ParsedOrZero(p: Option<real>): real {
    if p.Some? then p.value else 0.0
  }

  /**
   * The table holds one price per upper-cased name of `names`, and each price
   * is the one stored for a name of that upper-cased form.
   */
  ghost predicate LoadedFrom(prices: map<string, real>, config: Config, names: set<string>,
                             parseDouble: string -> Option<real>) {
    KeysFrom(prices, names) && PricesFrom(prices, config, names, parseDouble)
  }

  ghost predicate KeysFrom(prices: map<string, real>, names: set<string>) {
    prices.Keys == (set n | n in names :: Upper(n))
  }

  ghost predicate PricesFrom(prices: map<string, real>, config: Config, names: set<string>,
                             parseDouble: string -> Option<real>) {
    forall m :: m in prices ==>
      exists n :: n in names && Upper(n) == m && prices[m] == PriceOf(config, n, parseDouble)
  }

  /** Storing the price of one more name keeps the table loaded from the names so far. */
  lemma LoadedStep(prices: map<string, real>, config: Config, done: set<string>, name: string,
                   parseDouble: string -> Option<real>)
    requires LoadedFrom(prices, config, done, parseDouble)
    ensures LoadedFrom(prices[Upper(name) := PriceOf(config, name, parseDouble)], config, done + {name}, parseDouble)
  {
    KeysStep(prices, done, name, PriceOf(config, name, parseDouble));
    PricesStep(prices, config, done, name, parseDouble);
  }

  lemma KeysStep(prices: map<string, real>, done: set<string>, name: string, price: real)
    requires KeysFrom(prices, done)
    ensures KeysFrom(prices[Upper(name) := price], done + {name})
  {
    assert prices[Upper(name) := price].Keys == prices.Keys + {Upper(name)};
    assert (set n | n in done + {name} :: Upper(n)) == (set n | n in done :: Upper(n)) + {Upper(name)};
  }

  lemma PricesStep(prices: map<string, real>, config: Config, done: set<string>, name: string,
                   parseDouble: string -> Option<real>)
    requires PricesFrom(prices, config, done, parseDouble)
    ensures PricesFrom(prices[Upper(name) := PriceOf(config, name, parseDouble)], config, done + {name}, parseDouble)
  {
    var next := prices[Upper(name) := PriceOf(config, name, parseDouble)];
    forall m | m in next
      ensures exists n :: n in done + {name} && Upper(n) == m && next[m] == PriceOf(config, n, parseDouble)
    {
      if m == Upper(name) {
        assert name in done + {name};
      } else {
        var n :| n in done && Upper(n) == m && prices[m] == PriceOf(config, n, parseDouble);
        assert n in done + {name};
      }
    }
  }

  /** The static price table of `SCItem` and the configuration it was read from. */
  class Prices {
    var prices: map<string, real>
    var pricesConfigFile: Option<string>
    var pricesConfig: Option<Config>

    constructor ()
      ensures prices == map[] && pricesConfigFile == None && pricesConfig == None
    {
      prices := map[];
      pricesConfigFile := None;
      pricesConfig := None;
    }

    /**
     * `loadPricesFromConfig(configFile)`: nothing when the file is missing;
     * otherwise the table is cleared and refilled from `prices`, keys upper-cased,
     * in the map's own order (so of two names equal but for case, either may
     * win). A `prices` that is a value rather than a section makes
     * `requireNonNull` throw after the table was cleared.
     */
    method LoadPricesFromConfig(file: ConfigFile, parseDouble: string -> Option<real>) returns (thrown: Option<string>)
      modifies this
      ensures !file.onDisk ==> thrown == None && unchanged(this)
      ensures file.onDisk && Lookup(file.contents, "prices").Leaf? ==>
                thrown == Some("NullPointerException") && prices == map[]
                && pricesConfigFile == old(pricesConfigFile) && pricesConfig == old(pricesConfig)
      ensures file.onDisk && !Lookup(file.contents, "prices").Leaf? ==>
                thrown == None && pricesConfigFile == Some(file.path) && pricesConfig == Some(file.contents)
                && LoadedFrom(prices, file.contents, PriceNames(file.contents), parseDouble)
    {
      if !file.onDisk {
        return None;
      }
      var config := file.contents;
      prices := map[];
      var section := Lookup(config, "prices");
      if !section.Missing? {
        if section.Leaf? {
          return Some("NullPointerException");
        }
        var names := Children(config, "prices");
        var remaining := names;
        ghost var done: set<string> := {};
        while remaining != {}
          invariant remaining <= names && done == names - remaining
          invariant LoadedFrom(prices, config, done, parseDouble)
          decreases remaining
        {
          var name :| name in remaining;
          var key := Upper(name);
          var price := PriceOf(config, name, parseDouble);
          LoadedStep(prices, config, done, name, parseDouble);
          prices := prices[key := price];
          remaining := remaining - {name};
          done := done + {name};
        }
      } else {
        assert PriceNames(config) == {};
      }
      pricesConfigFile := Some(file.path);
      pricesConfig := Some(config);
      thrown := None;
    }

    /** `getPrice(material, defaultPrice)`: looked up upper-cased. */
    function GetPrice(material: string, defaultPrice: real): (r: real)
      reads this`prices
      ensures Upper(material) in prices ==> r == prices[Upper(material)]
      ensures Upper(material) !in prices ==> r == defaultPrice
    {
      if Upper(material) in prices then prices[Upper(material)] else defaultPrice
    }

    /** `getPrice(material)`: a missing material costs 0. */
    function GetPriceOrZero(material: string): (r: real)
      reads this`prices
      ensures Upper(material) !in prices ==> r == 0.0
    {
      GetPrice(material, 0.0)
    }

    /**
     * `setPrice(material, price)`: the table takes the price under the
     * upper-cased name, then the configuration does; before any load there is
     * no configuration, and that second step throws. The configuration keeps
     * the price as a `Double`, whose text is `doubleText(price)`
     * (`Double.toString`).
     */
    method SetPrice(material: string, price: real, doubleText: real -> string) returns (thrown: Option<string>)
      modifies this
      ensures prices == old(prices)[Upper(material) := price]
      ensures pricesConfigFile == old(pricesConfigFile)
      ensures old(pricesConfig).None? ==> thrown == Some("NullPointerException") && pricesConfig == None
      ensures old(pricesConfig).Some? ==>
                thrown == None
                && pricesConfig == Some(Set(old(pricesConfig).value, "prices." + Upper(material), Number(price, doubleText(price))))
      ensures forall other, d :: EqualsIgnoreCase(other, material) ==> GetPrice(other, d) == price
    {
      var materialUC := Upper(material);
      prices := prices[materialUC := price];
      if pricesConfig.None? {
        thrown := Some("NullPointerException");
      } else {
        pricesConfig := Some(Set(pricesConfig.value, "prices." + materialUC, Number(price, doubleText(price))));
        thrown := None;
      }
      forall other, d | EqualsIgnoreCase(other, material)
        ensures GetPrice(other, d) == price
      {
        UpperIgnoresCase(other, material);
      }
    }
  }

  /** Names that differ only in case have the same price. */
  lemma GetPriceIgnoresCase(table: Prices, a: string, b: string, d: real)
    requires EqualsIgnoreCase(a, b)
    ensures table.GetPrice(a, d) == table.GetPrice(b, d)
  {
    UpperIgnoresCase(a, b);
  }

  /** After a load, a material none of whose names appear under `prices` costs the default. */
  lemma UnlistedMaterialCostsDefault(config: Config, material: string, prices: map<string, real>,
                                     parseDouble: string -> Option<real>)
    requires LoadedFrom(prices, config, PriceNames(config), parseDouble)
    requires forall n :: n in PriceNames(config) ==> !EqualsIgnoreCase(n, material)
    ensures Upper(material) !in prices
  {
    if Upper(material) in prices {
      var n :| n in PriceNames(config) && Upper(n) == Upper(material);
      UpperEqualsIgnoreCase(n, material);
    }
  }
}
