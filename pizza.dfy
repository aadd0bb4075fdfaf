/** Pizza records: BasePizza and its three variants. Every object keeps its
    attributes in its instance dictionary; a validated property `p` keeps its
    value under the private name "_" + p, and its setter refuses any value
    outside a two-value list before anything is stored. */
module Pizzas {
  import opened Builtins

  /** The class of a pizza object. */
  datatype Variant = BasePizza | Pepperoni | Margherita | Hawaiian

  /** A validated property: the values its setter accepts and the message of
      the ValueError it raises for any other value. */
  datatype Property = Property(allowed: seq<string>, message: string)

  /** The properties defined on a class or inherited from BasePizza. `meat`
      is a property of Pepperoni only; Hawaiian has none of that name. */
  function PropertyOf(v: Variant, name: string): Option<Property> {
    if name == "sauce" then
      Some(Property(["tomato sauce", "no sauce"], "Sauce must be tomato sauce or no sauce"))
    else if name == "size" then
      Some(Property(["L", "XL"], "Size must be L or XL"))
    else if name == "cheese" then
      Some(Property(["mozzarella", "no cheese"], "Cheese must be Mozzarella or no cheese"))
    else if name == "meat" && v == Pepperoni then
      Some(Property(["pepperoni", "no meat"], "Meat must be pepperoni or no meat"))
    else if name == "tomatoes" && v == Margherita then
      Some(Property(["tomatoes", "no tomatoes"], "Meat must be tomatoes or no tomatoes"))
    else if name == "pineapple" && v == Hawaiian then
      Some(Property(["pineapples", "no pineapples"], "Meat must be pineapples or no pineapples"))
    else
      None
  }

  /** The instance-dictionary key that `obj.name` reads and writes. */
  function StorageKey(v: Variant, name: string): string {
    if PropertyOf(v, name).Some? then "_" + name else name
  }

  /** `key` is the private slot behind one of the class's properties. */
  predicate IsStorage(v: Variant, key: string) {
    |key| > 0 && key[0] == '_' && PropertyOf(v, key[1..]).Some?
  }

  /** A private slot may only hold a value its property accepts; any other key may hold anything. */
  predicate Admissible(v: Variant, key: string, value: string) {
    IsStorage(v, key) ==> value in PropertyOf(v, key[1..]).value.allowed
  }

  /** The object invariant: no guarded slot holds a value outside its list. */
  predicate Guarded(v: Variant, d: AttrDict) {
    DistinctKeys(d) && forall i :: 0 <= i < |d| ==> Admissible(v, d[i].0, d[i].1)
  }

  /** `obj.name = value` on an object of class `v` whose dictionary is `d`:
      a property's setter checks the value and stores it in the private slot;
      any other name is stored in the dictionary as it is. */
  function Assign(v: Variant, d: AttrDict, name: string, value: string): (r: Result<AttrDict>)
    ensures r.Success? <==> Accepts(v, name, value)
    ensures r.Failure? ==> r.error == ValueError(PropertyOf(v, name).value.message)
    ensures r.Success? ==> AsMap(r.value) == AsMap(d)[StorageKey(v, name) := value]
  {
    match PropertyOf(v, name)
    case None => Success(Store(d, name, value))
    case Some(p) =>
      if value in p.allowed then Success(Store(d, "_" + name, value))
      else Failure(ValueError(p.message))
  }

  /** `obj.name = value` does not raise: `name` is no property of the class, or its setter accepts `value`. */
  predicate Accepts(v: Variant, name: string, value: string) {
    PropertyOf(v, name).None? || value in PropertyOf(v, name).value.allowed
  }

  /** `obj.name`: the property getter or the plain attribute; None where Python raises AttributeError. */
  function Lookup(v: Variant, d: AttrDict, name: string): (r: Option<string>)
    ensures r.Some? <==> StorageKey(v, name) in Keys(d)
    ensures r.Some? ==> (StorageKey(v, name), r.value) in d
    ensures Guarded(v, d) && PropertyOf(v, name).Some? && r.Some? ==>
      r.value in PropertyOf(v, name).value.allowed
  {
    GuardedRead(v, d, name);
    Find(d, StorageKey(v, name))
  }

  /** A property's private slot in a guarded dictionary holds one of the values its setter allows. */
  lemma GuardedRead(v: Variant, d: AttrDict, name: string)
    ensures Guarded(v, d) && PropertyOf(v, name).Some? && Find(d, StorageKey(v, name)).Some? ==>
      Find(d, StorageKey(v, name)).value in PropertyOf(v, name).value.allowed
  {
    if Guarded(v, d) && PropertyOf(v, name).Some? && Find(d, StorageKey(v, name)).Some? {
      var i :| 0 <= i < |d| && d[i] == (StorageKey(v, name), Find(d, StorageKey(v, name)).value);
      assert Admissible(v, d[i].0, d[i].1) && ("_" + name)[1..] == name;
    }
  }

  // ---------------------------------------------------------------------------
  // The setters, one lemma per validated property.

  lemma SauceDomain(v: Variant, d: AttrDict, x: string)
    ensures Assign(v, d, "sauce", x).Success? <==> x == "tomato sauce" || x == "no sauce"
    ensures Assign(v, d, "sauce", x).Failure? ==>
      Assign(v, d, "sauce", x).error == ValueError("Sauce must be tomato sauce or no sauce")
  {
  }

  lemma SizeDomain(v: Variant, d: AttrDict, x: string)
    ensures Assign(v, d, "size", x).Success? <==> x == "L" || x == "XL"
    ensures Assign(v, d, "size", x).Failure? ==>
      Assign(v, d, "size", x).error == ValueError("Size must be L or XL")
    ensures Assign(v, d, "size", "S") == Failure(ValueError("Size must be L or XL"))
  {
  }

  lemma CheeseDomain(v: Variant, d: AttrDict, x: string)
    ensures Assign(v, d, "cheese", x).Success? <==> x == "mozzarella" || x == "no cheese"
    ensures Assign(v, d, "cheese", x).Failure? ==>
      Assign(v, d, "cheese", x).error == ValueError("Cheese must be Mozzarella or no cheese")
  {
  }

  lemma PepperoniMeatDomain(d: AttrDict, x: string)
    ensures Assign(Pepperoni, d, "meat", x).Success? <==> x == "pepperoni" || x == "no meat"
    ensures Assign(Pepperoni, d, "meat", x).Failure? ==>
      Assign(Pepperoni, d, "meat", x).error == ValueError("Meat must be pepperoni or no meat")
  {
  }

  lemma MargheritaTomatoesDomain(d: AttrDict, x: string)
    ensures Assign(Margherita, d, "tomatoes", x).Success? <==> x == "tomatoes" || x == "no tomatoes"
    ensures Assign(Margherita, d, "tomatoes", x).Failure? ==>
      Assign(Margherita, d, "tomatoes", x).error == ValueError("Meat must be tomatoes or no tomatoes")
  {
  }

  lemma HawaiianPineappleDomain(d: AttrDict, x: string)
    ensures Assign(Hawaiian, d, "pineapple", x).Success? <==> x == "pineapples" || x == "no pineapples"
    ensures Assign(Hawaiian, d, "pineapple", x).Failure? ==>
      Assign(Hawaiian, d, "pineapple", x).error == ValueError("Meat must be pineapples or no pineapples")
  {
  }

  /** Hawaiian defines no `meat` property, so `meat` is a plain attribute that takes any value. */
  lemma HawaiianMeatUnchecked(d: AttrDict, x: string)
    ensures Assign(Hawaiian, d, "meat", x) == Success(Store(d, "meat", x))
    ensures Lookup(Hawaiian, Store(d, "meat", x), "meat") == Some(x)
    ensures !IsStorage(Hawaiian, "meat")
  {
  }

  /** After a successful `obj.name = value`, `obj.name` reads back `value`, and
      every attribute kept under another key reads as before. */
  lemma ReadAfterWrite(v: Variant, d: AttrDict, name: string, value: string, other: string)
    requires Assign(v, d, name, value).Success?
    ensures Lookup(v, Assign(v, d, name, value).value, name) == Some(value)
    ensures StorageKey(v, other) != StorageKey(v, name) ==>
      Lookup(v, Assign(v, d, name, value).value, other) == Lookup(v, d, other)
  {
  }

  /** A successful assignment through any public name keeps the invariant. */
  lemma AssignPreservesGuarded(v: Variant, d: AttrDict, name: string, value: string)
    requires Guarded(v, d) && !IsStorage(v, name)
    requires Assign(v, d, name, value).Success?
    ensures Guarded(v, Assign(v, d, name, value).value)
  {
    var key := StorageKey(v, name);
    var d' := Store(d, key, value);
    StoreDistinct(d, key, value);
    StoreEntries(d, key, value);
    assert Assign(v, d, name, value).value == d';
    if PropertyOf(v, name).Some? {
      assert key[1..] == name;
    }
    assert Admissible(v, key, value);
    forall i | 0 <= i < |d'| ensures Admissible(v, d'[i].0, d'[i].1) {
      assert d'[i] in d';
      if d'[i] != (key, value) {
        var j :| 0 <= j < |d| && d[j] == d'[i];
      }
    }
  }

  /** Setting a property whose slot already exists keeps every key in its
      place and changes only that slot's value. */
  lemma AssignKeepsLayout(v: Variant, d: AttrDict, name: string, value: string)
    requires DistinctKeys(d) && PropertyOf(v, name).Some? && "_" + name in Keys(d)
    requires Assign(v, d, name, value).Success?
    ensures Keys(Assign(v, d, name, value).value) == Keys(d)
    ensures forall i :: 0 <= i < |d| ==>
      Values(Assign(v, d, name, value).value)[i] == if d[i].0 == "_" + name then value else d[i].1
  {
    StoreInPlace(d, "_" + name, value);
  }

  // ---------------------------------------------------------------------------
  // Construction.

  /** The arguments of the four constructors. */
  datatype Args =
    | BaseArgs(sauce: string, cheese: string, size: string)
    | PepperoniArgs(meat: string)
    | MargheritaArgs(tomatoes: string)
    | HawaiianArgs(meat: string, pineapple: string)
  {
    function Variant(): Variant {
      match this
      case BaseArgs(_, _, _) => BasePizza
      case PepperoniArgs(_) => Pepperoni
      case MargheritaArgs(_) => Margherita
      case HawaiianArgs(_, _) => Hawaiian
    }

    /** The assignments the constructor performs, in order; the variants call
        `BasePizza.__init__` with its defaults first. */
    function Steps(): seq<(string, string)> {
      match this
      case BaseArgs(s, c, z) => BaseSteps(s, c, z)
      case PepperoniArgs(m) => BaseSteps(DefaultSauce, DefaultCheese, DefaultSize) + [("meat", m)]
      case MargheritaArgs(t) => BaseSteps(DefaultSauce, DefaultCheese, DefaultSize) + [("tomatoes", t)]
      case HawaiianArgs(m, p) =>
        BaseSteps(DefaultSauce, DefaultCheese, DefaultSize) + [("meat", m), ("pineapple", p)]
    }

    /** The field values an object built from these arguments holds, in order. */
    function FieldValues(): seq<string> {
      match this
      case BaseArgs(s, c, z) => [s, c, z]
      case PepperoniArgs(m) => [DefaultSauce, DefaultCheese, DefaultSize, m]
      case MargheritaArgs(t) => [DefaultSauce, DefaultCheese, DefaultSize, t]
      case HawaiianArgs(m, p) => [DefaultSauce, DefaultCheese, DefaultSize, m, p]
    }
  }

  const DefaultSauce := "tomato sauce"
  const DefaultCheese := "mozzarella"
  const DefaultSize := "L"

  /** The body of `BasePizza.__init__`. */
  function BaseSteps(sauce: string, cheese: string, size: string): seq<(string, string)> {
    [("sauce", sauce), ("cheese", cheese), ("size", size)]
  }

  /** A sequence of assignments run one after the other; the first that raises ends it. */
  function AssignAll(v: Variant, d: AttrDict, steps: seq<(string, string)>): (r: Result<AttrDict>)
    ensures r.Failure? ==> r.error.ValueError?
    decreases |steps|
  {
    if steps == [] then Success(d)
    else
      match Assign(v, d, steps[0].0, steps[0].1)
      case Failure(e) => Failure(e)
      case Success(d1) => AssignAll(v, d1, steps[1..])
  }

  /** The dictionary a constructor leaves, or the exception it raises. */
  function Construct(args: Args): (r: Result<AttrDict>)
    ensures r.Failure? ==> r.error.ValueError?
  {
    AssignAll(args.Variant(), [], args.Steps())
  }

  /** The arguments every setter the constructor runs accepts. */
  predicate ArgsAccepted(args: Args) {
    match args
    case BaseArgs(s, c, z) =>
      s in ["tomato sauce", "no sauce"] && c in ["mozzarella", "no cheese"] && z in ["L", "XL"]
    case PepperoniArgs(m) => m in ["pepperoni", "no meat"]
    case MargheritaArgs(t) => t in ["tomatoes", "no tomatoes"]
    case HawaiianArgs(_, p) => p in ["pineapples", "no pineapples"]
  }

  /** A constructor raises exactly when one of its arguments is outside its list;
      the variants' defaults for the base fields are always accepted, and so is
      any Hawaiian meat. */
  lemma ConstructSucceedsIff(args: Args)
    ensures Construct(args).Success? <==> ArgsAccepted(args)
  {
    match args
    case BaseArgs(s, c, z) => BaseInit(BasePizza, s, c, z);
    case PepperoniArgs(m) => PepperoniInit(m);
    case MargheritaArgs(t) => MargheritaInit(t);
    case HawaiianArgs(m, p) => HawaiianInit(m, p);
  }

  /** A run of assignments raises exactly when one of them is refused. */
  lemma {:induction false} AssignAllSucceedsIff(v: Variant, d: AttrDict, steps: seq<(string, string)>)
    ensures AssignAll(v, d, steps).Success? <==>
      forall i :: 0 <= i < |steps| ==> Accepts(v, steps[i].0, steps[i].1)
    decreases |steps|
  {
    if steps != [] {
      assert forall i :: 0 < i < |steps| ==> steps[i] == steps[1..][i - 1];
      var r := Assign(v, d, steps[0].0, steps[0].1);
      if r.Success? {
        AssignAllSucceedsIff(v, r.value, steps[1..]);
      }
    }
  }

  /** The keys of a freshly built object, in insertion order. */
  function Layout(v: Variant): seq<string> {
    match v
    case BasePizza => ["_sauce", "_cheese", "_size"]
    case Pepperoni => ["_sauce", "_cheese", "_size", "_meat"]
    case Margherita => ["_sauce", "_cheese", "_size", "_tomatoes"]
    case Hawaiian => ["_sauce", "_cheese", "_size", "meat", "_pineapple"]
  }

  /** Running two blocks of assignments is running the first, then the second on its result. */
  lemma {:induction false} AssignAllAppend(v: Variant, d: AttrDict, s1: seq<(string, string)>,
                                          s2: seq<(string, string)>)
    ensures AssignAll(v, d, s1 + s2) ==
      if AssignAll(v, d, s1).Failure? then Failure(AssignAll(v, d, s1).error)
      else AssignAll(v, AssignAll(v, d, s1).value, s2)
    decreases |s1|
  {
    if s1 != [] {
      assert (s1 + s2)[0] == s1[0];
      assert (s1 + s2)[1..] == s1[1..] + s2;
      match Assign(v, d, s1[0].0, s1[0].1)
      case Failure(e) =>
      case Success(d1) => AssignAllAppend(v, d1, s1[1..], s2);
    } else {
      assert s1 + s2 == s2;
    }
  }

  /** Setting a property whose slot is not yet present appends the slot, or raises. */
  lemma NewSlot(v: Variant, d: AttrDict, name: string, value: string, slot: string,
                allowed: seq<string>, message: string)
    requires PropertyOf(v, name) == Some(Property(allowed, message))
    requires slot == "_" + name && slot !in Keys(d)
    ensures Assign(v, d, name, value) ==
      if value in allowed then Success(d + [(slot, value)]) else Failure(ValueError(message))
  {
    StoreAppends(d, slot, value);
  }

  /** Setting a plain attribute that is not yet present appends it. */
  lemma NewPlain(v: Variant, d: AttrDict, name: string, value: string)
    requires PropertyOf(v, name) == None && name !in Keys(d)
    ensures Assign(v, d, name, value) == Success(d + [(name, value)])
  {
    StoreAppends(d, name, value);
  }

  /** One assignment followed by the rest. */
  lemma AssignAllCons(v: Variant, d: AttrDict, name: string, value: string, rest: seq<(string, string)>)
    ensures AssignAll(v, d, [(name, value)] + rest) ==
      if Assign(v, d, name, value).Failure? then Failure(Assign(v, d, name, value).error)
      else AssignAll(v, Assign(v, d, name, value).value, rest)
  {
    assert ([(name, value)] + rest)[1..] == rest;
  }

  /** A run of assignments through public names keeps the invariant. */
  lemma {:induction false} AssignAllPreservesGuarded(v: Variant, d: AttrDict, steps: seq<(string, string)>)
    requires Guarded(v, d)
    requires forall i :: 0 <= i < |steps| ==> !IsStorage(v, steps[i].0)
    requires AssignAll(v, d, steps).Success?
    ensures Guarded(v, AssignAll(v, d, steps).value)
    decreases |steps|
  {
    if steps != [] {
      AssignPreservesGuarded(v, d, steps[0].0, steps[0].1);
      AssignAllPreservesGuarded(v, Assign(v, d, steps[0].0, steps[0].1).value, steps[1..]);
    }
  }

  /** `self.size = z` as the last step of `BasePizza.__init__`. */
  lemma BaseSizeStep(v: Variant, s: string, c: string, z: string)
    ensures AssignAll(v, [("_sauce", s), ("_cheese", c)], [("size", z)]) ==
      if z !in ["L", "XL"] then Failure(ValueError("Size must be L or XL"))
      else Success([("_sauce", s), ("_cheese", c), ("_size", z)])
  {
    var d: AttrDict := [("_sauce", s), ("_cheese", c)];
    assert Keys(d) == ["_sauce", "_cheese"];
    NewSlot(v, d, "size", z, "_size", ["L", "XL"], "Size must be L or XL");
    AssignAllCons(v, d, "size", z, []);
    assert [("size", z)] + [] == [("size", z)];
    assert d + [("_size", z)] == [("_sauce", s), ("_cheese", c), ("_size", z)];
  }

  /** `self.cheese = c` as the second step of `BasePizza.__init__`. */
  lemma BaseCheeseStep(v: Variant, s: string, c: string, z: string)
    ensures AssignAll(v, [("_sauce", s)], [("cheese", c), ("size", z)]) ==
      if c !in ["mozzarella", "no cheese"] then Failure(ValueError("Cheese must be Mozzarella or no cheese"))
      else AssignAll(v, [("_sauce", s), ("_cheese", c)], [("size", z)])
  {
    var d: AttrDict := [("_sauce", s)];
    assert Keys(d) == ["_sauce"];
    NewSlot(v, d, "cheese", c, "_cheese", ["mozzarella", "no cheese"], "Cheese must be Mozzarella or no cheese");
    AssignAllCons(v, d, "cheese", c, [("size", z)]);
    assert [("cheese", c)] + [("size", z)] == [("cheese", c), ("size", z)];
    assert d + [("_cheese", c)] == [("_sauce", s), ("_cheese", c)];
  }

  /** `self.sauce = s` as the first step of `BasePizza.__init__`. */
  lemma BaseSauceStep(v: Variant, s: string, c: string, z: string)
    ensures AssignAll(v, [], BaseSteps(s, c, z)) ==
      if s !in ["tomato sauce", "no sauce"] then Failure(ValueError("Sauce must be tomato sauce or no sauce"))
      else AssignAll(v, [("_sauce", s)], [("cheese", c), ("size", z)])
  {
    NewSlot(v, [], "sauce", s, "_sauce", ["tomato sauce", "no sauce"], "Sauce must be tomato sauce or no sauce");
    AssignAllCons(v, [], "sauce", s, [("cheese", c), ("size", z)]);
    assert BaseSteps(s, c, z) == [("sauce", s)] + [("cheese", c), ("size", z)];
    assert [] + [("_sauce", s)] == [("_sauce", s)];
  }

  /** `BasePizza.__init__` on an empty dictionary: the first argument outside
      its list raises; otherwise the three slots are stored in order. */
  lemma BaseInit(v: Variant, s: string, c: string, z: string)
    ensures AssignAll(v, [], BaseSteps(s, c, z)) ==
      if s !in ["tomato sauce", "no sauce"] then Failure(ValueError("Sauce must be tomato sauce or no sauce"))
      else if c !in ["mozzarella", "no cheese"] then Failure(ValueError("Cheese must be Mozzarella or no cheese"))
      else if z !in ["L", "XL"] then Failure(ValueError("Size must be L or XL"))
      else Success([("_sauce", s), ("_cheese", c), ("_size", z)])
  {
    BaseSauceStep(v, s, c, z);
    BaseCheeseStep(v, s, c, z);
    BaseSizeStep(v, s, c, z);
  }

  /** The dictionary every variant holds once `BasePizza.__init__()` has run. */
  const BaseDefaults: AttrDict := [("_sauce", DefaultSauce), ("_cheese", DefaultCheese), ("_size", DefaultSize)]

  /** `super().__init__()` in each variant: the defaults are all allowed. */
  lemma BaseDefaultsInit(v: Variant)
    ensures AssignAll(v, [], BaseSteps(DefaultSauce, DefaultCheese, DefaultSize)) == Success(BaseDefaults)
  {
    BaseInit(v, DefaultSauce, DefaultCheese, DefaultSize);
  }

  /** `self.meat = m` on a Hawaiian holding the base defaults: a plain attribute, appended. */
  lemma HawaiianMeatAssign(m: string)
    ensures Assign(Hawaiian, BaseDefaults, "meat", m) == Success(BaseDefaults + [("meat", m)])
  {
    assert Keys(BaseDefaults) == ["_sauce", "_cheese", "_size"];
    NewPlain(Hawaiian, BaseDefaults, "meat", m);
  }

  /** A variant's constructor: the base defaults, then its own assignments. */
  lemma VariantInit(args: Args, own: seq<(string, string)>)
    requires args.Steps() == BaseSteps(DefaultSauce, DefaultCheese, DefaultSize) + own
    ensures Construct(args) == AssignAll(args.Variant(), BaseDefaults, own)
  {
    var v := args.Variant();
    BaseInit(v, DefaultSauce, DefaultCheese, DefaultSize);
    AssignAllAppend(v, [], BaseSteps(DefaultSauce, DefaultCheese, DefaultSize), own);
  }

  /** `self.meat = m` on a Pepperoni holding the base defaults. */
  lemma PepperoniMeatAssign(m: string)
    ensures Assign(Pepperoni, BaseDefaults, "meat", m) ==
      if m in ["pepperoni", "no meat"] then Success(BaseDefaults + [("_meat", m)])
      else Failure(ValueError("Meat must be pepperoni or no meat"))
  {
    assert Keys(BaseDefaults) == ["_sauce", "_cheese", "_size"];
    NewSlot(Pepperoni, BaseDefaults, "meat", m, "_meat", ["pepperoni", "no meat"],
            "Meat must be pepperoni or no meat");
  }

  lemma PepperoniInit(m: string)
    ensures Construct(PepperoniArgs(m)) ==
      if m in ["pepperoni", "no meat"] then Success(BaseDefaults + [("_meat", m)])
      else Failure(ValueError("Meat must be pepperoni or no meat"))
  {
    var own := [("meat", m)] + [];
    assert AssignAll(Pepperoni, BaseDefaults, own) == Assign(Pepperoni, BaseDefaults, "meat", m) by {
      PepperoniMeatAssign(m);
      AssignAllCons(Pepperoni, BaseDefaults, "meat", m, []);
    }
    PepperoniMeatAssign(m);
    VariantInit(PepperoniArgs(m), own);
  }

  /** `self.tomatoes = t` on a Margherita holding the base defaults. */
  lemma MargheritaTomatoesAssign(t: string)
    ensures Assign(Margherita, BaseDefaults, "tomatoes", t) ==
      if t in ["tomatoes", "no tomatoes"] then Success(BaseDefaults + [("_tomatoes", t)])
      else Failure(ValueError("Meat must be tomatoes or no tomatoes"))
  {
    assert Keys(BaseDefaults) == ["_sauce", "_cheese", "_size"];
    NewSlot(Margherita, BaseDefaults, "tomatoes", t, "_tomatoes", ["tomatoes", "no tomatoes"],
            "Meat must be tomatoes or no tomatoes");
  }

  lemma MargheritaInit(t: string)
    ensures Construct(MargheritaArgs(t)) ==
      if t in ["tomatoes", "no tomatoes"] then Success(BaseDefaults + [("_tomatoes", t)])
      else Failure(ValueError("Meat must be tomatoes or no tomatoes"))
  {
    var own := [("tomatoes", t)] + [];
    assert AssignAll(Margherita, BaseDefaults, own) == Assign(Margherita, BaseDefaults, "tomatoes", t) by {
      MargheritaTomatoesAssign(t);
      AssignAllCons(Margherita, BaseDefaults, "tomatoes", t, []);
    }
    MargheritaTomatoesAssign(t);
    VariantInit(MargheritaArgs(t), own);
  }

  /** Hawaiian's plain `meat` assignment after the base defaults. */
  lemma HawaiianMeatStep(m: string, rest: seq<(string, string)>)
    ensures AssignAll(Hawaiian, BaseDefaults, [("meat", m)] + rest) ==
      AssignAll(Hawaiian, BaseDefaults + [("meat", m)], rest)
  {
    assert Keys(BaseDefaults) == ["_sauce", "_cheese", "_size"];
    NewPlain(Hawaiian, BaseDefaults, "meat", m);
    AssignAllCons(Hawaiian, BaseDefaults, "meat", m, rest);
  }

  /** Hawaiian's `pineapple` assignment after `meat`. */
  lemma HawaiianPineappleAssign(m: string, p: string)
    ensures Assign(Hawaiian, BaseDefaults + [("meat", m)], "pineapple", p) ==
      if p in ["pineapples", "no pineapples"] then Success(BaseDefaults + [("meat", m), ("_pineapple", p)])
      else Failure(ValueError("Meat must be pineapples or no pineapples"))
  {
    var d1 := BaseDefaults + [("meat", m)];
    assert Keys(d1) == ["_sauce", "_cheese", "_size", "meat"];
    NewSlot(Hawaiian, d1, "pineapple", p, "_pineapple", ["pineapples", "no pineapples"],
            "Meat must be pineapples or no pineapples");
    assert d1 + [("_pineapple", p)] == BaseDefaults + [("meat", m), ("_pineapple", p)];
  }

  lemma HawaiianPineappleStep(m: string, p: string)
    ensures AssignAll(Hawaiian, BaseDefaults + [("meat", m)], [("pineapple", p)] + []) ==
      if p in ["pineapples", "no pineapples"] then Success(BaseDefaults + [("meat", m), ("_pineapple", p)])
      else Failure(ValueError("Meat must be pineapples or no pineapples"))
  {
    HawaiianPineappleAssign(m, p);
    AssignAllCons(Hawaiian, BaseDefaults + [("meat", m)], "pineapple", p, []);
  }

  lemma HawaiianInit(m: string, p: string)
    ensures Construct(HawaiianArgs(m, p)) ==
      if p in ["pineapples", "no pineapples"] then Success(BaseDefaults + [("meat", m), ("_pineapple", p)])
      else Failure(ValueError("Meat must be pineapples or no pineapples"))
  {
    HawaiianMeatStep(m, [("pineapple", p)] + []);
    HawaiianPineappleStep(m, p);
    VariantInit(HawaiianArgs(m, p), [("meat", m)] + ([("pineapple", p)] + []));
  }

  /** The keys and values of a dictionary built by appending to the base defaults. */
  lemma BaseDefaultsShape()
    ensures Keys(BaseDefaults) == ["_sauce", "_cheese", "_size"]
    ensures Values(BaseDefaults) == [DefaultSauce, DefaultCheese, DefaultSize]
  {
  }

  lemma BaseShape(s: string, c: string, z: string)
    requires Construct(BaseArgs(s, c, z)).Success?
    ensures Keys(Construct(BaseArgs(s, c, z)).value) == Layout(BasePizza)
    ensures Values(Construct(BaseArgs(s, c, z)).value) == [s, c, z]
  {
    var d1: AttrDict := [("_sauce", s)];
    var d2: AttrDict := d1 + [("_cheese", c)];
    assert Construct(BaseArgs(s, c, z)).value == d2 + [("_size", z)] by {
      BaseInit(BasePizza, s, c, z);
    }
    KeysValuesAppend(d1, ("_cheese", c));
    KeysValuesAppend(d2, ("_size", z));
  }

  lemma PepperoniShape(m: string)
    requires Construct(PepperoniArgs(m)).Success?
    ensures Keys(Construct(PepperoniArgs(m)).value) == Layout(Pepperoni)
    ensures Values(Construct(PepperoniArgs(m)).value) == [DefaultSauce, DefaultCheese, DefaultSize, m]
  {
    PepperoniInit(m);
    BaseDefaultsShape();
    KeysValuesAppend(BaseDefaults, ("_meat", m));
  }

  lemma MargheritaShape(t: string)
    requires Construct(MargheritaArgs(t)).Success?
    ensures Keys(Construct(MargheritaArgs(t)).value) == Layout(Margherita)
    ensures Values(Construct(MargheritaArgs(t)).value) == [DefaultSauce, DefaultCheese, DefaultSize, t]
  {
    MargheritaInit(t);
    BaseDefaultsShape();
    KeysValuesAppend(BaseDefaults, ("_tomatoes", t));
  }

  lemma HawaiianShape(m: string, p: string)
    requires Construct(HawaiianArgs(m, p)).Success?
    ensures Keys(Construct(HawaiianArgs(m, p)).value) == Layout(Hawaiian)
    ensures Values(Construct(HawaiianArgs(m, p)).value) == [DefaultSauce, DefaultCheese, DefaultSize, m, p]
  {
    HawaiianInit(m, p);
    BaseDefaultsShape();
    KeysValuesAppend(BaseDefaults, ("meat", m));
    KeysValuesAppend(BaseDefaults + [("meat", m)], ("_pineapple", p));
    assert BaseDefaults + [("meat", m), ("_pineapple", p)] == BaseDefaults + [("meat", m)] + [("_pineapple", p)];
  }

  /** A constructor assigns through public names only, never to a private slot. */
  lemma StepsArePublic(args: Args)
    ensures forall i :: 0 <= i < |args.Steps()| ==> !IsStorage(args.Variant(), args.Steps()[i].0)
  {
  }

  /** A successful constructor stores the base fields first, then the
      variant's, each exactly as passed, and leaves the invariant holding. */
  lemma ConstructedLayout(args: Args)
    requires Construct(args).Success?
    ensures Keys(Construct(args).value) == Layout(args.Variant())
    ensures Values(Construct(args).value) == args.FieldValues()
    ensures Guarded(args.Variant(), Construct(args).value)
  {
    StepsArePublic(args);
    AssignAllPreservesGuarded(args.Variant(), [], args.Steps());
    match args
    case BaseArgs(s, c, z) => BaseShape(s, c, z);
    case PepperoniArgs(m) => PepperoniShape(m);
    case MargheritaArgs(t) => MargheritaShape(t);
    case HawaiianArgs(m, p) => HawaiianShape(m, p);
  }

  // ---------------------------------------------------------------------------
  // Rendering.

  /** `BasePizza.dict(emoji)`: the label, then every stored value in insertion order. */
  function Render(d: AttrDict, emoji: string): (r: string)
    ensures |emoji| + 8 <= |r| && r[..|emoji| + 8] == "Pizza " + emoji + ": "
    ensures |d| == 0 ==> r == "Pizza " + emoji + ": "
    ensures |d| > 0 ==> |r| + 2 == |emoji| + 8 + TotalLength(Values(d)) + 2 * |d|
  {
    "Pizza " + emoji + ": " + Join(Values(d), ", ")
  }

  /** The label each variant's `dict` uses when called without one; BasePizza has none. */
  function DefaultSignature(v: Variant): string
    requires v != BasePizza
  {
    match v
    case Pepperoni => "Pepperoni:pizza:"
    case Margherita => "Margherita:tomato:"
    case Hawaiian => "Hawaiian:pineapple:"
  }

  /** A freshly built pizza shows the base fields first, then the variant's,
      each as passed to the constructor. */
  lemma RenderConstructed(args: Args, emoji: string)
    requires Construct(args).Success?
    ensures Render(Construct(args).value, emoji) == "Pizza " + emoji + ": " + Join(args.FieldValues(), ", ")
  {
    ConstructedLayout(args);
  }

  /** Changing a field whose slot exists keeps the order of the rendering and
      replaces just that field's value. */
  lemma RenderAfterAssign(v: Variant, d: AttrDict, name: string, value: string, emoji: string)
    requires DistinctKeys(d) && PropertyOf(v, name).Some? && "_" + name in Keys(d)
    requires Assign(v, d, name, value).Success?
    ensures Render(Assign(v, d, name, value).value, emoji) ==
      "Pizza " + emoji + ": " +
      Join(seq(|d|, i requires 0 <= i < |d| => if d[i].0 == "_" + name then value else d[i].1), ", ")
  {
    AssignKeepsLayout(v, d, name, value);
    assert Values(Assign(v, d, name, value).value) ==
      seq(|d|, i requires 0 <= i < |d| => if d[i].0 == "_" + name then value else d[i].1);
  }

  /** A plain write of a new attribute, such as `pep.extra = "x"`, adds its
      value after all the others, one separator after the last. */
  lemma RenderAppend(d: AttrDict, e: (string, string), emoji: string)
    ensures Render(d + [e], emoji) ==
      (if |d| == 0 then "Pizza " + emoji + ": " else Render(d, emoji) + ", ") + e.1
  {
    KeysValuesAppend(d, e);
    if |d| > 0 {
      JoinAppend(Values(d), e.1, ", ");
    } else {
      assert Values(d + [e]) == [e.1];
    }
  }

  /** `obj.name = value` for a name that is no property and not yet stored
      shows the new value last. */
  lemma RenderAfterNewAttribute(v: Variant, d: AttrDict, name: string, value: string, emoji: string)
    requires PropertyOf(v, name).None? && name !in Keys(d)
    ensures Assign(v, d, name, value).Success?
    ensures Render(Assign(v, d, name, value).value, emoji) ==
      (if |d| == 0 then "Pizza " + emoji + ": " else Render(d, emoji) + ", ") + value
  {
    StoreAppends(d, name, value);
    RenderAppend(d, (name, value), emoji);
  }

  /** The four fields of a default Pepperoni, joined. */
  lemma PepperoniFieldsJoin()
    ensures Join(["tomato sauce", "mozzarella", "L", "pepperoni"], ", ") == "tomato sauce, mozzarella, L, pepperoni"
  {
    JoinCons("L", ["pepperoni"], ", ");
    JoinCons("mozzarella", ["L", "pepperoni"], ", ");
    JoinCons("tomato sauce", ["mozzarella", "L", "pepperoni"], ", ");
  }

  /** The four fields of a default Margherita, joined. */
  lemma MargheritaFieldsJoin()
    ensures Join(["tomato sauce", "mozzarella", "L", "tomatoes"], ", ") == "tomato sauce, mozzarella, L, tomatoes"
  {
    JoinCons("L", ["tomatoes"], ", ");
    JoinCons("mozzarella", ["L", "tomatoes"], ", ");
    JoinCons("tomato sauce", ["mozzarella", "L", "tomatoes"], ", ");
  }

  /** The last three fields of a default Hawaiian, joined. */
  lemma HawaiianTailJoin()
    ensures Join(["L", "chicken", "pineapples"], ", ") == "L, chicken, pineapples"
  {
    JoinCons("chicken", ["pineapples"], ", ");
    JoinCons("L", ["chicken", "pineapples"], ", ");
  }

  /** The cheese in front of the last three fields. */
  lemma HawaiianToppingsText()
    ensures "mozzarella" + ", " + "L, chicken, pineapples" == "mozzarella, L, chicken, pineapples"
  {
  }

  /** The last four fields of a default Hawaiian, joined. */
  lemma HawaiianToppingsJoin()
    ensures Join(["mozzarella", "L", "chicken", "pineapples"], ", ") == "mozzarella, L, chicken, pineapples"
  {
    HawaiianTailJoin();
    JoinCons("mozzarella", ["L", "chicken", "pineapples"], ", ");
    HawaiianToppingsText();
  }

  /** The sauce in front of the other four fields. */
  lemma HawaiianFieldsText()
    ensures "tomato sauce" + ", " + "mozzarella, L, chicken, pineapples" == "tomato sauce, mozzarella, L, chicken, pineapples"
  {
  }

  /** The five fields of a default Hawaiian, joined. */
  lemma HawaiianFieldsJoin()
    ensures Join(["tomato sauce", "mozzarella", "L", "chicken", "pineapples"], ", ") == "tomato sauce, mozzarella, L, chicken, pineapples"
  {
    HawaiianToppingsJoin();
    JoinCons("tomato sauce", ["mozzarella", "L", "chicken", "pineapples"], ", ");
    HawaiianFieldsText();
  }

  /** A default Pepperoni, as `Pepperoni()` leaves it, shows its four defaults. */
  lemma DefaultPepperoniRender(d: AttrDict, emoji: string)
    requires Construct(PepperoniArgs("pepperoni")) == Success(d)
    ensures Keys(d) == Layout(Pepperoni)
    ensures Render(d, emoji) == "Pizza " + emoji + ": " + "tomato sauce, mozzarella, L, pepperoni"
  {
    ConstructedLayout(PepperoniArgs("pepperoni"));
    assert Values(d) == ["tomato sauce", "mozzarella", "L", "pepperoni"];
    PepperoniFieldsJoin();
  }

  /** A default Margherita shows its four defaults. */
  lemma DefaultMargheritaRender(d: AttrDict, emoji: string)
    requires Construct(MargheritaArgs("tomatoes")) == Success(d)
    ensures Keys(d) == Layout(Margherita)
    ensures Render(d, emoji) == "Pizza " + emoji + ": " + "tomato sauce, mozzarella, L, tomatoes"
  {
    ConstructedLayout(MargheritaArgs("tomatoes"));
    assert Values(d) == ["tomato sauce", "mozzarella", "L", "tomatoes"];
    MargheritaFieldsJoin();
  }

  /** A default Hawaiian shows its five defaults, the unchecked meat among them. */
  lemma DefaultHawaiianRender(d: AttrDict, emoji: string)
    requires Construct(HawaiianArgs("chicken", "pineapples")) == Success(d)
    ensures Keys(d) == Layout(Hawaiian)
    ensures Render(d, emoji) == "Pizza " + emoji + ": " + "tomato sauce, mozzarella, L, chicken, pineapples"
  {
    ConstructedLayout(HawaiianArgs("chicken", "pineapples"));
    assert Values(d) == ["tomato sauce", "mozzarella", "L", "chicken", "pineapples"];
    HawaiianFieldsJoin();
  }

  // ---------------------------------------------------------------------------
  // Equality.

  lemma LayoutDistinct(v: Variant, d: AttrDict)
    requires Keys(d) == Layout(v)
    ensures DistinctKeys(d)
  {
    forall i, j | 0 <= i < j < |d| ensures d[i].0 != d[j].0 {
      assert d[i].0 == Layout(v)[i] && d[j].0 == Layout(v)[j];
    }
  }

  /** Two objects of one class, as laid out by their constructor, are equal
      exactly when every field holds the same value. */
  lemma EqualIffSameFields(v: Variant, a: AttrDict, b: AttrDict)
    requires Keys(a) == Layout(v) && Keys(b) == Layout(v)
    ensures SameItems(a, b) <==> Values(a) == Values(b)
  {
    LayoutDistinct(v, a);
    SameLayoutEquality(a, b);
  }

  /** Outside the constructors' layouts the classes no longer separate the
      dictionaries: a default Pepperoni given `_tomatoes` and a default
      Margherita given `_meat` hold the same items. */
  lemma CrossWritesMatch()
    ensures SameItems(PepperoniPrototype + [("_tomatoes", "tomatoes")], MargheritaPrototype + [("_meat", "pepperoni")])
  {
    assert Keys(BaseDefaults) == ["_sauce", "_cheese", "_size"];
    WriteOrderForgotten(BaseDefaults, ("_meat", "pepperoni"), ("_tomatoes", "tomatoes"));
  }

  /** Objects of two different classes store different keys, so they are never equal. */
  lemma VariantsNeverEqual(v: Variant, w: Variant, a: AttrDict, b: AttrDict)
    requires v != w && Keys(a) == Layout(v) && Keys(b) == Layout(w)
    ensures !SameItems(a, b)
  {
    if v == BasePizza {
      assert Keys(b)[3] in Keys(b);
      DifferentKeysUnequal(b, a, Keys(b)[3]);
    } else if w == BasePizza {
      assert Keys(a)[3] in Keys(a);
      DifferentKeysUnequal(a, b, Keys(a)[3]);
    } else {
      var k := match v case Pepperoni => "_meat" case Margherita => "_tomatoes" case _ => "_pineapple";
      assert k in Keys(a);
      DifferentKeysUnequal(a, b, k);
    }
  }

  /** Changing a stored value on one of two equal objects makes them unequal. */
  lemma ChangeBreaksEquality(v: Variant, a: AttrDict, b: AttrDict, name: string, value: string)
    requires SameItems(a, b) && Assign(v, a, name, value).Success?
    requires Lookup(v, a, name) != Some(value)
    ensures !SameItems(Assign(v, a, name, value).value, b)
  {
    ReadAfterWrite(v, a, name, value, name);
  }

  // ---------------------------------------------------------------------------
  // Objects.

  class Pizza {
    const variant: Variant
    var attributes: AttrDict

    ghost predicate Valid()
      reads this
    {
      Guarded(variant, attributes)
    }

    /** A new object before `__init__` runs: its dictionary is empty. */
    constructor Blank(v: Variant)
      ensures variant == v && attributes == [] && Valid()
    {
      variant := v;
      attributes := [];
    }

    /** `self.name = value`, through the property setter where the class has one. */
    method SetAttribute(name: string, value: string) returns (o: Outcome)
      requires Valid() && !IsStorage(variant, name)
      modifies this
      ensures Valid()
      ensures Assign(variant, old(attributes), name, value).Success? ==>
        o == Pass && attributes == Assign(variant, old(attributes), name, value).value
      ensures Assign(variant, old(attributes), name, value).Failure? ==>
        o == Fail(Assign(variant, old(attributes), name, value).error) && attributes == old(attributes)
    {
      match PropertyOf(variant, name)
      case None =>
        AssignPreservesGuarded(variant, attributes, name, value);
        attributes := Store(attributes, name, value);
        o := Pass;
      case Some(p) =>
        if value !in p.allowed {
          return Fail(ValueError(p.message));
        }
        AssignPreservesGuarded(variant, attributes, name, value);
        attributes := Store(attributes, "_" + name, value);
        o := Pass;
    }

    /** `BasePizza.__init__(self, sauce, cheese, size)`: three setter calls;
        the first that raises ends it. */
    method InitBase(sauce: string, cheese: string, size: string) returns (o: Outcome)
      requires Valid() && attributes == []
      modifies this
      ensures Valid()
      ensures AssignAll(variant, old(attributes), BaseSteps(sauce, cheese, size)).Success? ==>
        o == Pass && attributes == AssignAll(variant, old(attributes), BaseSteps(sauce, cheese, size)).value
      ensures AssignAll(variant, old(attributes), BaseSteps(sauce, cheese, size)).Failure? ==>
        o == Fail(AssignAll(variant, old(attributes), BaseSteps(sauce, cheese, size)).error)
      // The slots stored before the setter that raised stay behind.
      ensures o.Fail? ==> (attributes ==
        if !Accepts(variant, "sauce", sauce) then []
        else if !Accepts(variant, "cheese", cheese) then [("_sauce", sauce)]
        else [("_sauce", sauce), ("_cheese", cheese)])
    {
      ghost var d0 := attributes;
      assert BaseSteps(sauce, cheese, size) == [("sauce", sauce)] + ([("cheese", cheese)] + ([("size", size)] + []));
      AssignAllCons(variant, d0, "sauce", sauce, [("cheese", cheese)] + ([("size", size)] + []));
      o := SetAttribute("sauce", sauce);
      if o.Fail? {
        return;
      }
      ghost var d1 := attributes;
      assert d1 == [("_sauce", sauce)] by {
        assert "_" + "sauce" == "_sauce";
      }
      AssignAllCons(variant, d1, "cheese", cheese, [("size", size)] + []);
      o := SetAttribute("cheese", cheese);
      if o.Fail? {
        return;
      }
      ghost var d2 := attributes;
      assert d2 == [("_sauce", sauce), ("_cheese", cheese)] by {
        assert "_" + "cheese" == "_cheese" && "_sauce" != "_cheese";
        assert Store(d1, "_cheese", cheese) == [d1[0]] + Store([], "_cheese", cheese);
      }
      AssignAllCons(variant, d2, "size", size, []);
      o := SetAttribute("size", size);
    }

    /** `Pepperoni.__init__(self, meat)`: the base defaults, then the meat setter. */
    method InitPepperoni(meat: string) returns (o: Outcome)
      requires variant == Pepperoni && attributes == []
      modifies this
      ensures Valid()
      ensures Construct(PepperoniArgs(meat)).Success? ==>
        o == Pass && attributes == Construct(PepperoniArgs(meat)).value
      ensures Construct(PepperoniArgs(meat)).Failure? ==> o == Fail(Construct(PepperoniArgs(meat)).error)
    {
      o := InitBase(DefaultSauce, DefaultCheese, DefaultSize);
      BaseDefaultsInit(Pepperoni);
      PepperoniMeatAssign(meat);
      o := SetAttribute("meat", meat);
      PepperoniInit(meat);
    }

    /** `Margherita.__init__(self, tomatoes)`: the base defaults, then the tomatoes setter. */
    method InitMargherita(tomatoes: string) returns (o: Outcome)
      requires variant == Margherita && attributes == []
      modifies this
      ensures Valid()
      ensures Construct(MargheritaArgs(tomatoes)).Success? ==>
        o == Pass && attributes == Construct(MargheritaArgs(tomatoes)).value
      ensures Construct(MargheritaArgs(tomatoes)).Failure? ==> o == Fail(Construct(MargheritaArgs(tomatoes)).error)
    {
      o := InitBase(DefaultSauce, DefaultCheese, DefaultSize);
      BaseDefaultsInit(Margherita);
      MargheritaTomatoesAssign(tomatoes);
      o := SetAttribute("tomatoes", tomatoes);
      MargheritaInit(tomatoes);
    }

    /** `Hawaiian.__init__(self, meat, pineapple)`: the base defaults, a plain
        `meat` attribute, then the pineapple setter. */
    method InitHawaiian(meat: string, pineapple: string) returns (o: Outcome)
      requires variant == Hawaiian && attributes == []
      modifies this
      ensures Valid()
      ensures Construct(HawaiianArgs(meat, pineapple)).Success? ==>
        o == Pass && attributes == Construct(HawaiianArgs(meat, pineapple)).value
      ensures Construct(HawaiianArgs(meat, pineapple)).Failure? ==>
        o == Fail(Construct(HawaiianArgs(meat, pineapple)).error)
    {
      o := InitBase(DefaultSauce, DefaultCheese, DefaultSize);
      BaseDefaultsInit(Hawaiian);
      HawaiianMeatAssign(meat);
      o := SetAttribute("meat", meat);
      HawaiianPineappleAssign(meat, pineapple);
      o := SetAttribute("pineapple", pineapple);
      HawaiianInit(meat, pineapple);
    }

    /** `self.name`. */
    function Get(name: string): (r: Option<string>)
      reads this
      ensures r.Some? <==> StorageKey(variant, name) in Keys(attributes)
      ensures Valid() && PropertyOf(variant, name).Some? && r.Some? ==>
        r.value in PropertyOf(variant, name).value.allowed
    {
      Lookup(variant, attributes, name)
    }

    /** `self.dict(signature)`: a BasePizza shows its argument as it is; each
        variant first passes it through `emojize`. */
    function Dict(emojize: string -> string, signature: string): (r: string)
      reads this
      ensures variant == BasePizza ==>
        |signature| + 8 <= |r| && r[..|signature| + 8] == "Pizza " + signature + ": "
      ensures variant != BasePizza ==>
        |emojize(signature)| + 8 <= |r| && r[..|emojize(signature)| + 8] == "Pizza " + emojize(signature) + ": "
    {
      Render(attributes, if variant == BasePizza then signature else emojize(signature))
    }

    /** `self == other`. Each variant's `__eq__` compares instance dictionaries.
        BasePizza defines none, so two BasePizza objects are equal only when they
        are the same object; a comparison with a variant on either side uses that
        variant's `__eq__`. */
    function Equals(other: Pizza): (r: bool)
      reads this, other
      ensures this == other ==> r
      ensures r ==> SameItems(attributes, other.attributes)
      ensures ((variant != BasePizza || other.variant != BasePizza) &&
               SameItems(attributes, other.attributes)) ==> r
    {
      if variant == BasePizza && other.variant == BasePizza then this == other
      else SameItems(attributes, other.attributes)
    }
  }

  /** `a == b` on two pizzas of one variant laid out as their constructor lays
      them out: equal exactly when every field holds the same value. */
  lemma EqualsIffSameFields(a: Pizza, b: Pizza)
    requires a.variant == b.variant && a.variant != BasePizza
    requires Keys(a.attributes) == Layout(a.variant) && Keys(b.attributes) == Layout(b.variant)
    ensures a.Equals(b) <==> Values(a.attributes) == Values(b.attributes)
  {
    EqualIffSameFields(a.variant, a.attributes, b.attributes);
  }

  /** Pizzas of two different classes are unequal, whichever side is compared. */
  lemma EqualsAcrossVariants(a: Pizza, b: Pizza)
    requires a.variant != b.variant
    requires Keys(a.attributes) == Layout(a.variant) && Keys(b.attributes) == Layout(b.variant)
    ensures !a.Equals(b) && !b.Equals(a)
  {
    VariantsNeverEqual(a.variant, b.variant, a.attributes, b.attributes);
    VariantsNeverEqual(b.variant, a.variant, b.attributes, a.attributes);
  }

  /** `a == b` and `b == a` always agree, whichever class defines the `__eq__` used. */
  lemma EqualsSymmetric(a: Pizza, b: Pizza)
    ensures a.Equals(b) <==> b.Equals(a)
  {
  }

  /** Two BasePizza objects are equal only when they are the same object,
      whatever their fields hold. */
  lemma BaseEqualityIsIdentity(a: Pizza, b: Pizza)
    requires a.variant == BasePizza && b.variant == BasePizza
    ensures a.Equals(b) <==> a == b
  {
  }

  /** `r` is what the constructor called with `args` produces. */
  ghost predicate Builds(r: Result<Pizza>, args: Args)
    reads if r.Success? then {r.value} else {}
  {
    match Construct(args)
    case Success(d) => r.Success? && r.value.variant == args.Variant() && r.value.attributes == d
    case Failure(e) => r == Failure(e)
  }

  /** `BasePizza(sauce, cheese, size)`. */
  method NewBasePizza(sauce: string := DefaultSauce, cheese: string := DefaultCheese, size: string := DefaultSize)
    returns (r: Result<Pizza>)
    ensures Builds(r, BaseArgs(sauce, cheese, size))
    ensures r.Success? ==> fresh(r.value) && r.value.Valid()
  {
    var p := new Pizza.Blank(BasePizza);
    var o := p.InitBase(sauce, cheese, size);
    if o.Fail? {
      return Failure(o.error);
    }
    return Success(p);
  }

  /** `Pepperoni(meat)`. */
  method NewPepperoni(meat: string := "pepperoni") returns (r: Result<Pizza>)
    ensures Builds(r, PepperoniArgs(meat))
    ensures r.Success? ==> fresh(r.value) && r.value.Valid()
  {
    var p := new Pizza.Blank(Pepperoni);
    var o := p.InitPepperoni(meat);
    if o.Fail? {
      return Failure(o.error);
    }
    return Success(p);
  }

  /** `Margherita(tomatoes)`. */
  method NewMargherita(tomatoes: string := "tomatoes") returns (r: Result<Pizza>)
    ensures Builds(r, MargheritaArgs(tomatoes))
    ensures r.Success? ==> fresh(r.value) && r.value.Valid()
  {
    var p := new Pizza.Blank(Margherita);
    var o := p.InitMargherita(tomatoes);
    if o.Fail? {
      return Failure(o.error);
    }
    return Success(p);
  }

  /** `Hawaiian(meat, pineapple)`. */
  method NewHawaiian(meat: string := "chicken", pineapple: string := "pineapples") returns (r: Result<Pizza>)
    ensures Builds(r, HawaiianArgs(meat, pineapple))
    ensures r.Success? ==> fresh(r.value) && r.value.Valid()
  {
    var p := new Pizza.Blank(Hawaiian);
    var o := p.InitHawaiian(meat, pineapple);
    if o.Fail? {
      return Failure(o.error);
    }
    return Success(p);
  }

  /** The dictionaries of a default Margherita, Pepperoni and Hawaiian. */
  const MargheritaPrototype: AttrDict := BaseDefaults + [("_tomatoes", "tomatoes")]
  const PepperoniPrototype: AttrDict := BaseDefaults + [("_meat", "pepperoni")]
  const HawaiianPrototype: AttrDict := BaseDefaults + [("meat", "chicken"), ("_pineapple", "pineapples")]

  /** `Margherita()` succeeds and holds the default dictionary. */
  lemma MargheritaBuilt(r: Result<Pizza>)
    requires Builds(r, MargheritaArgs("tomatoes"))
    ensures r.Success? && r.value.variant == Margherita && r.value.attributes == MargheritaPrototype
  {
    MargheritaInit("tomatoes");
  }

  /** `Pepperoni()` succeeds and holds the default dictionary. */
  lemma PepperoniBuilt(r: Result<Pizza>)
    requires Builds(r, PepperoniArgs("pepperoni"))
    ensures r.Success? && r.value.variant == Pepperoni && r.value.attributes == PepperoniPrototype
  {
    PepperoniInit("pepperoni");
  }

  /** `Hawaiian()` succeeds and holds the default dictionary. */
  lemma HawaiianBuilt(r: Result<Pizza>)
    requires Builds(r, HawaiianArgs("chicken", "pineapples"))
    ensures r.Success? && r.value.variant == Hawaiian && r.value.attributes == HawaiianPrototype
  {
    HawaiianInit("chicken", "pineapples");
  }
}
