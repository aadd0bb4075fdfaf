/** The four tests at the end of pizza.py, written as clients of the model:
    each builds the objects the test builds and promises what the test asserts. */
module Scenarios {
  import opened Builtins
  import opened Pizzas

  /** The emoji table maps the Pepperoni label to "Pepperoni" and a slice of pizza. */
  predicate PizzaEmoji(emojize: string -> string) {
    emojize("Pepperoni:pizza:") == "Pepperoni\U{1F355}"
  }

  /** `Pepperoni()` with every default: a new object holding the default dictionary. */
  method FreshPepperoni() returns (p: Pizza)
    ensures fresh(p) && p.Valid()
    ensures p.variant == Pepperoni && p.attributes == PepperoniPrototype
  {
    var r := NewPepperoni();
    PepperoniBuilt(r);
    p := r.value;
  }

  /** `Margherita()` with every default. */
  method FreshMargherita() returns (p: Pizza)
    ensures fresh(p) && p.Valid()
    ensures p.variant == Margherita && p.attributes == MargheritaPrototype
  {
    var r := NewMargherita();
    MargheritaBuilt(r);
    p := r.value;
  }

  /** The same with the cheese switched off. */
  lemma NoCheeseFieldsJoin()
    ensures Join(["tomato sauce", "no cheese", "L", "pepperoni"], ", ") == "tomato sauce, no cheese, L, pepperoni"
  {
    JoinCons("L", ["pepperoni"], ", ");
    JoinCons("no cheese", ["L", "pepperoni"], ", ");
    JoinCons("tomato sauce", ["no cheese", "L", "pepperoni"], ", ");
  }

  /** `pep.cheese = "no cheese"` on a default Pepperoni overwrites the cheese in place. */
  lemma NoCheeseDict(m: string)
    ensures Assign(Pepperoni, BaseDefaults + [("_meat", m)], "cheese", "no cheese") ==
      Success([("_sauce", "tomato sauce"), ("_cheese", "no cheese"), ("_size", "L"), ("_meat", m)])
  {
    var d := BaseDefaults + [("_meat", m)];
    assert "_" + "cheese" == "_cheese";
    assert Assign(Pepperoni, d, "cheese", "no cheese") == Success(Store(d, "_cheese", "no cheese"));
    assert d[0].0 != "_cheese" && d[1].0 == "_cheese";
    assert Store(d, "_cheese", "no cheese") == [d[0]] + Store(d[1..], "_cheese", "no cheese");
    assert Store(d[1..], "_cheese", "no cheese") == [("_cheese", "no cheese")] + d[1..][1..];
    assert d[1..][1..] == [("_size", "L"), ("_meat", m)];
    assert d[0] == ("_sauce", "tomato sauce");
    assert [d[0]] + ([("_cheese", "no cheese")] + d[1..][1..]) ==
      [("_sauce", "tomato sauce"), ("_cheese", "no cheese"), ("_size", "L"), ("_meat", m)];
  }

  /** The same after `pep.cheese = "no cheese"`. */
  lemma NoCheeseRender(emoji: string)
    ensures Assign(Pepperoni, PepperoniPrototype, "cheese", "no cheese").Success?
    ensures Render(Assign(Pepperoni, PepperoniPrototype, "cheese", "no cheese").value, emoji) ==
      "Pizza " + emoji + ": " + "tomato sauce, no cheese, L, pepperoni"
  {
    NoCheeseDict("pepperoni");
    var d': AttrDict := [("_sauce", "tomato sauce"), ("_cheese", "no cheese"), ("_size", "L"), ("_meat", "pepperoni")];
    assert Values(d') == ["tomato sauce", "no cheese", "L", "pepperoni"] by {
      var w := ["tomato sauce", "no cheese", "L", "pepperoni"];
      assert |Values(d')| == |w|;
      assert forall i :: 0 <= i < |w| ==> Values(d')[i] == d'[i].1 == w[i];
    }
    NoCheeseFieldsJoin();
  }

  /** `test_output`: a default Pepperoni renders its four defaults in order. */
  method TestOutput(emojize: string -> string) returns (text: string)
    requires PizzaEmoji(emojize)
    ensures text == "Pizza " + "Pepperoni\U{1F355}" + ": " + "tomato sauce, mozzarella, L, pepperoni"
  {
    var pep := FreshPepperoni();
    text := pep.Dict(emojize, DefaultSignature(Pepperoni));
    PepperoniInit("pepperoni");
    DefaultPepperoniRender(pep.attributes, "Pepperoni\U{1F355}");
  }

  /** `test_changes`: switching the cheese off changes that one field of the rendering. */
  method TestChanges(emojize: string -> string) returns (text: string)
    requires PizzaEmoji(emojize)
    ensures text == "Pizza " + "Pepperoni\U{1F355}" + ": " + "tomato sauce, no cheese, L, pepperoni"
  {
    var pep := FreshPepperoni();
    NoCheeseRender("Pepperoni\U{1F355}");
    var o := pep.SetAttribute("cheese", "no cheese");
    text := pep.Dict(emojize, DefaultSignature(Pepperoni));
  }

  /** `test_exception`: a size outside the list raises ValueError and leaves the pizza as it was. */
  method TestException() returns (o: Outcome, kept: bool)
    ensures o == Fail(ValueError("Size must be L or XL"))
    ensures kept
  {
    var pep := FreshPepperoni();
    var before := pep.attributes;
    SizeDomain(Pepperoni, before, "S");
    o := pep.SetAttribute("size", "S");
    kept := pep.attributes == before;
  }

  /** `pepp.size = "XL"` on one of two default Pepperonis makes them unequal. */
  lemma ResizedUnequal()
    ensures Assign(Pepperoni, PepperoniPrototype, "size", "XL").Success?
    ensures !SameItems(Assign(Pepperoni, PepperoniPrototype, "size", "XL").value, PepperoniPrototype)
  {
    var d := PepperoniPrototype;
    SizeDomain(Pepperoni, d, "XL");
    assert Lookup(Pepperoni, d, "size") == Some("L") by {
      assert Keys(d) == Layout(Pepperoni);
      LayoutDistinct(Pepperoni, d);
      assert d[2] == ("_size", "L");
      FindEntry(d, 2);
      assert StorageKey(Pepperoni, "size") == "_size";
    }
    ChangeBreaksEquality(Pepperoni, d, d, "size", "XL");
  }

  /** A default Margherita is never equal to a default Pepperoni. */
  lemma MargheritaIsNotPepperoni()
    ensures !SameItems(MargheritaPrototype, PepperoniPrototype)
  {
    assert Keys(MargheritaPrototype)[3] == "_tomatoes";
    assert Keys(PepperoniPrototype) == ["_sauce", "_cheese", "_size", "_meat"];
    DifferentKeysUnequal(MargheritaPrototype, PepperoniPrototype, "_tomatoes");
  }

  /** `test_eq`: equal defaults compare equal, a changed size or another class does not. */
  method TestEq() returns (pepEqPepp: bool, pepeEqPep: bool, pepesEqPepe: bool, pepesEqPep: bool)
    ensures !pepEqPepp && pepeEqPep && !pepesEqPepe && !pepesEqPep
  {
    var pep := FreshPepperoni();
    var pepp := FreshPepperoni();
    ResizedUnequal();
    var o := pepp.SetAttribute("size", "XL");
    var pepe := FreshPepperoni();
    var pepes := FreshMargherita();
    MargheritaIsNotPepperoni();
    pepEqPepp := pep.Equals(pepp);
    pepeEqPep := pepe.Equals(pep);
    pepesEqPepe := pepes.Equals(pepe);
    pepesEqPep := pepes.Equals(pep);
  }
}
