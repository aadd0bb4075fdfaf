/** The shop layer of pizza.py: the `log` timing decorator, the three actions it
    wraps, the `MENU` of prototypes, and the `order` and `menu` commands.
    Console output and the calls of the wrapped functions are recorded, in order,
    as a trace of events. */
module Shop {
  import opened Builtins
  import opened Pizzas

  /** The three functions decorated with `log`: `bake`, `if_delivery` and `pickup`. */
  datatype Action = Bake | IfDelivery | Pickup

  /** The template each action's `log(...)` decorator is given. */
  function Comment(a: Action): string {
    match a
    case Bake => "Cooked in {}s"
    case IfDelivery => "Delivered in {}s"
    case Pickup => "Picked up in {}s"
  }

  /** What the program does that can be observed: a call of a wrapped function
      with its argument, the timing line `log` prints (kept as its template),
      and any other printed text. */
  datatype Event = Called(action: Action, pizza: Pizza) | Logged(comment: string) | Printed(text: string)

  /** The events of one call of `a`'s `log` wrapper on `p`: the wrapped
      function runs, the timing line is printed, the wrapped function runs again. */
  function TimedEvents(a: Action, p: Pizza): (r: seq<Event>)
    ensures |r| == 3 && r[0].Called? && r[|r| - 1].Called?
    ensures r[1] == Logged(Comment(a))
    ensures forall i :: 0 <= i < |r| ==> !r[i].Printed? && (r[i].Called? ==> r[i] == Called(a, p))
  {
    [Called(a, p), Logged(Comment(a)), Called(a, p)]
  }

  /** The calls in a trace. */
  function Calls(t: seq<Event>): (r: seq<Event>)
    ensures forall i :: 0 <= i < |r| ==> r[i] in t && r[i].Called?
    ensures forall i :: 0 <= i < |t| && t[i].Called? ==> t[i] in r
    ensures |r| <= |t|
  {
    if t == [] then []
    else (if t[0].Called? then [t[0]] else []) + Calls(t[1..])
  }

  /** The printed timing lines in a trace. */
  function Logs(t: seq<Event>): (r: seq<Event>)
    ensures forall i :: 0 <= i < |r| ==> r[i] in t && r[i].Logged?
    ensures forall i :: 0 <= i < |t| && t[i].Logged? ==> t[i] in r
    ensures |r| <= |t|
  {
    if t == [] then []
    else (if t[0].Logged? then [t[0]] else []) + Logs(t[1..])
  }

  /** The wrapper calls the wrapped function exactly twice, with the same
      argument, and prints exactly one line, its own template, between them. */
  lemma TimedCallsTwice(a: Action, p: Pizza)
    ensures Calls(TimedEvents(a, p)) == [Called(a, p), Called(a, p)]
    ensures Logs(TimedEvents(a, p)) == [Logged(Comment(a))]
    ensures TimedEvents(a, p)[1] == Logged(Comment(a))
    ensures forall i :: 0 <= i < |TimedEvents(a, p)| && TimedEvents(a, p)[i].Called? ==> i != 1
  {
    var t := TimedEvents(a, p);
    assert t[1..] == [Logged(Comment(a)), Called(a, p)];
    assert t[1..][1..] == [Called(a, p)];
    assert t[1..][1..][1..] == [];
    assert Calls(t[1..][1..]) == [Called(a, p)] && Logs(t[1..][1..]) == [];
    assert Calls(t[1..]) == [Called(a, p)] && Logs(t[1..]) == [Logged(Comment(a))];
  }

  /** `MENU[name]`, with None for a name the menu does not hold. */
  function FindPizza(entries: seq<(string, Pizza)>, name: string): (r: Option<Pizza>)
    ensures r.None? <==> forall i :: 0 <= i < |entries| ==> entries[i].0 != name
    ensures r.Some? ==> exists i :: 0 <= i < |entries| && entries[i] == (name, r.value)
  {
    if entries == [] then None
    else if entries[0].0 == name then Some(entries[0].1)
    else
      var r := FindPizza(entries[1..], name);
      assert r.Some? ==> exists i :: 0 <= i < |entries| && entries[i] == (name, r.value) by {
        if r.Some? {
          var i :| 0 <= i < |entries[1..]| && entries[1..][i] == (name, r.value);
          assert entries[i + 1] == (name, r.value);
        }
      }
      r
  }

  /** Which wrapped action `order` uses. */
  function Dispatch(delivery: bool): Action {
    if delivery then IfDelivery else Pickup
  }

  /** The message `order` raises for a name that is not on the menu. */
  const UnknownPizza := "We have not learned that pizza yet"

  /** `order(name, delivery)`, as the events it produces or the error it raises. */
  function OrderEvents(entries: seq<(string, Pizza)>, name: string, delivery: bool): (r: Result<seq<Event>>)
    ensures r.Failure? ==> r.error == KeyError(UnknownPizza)
    ensures r.Success? ==> exists i :: (0 <= i < |entries| && entries[i].0 == name &&
      r.value == TimedEvents(Dispatch(delivery), entries[i].1))
  {
    match FindPizza(entries, name)
    case None => Failure(KeyError(UnknownPizza))
    case Some(p) => Success(TimedEvents(Dispatch(delivery), p))
  }

  /** An order fails, with that KeyError, exactly when the name is not on the menu. */
  lemma OrderFailsIffUnknown(entries: seq<(string, Pizza)>, name: string, delivery: bool)
    ensures OrderEvents(entries, name, delivery).Failure? <==>
      forall i :: 0 <= i < |entries| ==> entries[i].0 != name
    ensures OrderEvents(entries, name, delivery).Failure? ==>
      OrderEvents(entries, name, delivery).error == KeyError(UnknownPizza)
  {
  }

  /** A successful order runs only the chosen action, twice, on the pizza the
      menu holds under that name, with one timing line between the two runs. */
  lemma OrderRunsChosenAction(entries: seq<(string, Pizza)>, name: string, delivery: bool)
    requires OrderEvents(entries, name, delivery).Success?
    ensures exists i :: (0 <= i < |entries| && entries[i].0 == name &&
      Calls(OrderEvents(entries, name, delivery).value) ==
        [Called(Dispatch(delivery), entries[i].1), Called(Dispatch(delivery), entries[i].1)])
    ensures Logs(OrderEvents(entries, name, delivery).value) == [Logged(Comment(Dispatch(delivery)))]
  {
    var p := FindPizza(entries, name).value;
    TimedCallsTwice(Dispatch(delivery), p);
    var i :| 0 <= i < |entries| && entries[i] == (name, p);
    assert entries[i].0 == name;
  }

  /** `bake` is never run by an order, and a delivery never also picks up, nor the reverse. */
  lemma OrderNeverBakes(entries: seq<(string, Pizza)>, name: string, delivery: bool)
    requires OrderEvents(entries, name, delivery).Success?
    ensures forall e :: e in OrderEvents(entries, name, delivery).value && e.Called? ==>
      e.action != Bake && (e.action == IfDelivery <==> delivery)
  {
  }

  /** The text `menu()` prints for the list of renderings. */
  function MenuText(lines: seq<string>): (r: string)
    ensures 9 <= |r| && r[..9] == "Menu: \n -"
    ensures lines == [] ==> r == "Menu: \n -"
    ensures |lines| > 0 ==> |r| + 3 == 9 + TotalLength(lines) + 3 * |lines|
  {
    "Menu: \n -" + Join(lines, "\n -")
  }

  /** For the three entries of `MENU`, the menu text lists them in order. */
  lemma MenuTextOfThree(a: string, b: string, c: string)
    ensures MenuText([a, b, c]) == "Menu: \n -" + (a + "\n -" + (b + "\n -" + c))
  {
    assert [a, b, c][1..] == [b, c] && [b, c][1..] == [c];
    assert Join([b, c], "\n -") == b + "\n -" + c;
    assert Join([a, b, c], "\n -") == a + "\n -" + Join([b, c], "\n -");
  }

  /** `value.dict()` for a menu entry: its own default label. */
  function Line(p: Pizza, emojize: string -> string): (r: string)
    requires p.variant != BasePizza
    reads p
    ensures |emojize(DefaultSignature(p.variant))| + 8 <= |r|
    ensures r[..|emojize(DefaultSignature(p.variant))| + 8] == "Pizza " + emojize(DefaultSignature(p.variant)) + ": "
  {
    p.Dict(emojize, DefaultSignature(p.variant))
  }

  /** Every prototype on the menu is one of the three variants. */
  predicate AllVariants(entries: seq<(string, Pizza)>) {
    forall i :: 0 <= i < |entries| ==> entries[i].1.variant != BasePizza
  }

  /** The renderings `menu()` collects, one per entry, in the menu's order. */
  function MenuLines(entries: seq<(string, Pizza)>, emojize: string -> string): (r: seq<string>)
    requires AllVariants(entries)
    reads set i | 0 <= i < |entries| :: entries[i].1
    ensures |r| == |entries|
    ensures forall i :: 0 <= i < |entries| ==> r[i] == Line(entries[i].1, emojize)
  {
    if entries == [] then []
    else
      var last := |entries| - 1;
      MenuLines(entries[..last], emojize) + [Line(entries[last].1, emojize)]
  }

  lemma MenuLinesStep(entries: seq<(string, Pizza)>, i: nat, emojize: string -> string)
    requires i < |entries| && AllVariants(entries)
    ensures MenuLines(entries[..i + 1], emojize) == MenuLines(entries[..i], emojize) + [Line(entries[i].1, emojize)]
  {
    assert entries[..i + 1][..i] == entries[..i];
  }

  /** The menu line of a default Margherita. */
  lemma MargheritaLine(p: Pizza, emojize: string -> string)
    requires p.variant == Margherita && p.attributes == MargheritaPrototype
    ensures Line(p, emojize) ==
      "Pizza " + emojize("Margherita:tomato:") + ": " + "tomato sauce, mozzarella, L, tomatoes"
  {
    MargheritaInit("tomatoes");
    DefaultMargheritaRender(p.attributes, emojize("Margherita:tomato:"));
  }

  /** The menu line of a default Pepperoni. */
  lemma PepperoniLine(p: Pizza, emojize: string -> string)
    requires p.variant == Pepperoni && p.attributes == PepperoniPrototype
    ensures Line(p, emojize) ==
      "Pizza " + emojize("Pepperoni:pizza:") + ": " + "tomato sauce, mozzarella, L, pepperoni"
  {
    PepperoniInit("pepperoni");
    DefaultPepperoniRender(p.attributes, emojize("Pepperoni:pizza:"));
  }

  /** The menu line of a default Hawaiian. */
  lemma HawaiianLine(p: Pizza, emojize: string -> string)
    requires p.variant == Hawaiian && p.attributes == HawaiianPrototype
    ensures Line(p, emojize) ==
      "Pizza " + emojize("Hawaiian:pineapple:") + ": " + "tomato sauce, mozzarella, L, chicken, pineapples"
  {
    HawaiianInit("chicken", "pineapples");
    DefaultHawaiianRender(p.attributes, emojize("Hawaiian:pineapple:"));
  }

  class Shop {
    /** `MENU`: the names in insertion order, each with its prototype. */
    const menu: seq<(string, Pizza)>
    /** Everything the program has printed or called so far. */
    var output: seq<Event>

    ghost function Prototypes(): set<Pizza> {
      set i | 0 <= i < |menu| :: menu[i].1
    }

    /** `MENU` holds a default Margherita, Pepperoni and Hawaiian, in that order. */
    ghost predicate Valid()
      reads Prototypes()
    {
      |menu| == 3 &&
      menu[0].0 == "margherita" && menu[1].0 == "pepperoni" && menu[2].0 == "hawaiian" &&
      menu[0].1.variant == Margherita && menu[0].1.attributes == MargheritaPrototype &&
      menu[1].1.variant == Pepperoni && menu[1].1.attributes == PepperoniPrototype &&
      menu[2].1.variant == Hawaiian && menu[2].1.attributes == HawaiianPrototype
    }

    /** Loading the module: `MENU` is built from the three default constructors. */
    constructor ()
      ensures Valid() && output == []
      ensures fresh(menu[0].1) && fresh(menu[1].1) && fresh(menu[2].1)
    {
      var margherita := NewMargherita();
      MargheritaBuilt(margherita);
      var pepperoni := NewPepperoni();
      PepperoniBuilt(pepperoni);
      var hawaiian := NewHawaiian();
      HawaiianBuilt(hawaiian);
      menu := [("margherita", margherita.value), ("pepperoni", pepperoni.value), ("hawaiian", hawaiian.value)];
      output := [];
    }

    /** The body of `bake`, `if_delivery` or `pickup`: it does nothing but is called. */
    method Perform(a: Action, p: Pizza)
      modifies this
      ensures output == old(output) + [Called(a, p)]
    {
      output := output + [Called(a, p)];
    }

    /** `a` decorated with `log(Comment(a))`, called on `p`. */
    method Timed(a: Action, p: Pizza)
      modifies this
      ensures output == old(output) + TimedEvents(a, p)
    {
      Perform(a, p);
      output := output + [Logged(Comment(a))];
      Perform(a, p);
    }

    /** `order(name, delivery)`. The prototypes on the menu are not changed. */
    method Order(name: string, delivery: bool) returns (o: Outcome)
      modifies this
      ensures OrderEvents(menu, name, delivery).Failure? ==>
        o == Fail(OrderEvents(menu, name, delivery).error) && output == old(output)
      ensures OrderEvents(menu, name, delivery).Success? ==>
        o == Pass && output == old(output) + OrderEvents(menu, name, delivery).value
      ensures forall i :: 0 <= i < |menu| ==> menu[i].1.attributes == old(menu[i].1.attributes)
      ensures old(Valid()) ==> Valid()
    {
      match FindPizza(menu, name)
      case None =>
        return Fail(KeyError(UnknownPizza));
      case Some(p) =>
        if delivery {
          Timed(IfDelivery, p);
        } else {
          Timed(Pickup, p);
        }
        o := Pass;
    }

    /** The loop of `menu()`: each entry's rendering, in the menu's order. */
    method CollectLines(emojize: string -> string) returns (menuList: seq<string>)
      requires AllVariants(menu)
      ensures menuList == MenuLines(menu, emojize)
    {
      menuList := [];
      var i := 0;
      while i < |menu|
        invariant 0 <= i <= |menu|
        invariant menuList == MenuLines(menu[..i], emojize)
      {
        var elem := menu[i].1;
        MenuLinesStep(menu, i, emojize);
        menuList := menuList + [Line(elem, emojize)];
        i := i + 1;
      }
      assert menu[..i] == menu;
    }

    /** `menu()`: collect each entry's rendering, then print them as one text. */
    method Menu(emojize: string -> string)
      requires AllVariants(menu)
      modifies this
      ensures output == old(output) + [Printed(MenuText(old(MenuLines(menu, emojize))))]
      ensures old(Valid()) ==> Valid()
    {
      var menuList := CollectLines(emojize);
      output := output + [Printed(MenuText(menuList))];
    }

    /** What `menu()` prints for the default `MENU`. */
    lemma DefaultMenu(emojize: string -> string)
      requires Valid()
      ensures MenuLines(menu, emojize) == [
        "Pizza " + emojize("Margherita:tomato:") + ": " + "tomato sauce, mozzarella, L, tomatoes",
        "Pizza " + emojize("Pepperoni:pizza:") + ": " + "tomato sauce, mozzarella, L, pepperoni",
        "Pizza " + emojize("Hawaiian:pineapple:") + ": " + "tomato sauce, mozzarella, L, chicken, pineapples"]
    {
      MargheritaLine(menu[0].1, emojize);
      PepperoniLine(menu[1].1, emojize);
      HawaiianLine(menu[2].1, emojize);
    }

    /** Every name on the default menu can be ordered; any other name raises. */
    lemma DefaultMenuNames(name: string, delivery: bool)
      requires Valid()
      ensures OrderEvents(menu, name, delivery).Success? <==>
        name == "margherita" || name == "pepperoni" || name == "hawaiian"
    {
      OrderFailsIffUnknown(menu, name, delivery);
    }
  }
}
