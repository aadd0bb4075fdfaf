# Pizza shop model

A Dafny model of `pizza.py`, a small pizza-ordering command-line program. The model has four parts:

- **Validated pizza records.** `BasePizza` carries sauce, cheese and size. `Pepperoni` adds a meat field, `Margherita` adds a tomatoes field and `Hawaiian` adds a meat field and a pineapple field.
  - Every constrained field is a Python property. Its setter checks the value against a two-element list, raises `ValueError` with a fixed message when the value is not in the list, and otherwise stores it in a private slot (`_sauce`, `_meat`, ...).
- **Rendering.** `dict` makes `"Pizza <label>: "` followed by the stored values joined with `", "`, in insertion order. Each variant's label is `emojize` applied to its own signature.
- **Equality.** Each variant's `__eq__` compares the instance dictionaries.
- **The shop layer.**
  - `MENU` holds three prototypes.
  - `order` looks a pizza up and runs one of two timed actions.
  - `menu()` prints every prototype's rendering.
  - The `log` decorator times a function by calling it twice and printing one line between the two calls.

## How the program is modelled

- **Instance dictionaries** (`builtins.dfy`). An object's `__dict__` is an insertion-ordered list of (name, value) pairs.
  - `Store` is `d[k] = v`: an existing key keeps its place, and a new key goes last.
  - `AsMap` forgets the order. It is what Python's dictionary `==` compares.
- **Assignment** (`pizza.dfy`). `obj.name = value` is the function `Assign`. It follows the class's properties:
  - A property name is checked, then stored under `"_" + name`.
  - Any other name is stored as it is.
  - This is why `Hawaiian.meat`, which has no property anywhere in the class chain, accepts any value and appears in the dictionary as `meat`, not `_meat`.
- **Objects.** `Pizza` is a class with a `const variant` and a mutable `attributes` dictionary.
  - Its `SetAttribute`, `InitBase` and `Init<Variant>` methods mirror the setters and `__init__` methods.
  - They are specified against the pure functions `Assign`, `AssignAll` and `Construct`.
  - `Construct` lists the assignments each constructor performs, in order.
- **The invariant.** The invariant `Valid()` (`Guarded`) says that every private slot holds one of its allowed values and that no key appears twice. Every setter preserves it.
- **The shop** (`shop.dfy`).
  - A `Shop` object stands for the module's state: the constant `MENU` and everything printed so far.
  - Output is a trace of events: a call of a wrapped function with its argument, the timing line `log` prints (kept as its template), and other printed text.
  - `order` is specified by the pure function `OrderEvents`.
  - `menu()` is a loop specified by the pure function `MenuLines`.
- **The tests** (`scenarios.dfy`). The four tests at the end of `pizza.py` are client methods that build the same objects and promise what the tests assert.

### Notes on faithfulness

Where the code behaves in a way a reader might not expect, the model follows the code:

- **`bake` is never run.** It is defined and decorated, but `order` never calls it. `OrderNeverBakes` states this.
- **Hawaiian meat is unchecked.** It is not a validated field. `HawaiianMeatUnchecked` states that any value is accepted and stored under the plain key `meat`.
- **BasePizza compares by identity.** BasePizza defines no `__eq__`, so two distinct BasePizza objects are never equal, even when every field matches (`BaseEqualityIsIdentity`).
  - A comparison with a variant on either side uses that variant's `__eq__`, through Python's reflected comparison.
  - Both directions are covered by `Pizza.Equals`.
- **Variant equality ignores the class.** `__eq__` compares only the two `__dict__`s. Pizzas of different classes are unequal only while their constructor layouts keep them apart. Extra attributes can make them equal (`CrossWritesMatch`).
- **Error messages are kept verbatim.** This includes the two copied ones: "Meat must be tomatoes or no tomatoes" and "Meat must be pineapples or no pineapples".

## Model

| member | source | states |
|---|---|---|
| Builtins.AsMap | pizza.py:75 | The mapping view of an instance dictionary has exactly the keys the dictionary holds. |
| Builtins.AsMapEntries | pizza.py:75 | Every key-value pair of the mapping view is an entry of the dictionary. |
| Builtins.Find | pizza.py:50 | `d[k]` finds a value exactly when `k` is a key, and the value found is stored under `k`. |
| Builtins.Store | pizza.py:24-27 | `d[k] = v` (every setter and plain attribute write, also pizza.py:34-37, 44-47, 66-69, 91-94, 116-119): as a mapping the dictionary becomes `d[k := v]`. `StoreAppends` and `StoreInPlace` give the order; `StoreEntries` that nothing else is added. |
| Builtins.StoreAppends | pizza.py:15-17 | A key not yet present is appended after all the others. |
| Builtins.StoreEntries | pizza.py:24-27 | A store adds no entry other than the one written. |
| Builtins.StoreInPlace | pizza.py:24-47 | Overwriting a key that is present keeps the length and every position, and replaces only that key's entry. The same holds for the setters at pizza.py:66-69, 91-94, 116-119. |
| Builtins.StoreDistinct | pizza.py:24-47 | Assignment never makes a key appear twice. The same holds for the setters at pizza.py:66-69, 91-94, 116-119. |
| Builtins.FindEntry | pizza.py:50 | Looking up the key at position i of a dictionary with distinct keys gives the value at position i. |
| Builtins.SameLayoutEquality | pizza.py:75 | Two dictionaries with the same keys in the same order compare equal exactly when their values agree position by position. |
| Builtins.WriteOrderForgotten | pizza.py:75 | Two new attributes written in either order leave dictionaries that compare equal. |
| Builtins.DifferentKeysUnequal | pizza.py:100 | A key held by one dictionary and not the other makes them unequal. |
| Builtins.Join | pizza.py:51 | `sep.join(parts)` is empty for no parts. Otherwise its length is that of all parts plus one separator between each two neighbours. |
| Builtins.JoinCons | pizza.py:190 | A part in front of a non-empty list is joined to the rest by exactly one separator. |
| Builtins.JoinAppend | pizza.py:51 | A part after a non-empty list is joined to it by exactly one separator, so the parts appear in order. |
| Pizzas.Assign | pizza.py:23-27 | `obj.name = value` (also pizza.py:33-37, 43-47, 65-69, 90-94, 115-119, and plain attributes as on pizza.py:108): it succeeds exactly when the class has no property `name` or its setter accepts `value`. A refusal raises ValueError with that property's message. On success the mapping gains `value` under the storage key. |
| Pizzas.Lookup | pizza.py:19-21 | `obj.name` (also pizza.py:29-31, 39-41, 61-63, 86-88, 111-113) finds a value exactly when the storage key is present, and the value is the entry under that key. On a guarded dictionary a property reads only values its setter accepts. |
| Pizzas.GuardedRead | pizza.py:19-27 | A property's private slot in a guarded dictionary holds only a value its setter accepted. |
| Pizzas.SauceDomain | pizza.py:23-27 | Setting sauce succeeds exactly for "tomato sauce" and "no sauce". Anything else raises ValueError("Sauce must be tomato sauce or no sauce"), on every variant. |
| Pizzas.SizeDomain | pizza.py:33-37 | Setting size succeeds exactly for "L" and "XL". Anything else, "S" included, raises ValueError("Size must be L or XL"). |
| Pizzas.CheeseDomain | pizza.py:43-47 | Setting cheese succeeds exactly for "mozzarella" and "no cheese". Anything else raises ValueError("Cheese must be Mozzarella or no cheese"). |
| Pizzas.PepperoniMeatDomain | pizza.py:65-69 | On a Pepperoni, setting meat succeeds exactly for "pepperoni" and "no meat". Anything else raises ValueError("Meat must be pepperoni or no meat"). |
| Pizzas.MargheritaTomatoesDomain | pizza.py:90-94 | On a Margherita, setting tomatoes succeeds exactly for "tomatoes" and "no tomatoes". Anything else raises ValueError with the message as written. |
| Pizzas.HawaiianPineappleDomain | pizza.py:115-119 | On a Hawaiian, setting pineapple succeeds exactly for "pineapples" and "no pineapples". Anything else raises ValueError with the message as written. |
| Pizzas.HawaiianMeatUnchecked | pizza.py:106-109 | On a Hawaiian, `meat` is a plain attribute. Any value is stored under the key `meat` and read back, and it is not a validated slot. |
| Pizzas.ReadAfterWrite | pizza.py:19-47 | After a successful assignment the attribute reads back the value written. Every attribute stored under another key reads as before. This covers every property, including pizza.py:61-69, 86-94, 111-119, and plain attributes. |
| Pizzas.AssignPreservesGuarded | pizza.py:24-47 | A successful assignment through the public names keeps every private slot inside its allowed list and every key distinct. This covers every setter, including pizza.py:66-69, 91-94, 116-119, and plain attributes. |
| Pizzas.AssignKeepsLayout | pizza.py:24-47 | Re-setting a validated field keeps the dictionary's keys and their order, and changes only that field's value. This covers every setter, including pizza.py:66-69, 91-94, 116-119. |
| Pizzas.AssignAll | pizza.py:14-17 | A run of assignments, stopping at the first that raises, can only raise ValueError. |
| Pizzas.AssignAllSucceedsIff | pizza.py:14-17 | A run of assignments completes exactly when every one of its setters accepts its value. |
| Pizzas.AssignAllPreservesGuarded | pizza.py:14-17 | A run of assignments, stopping at the first that raises, keeps the invariant. |
| Pizzas.BaseSauceStep | pizza.py:15 | `self.sauce = s` in `BasePizza.__init__` raises the sauce error or stores `_sauce` and goes on. |
| Pizzas.BaseCheeseStep | pizza.py:16 | `self.cheese = c` raises the cheese error or stores `_cheese` after `_sauce` and goes on. |
| Pizzas.BaseSizeStep | pizza.py:17 | `self.size = z` raises the size error or stores `_size` last. |
| Pizzas.BaseInit | pizza.py:14-17 | `BasePizza(sauce, cheese, size)` raises the sauce error, then the cheese error, then the size error, in that order of checking. Otherwise it holds exactly `_sauce`, `_cheese`, `_size` with the given values, in that order. |
| Pizzas.VariantInit | pizza.py:58 | Each variant's constructor first runs the base constructor with the defaults, then its own assignments. |
| Pizzas.PepperoniInit | pizza.py:57-59 | `Pepperoni(m)` succeeds exactly when m is allowed. It then holds the three base defaults then `_meat`. Otherwise it raises the meat error. |
| Pizzas.MargheritaInit | pizza.py:82-84 | `Margherita(t)` succeeds exactly when t is allowed. It then holds the base defaults then `_tomatoes`. Otherwise it raises the tomatoes error. |
| Pizzas.HawaiianInit | pizza.py:106-109 | `Hawaiian(m, p)` succeeds for every m, exactly when p is allowed. It then holds the base defaults, `meat`, then `_pineapple`. |
| Pizzas.Construct | pizza.py:14-17 | The dictionary a constructor leaves (also pizza.py:57-59, 82-84, 106-109). A constructor can only raise ValueError. |
| Pizzas.ConstructSucceedsIff | pizza.py:14-109 | A constructor raises exactly when one of its validated arguments is outside its list. Hawaiian's meat is never refused. |
| Pizzas.StepsArePublic | pizza.py:14-109 | Every constructor assigns through public names only, never to a private slot directly. |
| Pizzas.ConstructedLayout | pizza.py:14-17 | Every successfully built pizza has its class's key layout, holds the constructor's values in order, and satisfies the invariant. |
| Pizzas.BaseShape | pizza.py:15-17 | A built BasePizza has keys `_sauce`, `_cheese`, `_size` holding the three arguments. |
| Pizzas.PepperoniShape | pizza.py:59 | A built Pepperoni has the base keys then `_meat`, holding the defaults then its meat. |
| Pizzas.MargheritaShape | pizza.py:84 | A built Margherita has the base keys then `_tomatoes`. |
| Pizzas.HawaiianShape | pizza.py:108-109 | A built Hawaiian has the base keys, `meat`, then `_pineapple`. |
| Pizzas.Render | pizza.py:49-51 | `BasePizza.dict(emoji)` starts with `"Pizza " + emoji + ": "`. An empty dictionary shows nothing after it. Otherwise the length is that of the header, every stored value and one `", "` between each two neighbours; `RenderAppend` gives the order. |
| Pizzas.RenderConstructed | pizza.py:49-51 | A freshly built pizza renders as `"Pizza " + label + ": "` followed by the constructor's values, base fields first, joined by `", "`. |
| Pizzas.RenderAppend | pizza.py:49-51 | Adding an entry at the end of the dictionary adds its value at the end of the rendering, after one `", "` unless it is the only one. |
| Pizzas.RenderAfterNewAttribute | pizza.py:49-51 | A plain write of a name that is no property and not yet stored, such as `pep.extra = "x"`, succeeds and shows its value last. |
| Pizzas.RenderAfterAssign | pizza.py:50-51 | After re-setting a field, the rendering keeps its order and shows the new value in that field's place. |
| Pizzas.DefaultPepperoniRender | pizza.py:71-72 | A default Pepperoni renders as `"Pizza " + label + ": tomato sauce, mozzarella, L, pepperoni"`. |
| Pizzas.DefaultMargheritaRender | pizza.py:96-97 | A default Margherita renders as `"Pizza " + label + ": tomato sauce, mozzarella, L, tomatoes"`. |
| Pizzas.DefaultHawaiianRender | pizza.py:121-122 | A default Hawaiian renders as `"Pizza " + label + ": tomato sauce, mozzarella, L, chicken, pineapples"`. |
| Pizzas.EqualIffSameFields | pizza.py:74-75 | For two dictionaries with one class's layout, `==` holds exactly when every field value is the same. |
| Pizzas.VariantsNeverEqual | pizza.py:99-100 | Dictionaries laid out by two different classes are never equal. |
| Pizzas.ChangeBreaksEquality | pizza.py:124-125 | Giving one of two equal pizzas a different value for a field makes them unequal. |
| Pizzas.EqualsIffSameFields | pizza.py:74-75 | Two pizza objects of one variant, laid out as their constructor leaves them, are equal exactly when their field values are the same. |
| Pizzas.EqualsAcrossVariants | pizza.py:99-100 | Pizza objects of different classes, laid out as their constructors leave them, are unequal, compared either way round. |
| Pizzas.CrossWritesMatch | pizza.py:74-75 | Outside those layouts the class no longer separates pizzas: a default Pepperoni given `_tomatoes = "tomatoes"` and a default Margherita given `_meat = "pepperoni"` hold the same items, so they compare equal. |
| Pizzas.BaseEqualityIsIdentity | pizza.py:8-51 | Two BasePizza objects are equal exactly when they are the same object. |
| Pizzas.Pizza.Get | pizza.py:19-21 | `self.name` (also pizza.py:29-31, 39-41, 61-63, 86-88, 111-113) finds a value exactly when its storage key is present. On a valid object a property reads only values its setter accepts. |
| Pizzas.Pizza.Dict | pizza.py:71-72 | `self.dict(signature)` (also pizza.py:96-97, 121-122 and 49-51) begins with `"Pizza "` and the label. A variant passes the signature through `emojize`; a BasePizza shows it as given. |
| Pizzas.Pizza.Equals | pizza.py:74-75 | `self == other` (also pizza.py:99-100, 124-125): every object equals itself, equal objects hold the same items, and when either side is a variant, holding the same items is enough. |
| Pizzas.EqualsSymmetric | pizza.py:74-75 | `a == b` and `b == a` always agree. |
| Pizzas.Pizza.Blank | pizza.py:14 | A new object starts with an empty dictionary. |
| Pizzas.Pizza.SetAttribute | pizza.py:23-27 | `obj.name = value`. When `Assign` succeeds, it completes normally and the dictionary becomes the result. Otherwise it raises that error and leaves the dictionary unchanged. It keeps the invariant. |
| Pizzas.Pizza.InitBase | pizza.py:14-17 | `BasePizza.__init__` on a new object: the three setter calls in order, stopping at the first that raises. The slots stored before the failing setter stay behind. |
| Pizzas.Pizza.InitPepperoni | pizza.py:57-59 | `Pepperoni.__init__` produces exactly the `Pepperoni(meat)` construction result, or raises its error. |
| Pizzas.Pizza.InitMargherita | pizza.py:82-84 | `Margherita.__init__` produces exactly the `Margherita(tomatoes)` construction result, or raises its error. |
| Pizzas.Pizza.InitHawaiian | pizza.py:106-109 | `Hawaiian.__init__` produces exactly the `Hawaiian(meat, pineapple)` construction result, or raises its error. |
| Pizzas.NewBasePizza | pizza.py:14-17 | `BasePizza(...)` with the same defaults returns a fresh, valid object holding the construction result, or raises the construction error. |
| Pizzas.NewPepperoni | pizza.py:57-59 | `Pepperoni(...)` returns a fresh, valid object holding the construction result, or raises the construction error. |
| Pizzas.NewMargherita | pizza.py:82-84 | `Margherita(...)` returns a fresh, valid object holding the construction result, or raises the construction error. |
| Pizzas.NewHawaiian | pizza.py:106-109 | `Hawaiian(...)` returns a fresh, valid object holding the construction result, or raises the construction error. |
| Scenarios.NoCheeseDict | pizza.py:216-217 | Setting cheese to "no cheese" on a default Pepperoni overwrites the cheese entry in place. |
| Scenarios.NoCheeseRender | pizza.py:215-218 | After that change, the default Pepperoni renders "tomato sauce, no cheese, L, pepperoni". |
| Scenarios.TestOutput | pizza.py:221-223 | With the emoji table's pizza label, a default Pepperoni renders "Pizza Pepperoni🍕: tomato sauce, mozzarella, L, pepperoni". |
| Scenarios.TestChanges | pizza.py:215-218 | After `pep.cheese = "no cheese"`, it renders "Pizza Pepperoni🍕: tomato sauce, no cheese, L, pepperoni". |
| Scenarios.TestException | pizza.py:209-212 | `pep.size = "S"` raises ValueError("Size must be L or XL") and leaves the pizza as it was. |
| Scenarios.ResizedUnequal | pizza.py:198-203 | A default Pepperoni resized to "XL" is unequal to another default Pepperoni. |
| Scenarios.MargheritaIsNotPepperoni | pizza.py:205-206 | A default Margherita is unequal to a default Pepperoni. |
| Scenarios.TestEq | pizza.py:197-206 | `pep != pepp`, `pepe == pep`, `pepes != pepe` and `pepes != pep`, as the test asserts. |
| Shop.TimedEvents | pizza.py:133-137 | A wrapped call produces three events. It starts and ends with a call, every call is of the wrapped function on the given pizza, and the middle event is the timing line with the action's own template. Nothing else is printed. |
| Shop.TimedCallsTwice | pizza.py:131-141 | A `log`-wrapped call runs the wrapped function exactly twice with the same argument. It prints exactly one line, its own template, between the two runs. |
| Shop.Shop.Timed | pizza.py:133-137 | Calling a wrapped action appends exactly that call, print, call sequence to the trace. |
| Shop.Shop.Perform | pizza.py:149-161 | Each wrapped function does nothing beyond being called with its argument. |
| Shop.FindPizza | pizza.py:174-178 | A menu lookup finds nothing exactly when no entry has the name. Otherwise it finds the pizza the menu holds under that name. |
| Shop.OrderEvents | pizza.py:172-180 | An order that fails raises KeyError("We have not learned that pizza yet"). One that succeeds is exactly one wrapped call of the chosen action on a menu pizza of that name. |
| Shop.OrderFailsIffUnknown | pizza.py:174-175 | An order fails exactly when the name is not on the menu, and then with KeyError("We have not learned that pizza yet"). |
| Shop.OrderRunsChosenAction | pizza.py:177-180 | A successful order calls only the action chosen by the delivery flag, twice, on the menu's pizza under that name. It logs exactly one line, that action's template. |
| Shop.OrderNeverBakes | pizza.py:172-180 | No order ever calls `bake`. A delivery calls `if_delivery`, and a pickup calls `pickup`. |
| Shop.Shop.Order | pizza.py:172-180 | `order(name, delivery)`: for an unknown name it raises KeyError with nothing printed or called. Otherwise it appends the order's events. The menu's prototypes are not changed, and the shop stays valid. |
| Shop.MenuText | pizza.py:190 | The menu text starts with `"Menu: \n -"`. Its length is that of every line plus `"\n -"` between each two neighbours. |
| Shop.Line | pizza.py:189 | `elem.dict()` for a menu entry begins with `"Pizza "` and the emojized default label of that entry's class. |
| Shop.MargheritaLine | pizza.py:96-97 | The menu line of a default Margherita is its default rendering under the Margherita label. |
| Shop.PepperoniLine | pizza.py:71-72 | The menu line of a default Pepperoni is its default rendering under the Pepperoni label. |
| Shop.HawaiianLine | pizza.py:121-122 | The menu line of a default Hawaiian is its default rendering under the Hawaiian label. |
| Shop.MenuLines | pizza.py:186-189 | One rendering per menu entry, in menu order, each with that pizza's own default label. |
| Shop.MenuTextOfThree | pizza.py:190 | For three lines, the menu text is `"Menu: \n -"` and the lines separated by `"\n -"`. |
| Shop.Shop.CollectLines | pizza.py:186-189 | The loop of `menu()` collects exactly the `MenuLines` of the menu: one rendering per entry, in order, and changes nothing. |
| Shop.Shop.Menu | pizza.py:184-191 | `menu()` appends exactly one printed text: the menu text of every entry's rendering, in order, as the entries were when it was called. The shop stays valid. |
| Shop.Shop.DefaultMenu | pizza.py:146 | For the default `MENU`, the lines are the default Margherita, Pepperoni and Hawaiian renderings, in that order. |
| Shop.Shop.DefaultMenuNames | pizza.py:146-175 | On the default `MENU`, an order succeeds exactly for "margherita", "pepperoni" and "hawaiian". |
| Shop.Shop.constructor | pizza.py:146 | `MENU` is built from the three default constructors, in the order margherita, pepperoni, hawaiian, and nothing has been printed yet. |

## Left out

- The click group, command and option wiring, and the `__main__` entry point (pizza.py:164-170, 226-227): they are command-line plumbing. `Order` and `Menu` take the already-parsed arguments.
- `emojize` comes from the emoji library and is a foreign call. It is a parameter `string -> string`. The emoji table is not reproduced. The two tests that compare rendered text assume only that it maps "Pepperoni:pizza:" to "Pepperoni🍕".
- `time.time()` and the elapsed seconds in the log line are a clock and floating point. The printed timing line is recorded as the decorator's template, not as the formatted text.
- `print` is recorded as an event appended to the shop's trace, not written to a console.
- The pytest machinery (`pytest.raises`, test discovery): the tests are modelled as the client methods in `scenarios.dfy`.
- Shop.Shop.Timed: does not return the wrapped function's result. Every wrapped function returns None and `order` discards it, so the model has no value to hand back.
- Pizzas.Pizza.SetAttribute: requires that the name is not a private slot such as `_sauce`. Python lets a caller write those slots directly, bypassing validation. The model excludes such writes.
- Pizzas.Pizza.InitPepperoni: requires an empty dictionary, as on a freshly allocated object. The same holds for InitBase, InitMargherita and InitHawaiian. Calling `__init__` again on a used object is not modelled.
- Attribute values other than strings: for example `Hawaiian(meat=3)`, which `dict` would convert with an f-string. The model stores strings only.
- Comparing a pizza with an object that has no `__dict__`: Python raises AttributeError there. `Equals` takes only pizzas.
- Reading a property whose private slot is missing raises AttributeError. `Get` returns None instead. This cannot happen on an object whose constructor completed.
