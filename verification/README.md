# Recipe calculator core: items and recipe components

This project models the two classes of the `calc` package of the aequus recipe
calculator, `Item` and `RecipeComponent`, as immutable Dafny datatypes with pure
functions, and proves what their string renderings and their validation promise.

- `Item` (module `Items`) is a name plus a source. The source defaults to
  `"Unknown"`; in the model that is a default constructor argument, as in Python.
  `NameWithSource` renders the identity string `"name (source)"`. `Info`
  renders the two-line description.
- `RecipeComponent` (module `Components`) is an item, an integer quantity and a
  `Role` (`Reactant` or `Product`). The Python constructor asserts that its
  `component_type` string is exactly `"reactant"` or `"product"`. The model
  turns that into `NewComponent`, which returns `Failure(InvalidComponentType(s))`
  for any other string. In the model, every component value carries a valid role.
  `Text` renders the quantity, a space and the item name. `Info` renders the
  capitalised type, `": "` and the text.
- `Decimal` renders an integer quantity in the form Python's `f"{q}"` gives an
  `int`. `Strings` holds the character search used by the parsers.

Each rendering is paired with a parser that reads it back:

- `Items.ParseNameWithSource` inverts `Items.NameWithSource`, splitting at the last `(`.
- `Items.ParseInfo` inverts `Items.Info`, splitting at the first line break.
- `Decimal.ParseInt` inverts `Decimal.IntToString`.
- `Components.ParseText` inverts `Components.Text`, splitting at the first space.
- `Components.ParseInfo` inverts `Components.Info`, splitting at the first colon.
- `Components.ParseRole` inverts `Components.RoleName`.

The identity string is not injective in general. `Item("a (b", "c")` and
`Item("a", "b (c")` both render as `"a (b (c)"` (`Items.NameWithSourceCollision`).
It is injective over items whose source contains no `(`.

## Model

| member | source | states |
|---|---|---|
| Items.NameWithSource | calc/__init__.py:22-24 | when the source contains no "(", the identity string "name (source)" splits at its last "(" back into the item's name and source |
| Items.ParseNameWithSource | calc/__init__.py:22-24 | the parser cuts at the last "(", so a source it reads never contains "(" |
| Items.ParseNameWithSourceSound | calc/__init__.py:22-24 | whenever an identity string parses, the parsed item renders back to exactly that string |
| Items.NameWithSourceInjective | calc/__init__.py:22-24 | for sources without "(", two items have the same identity string if and only if they are the same item |
| Items.NameWithSourceCollision | calc/__init__.py:22-24 | two different items can share one identity string when a source contains "(" |
| Scenarios.DefaultSourceIdentity | calc/__init__.py:14-24 | an item built without a source has source "Unknown", so its identity is name + " (Unknown)" |
| Scenarios.StickIdentity | calc/tests/test_class_item.py:6-9 | the item Stick from Minecraft is identified as "Stick (Minecraft)" |
| Items.Info | calc/__init__.py:18-20 | when the name has no line break, "Item name: …\nItem source: …" splits at its first line break back into the item's name and source |
| Items.ParseInfo | calc/__init__.py:18-20 | the parser cuts at the first line break, so a name it reads never contains one |
| Items.ParseInfoSound | calc/__init__.py:18-20 | whenever a description parses, the parsed item's description is exactly that text |
| Components.ParseRole | calc/__init__.py:43 | a string is accepted as a role only if it is that role's type string; every other string names no role |
| Components.ParseRoleName | calc/__init__.py:43 | each role's type string is accepted as that role |
| Components.NewComponent | calc/__init__.py:39-43 | construction succeeds if and only if the type is "reactant" or "product"; on success it stores the item, the quantity and that type unchanged; otherwise it fails with the rejected string |
| Components.ComponentType | calc/__init__.py:42 | the stored component type always reads as the component's role |
| Scenarios.MisspelledTypesRejected | calc/__init__.py:43 | "reactants", "products", "Reactant" and "" are all rejected |
| Decimal.NatToString | calc/__init__.py:51 | a natural quantity prints as non-empty decimal digits with no leading zero |
| Decimal.IntToString | calc/__init__.py:51 | a printed quantity contains no space and no colon |
| Decimal.NatRoundTrip | calc/__init__.py:51 | the printed digits of a natural number read back as that number |
| Decimal.ParseNatSound | calc/__init__.py:51 | every string that reads as a natural number is that number's printed form |
| Decimal.IntRoundTrip | calc/__init__.py:51 | every printed integer reads back as that integer |
| Decimal.ParseIntSound | calc/__init__.py:51 | every string that reads as an integer is that integer's printed form |
| Decimal.ParseIntIff | calc/__init__.py:51 | a string reads as an integer if and only if it is that integer's printed form |
| Decimal.IntToStringInjective | calc/__init__.py:51 | different quantities print differently |
| Components.Text | calc/__init__.py:49-51 | a component's text splits at its first space into the quantity and the item name |
| Components.TextIff | calc/__init__.py:49-51 | two components have the same text if and only if quantity and item name agree; the text does not depend on the item's source |
| Components.Capitalize | calc/__init__.py:47 | capitalisation keeps the length, upper-cases the first character and lower-cases the rest |
| Components.CapitalizeRoleName | calc/__init__.py:47 | "reactant" capitalises to "Reactant" and "product" to "Product" |
| Components.Info | calc/__init__.py:45-47 | a component's info starts with "Reactant: " or "Product: ", according to its role |
| Components.InfoShape | calc/__init__.py:45-47 | info is the role heading, ":", a space, then the component text |
| Components.InfoRoundTrip | calc/__init__.py:45-51 | info reads back as the component's role, quantity and item name |
| Scenarios.StickProductInfo | calc/tests/test_class_recipecomponent.py:6-10 | four Sticks built as a product give "Product: 4 Sticks" |
| Scenarios.PlankReactantInfo | calc/tests/test_class_recipecomponent.py:13-17 | two Oak Planks built as a reactant give "Reactant: 2 Oak Planks" |

## Left out

- `Recipe`, `Job`, `Reactant`, `Product`, `RecipeComponent.key()`, `register_component`, `calculate_bill_of_materials`, `materials_text` and `Job.key()` are not modelled. The tests call them, but `calc/__init__.py` does not implement them. The two test scenarios above use `NewComponent` in place of the missing `Product` and `Reactant` wrappers.
- Quantities are integers. The source annotates them as `float`, and Python prints floats differently (`4.0`, `0.1`, `1e-05`). Float arithmetic and float printing are not modelled.
- Decimal.IntToString: renders every integer. CPython 3.11 and later refuse to convert an `int` of more than `sys.get_int_max_str_digits()` digits (4300 by default) to text and raise `ValueError`. So for a quantity of absolute value at least 10^4300, `text()` and `info()` raise, and the model does not show that error.
- Components.Capitalize: covers ASCII letters only. Python's `str.capitalize` also applies Unicode title-casing and special case mappings. Those do not matter for the two valid type strings.
- NewComponent: validates on every call. Python removes `assert` statements under `python -O`, so there the check disappears.
- The model uses immutable values, so it does not model in-place updates or aliasing. In Python the attributes stay mutable after construction, and the type assertion runs only once. Assigning `component_type = "x"` afterwards is accepted, and `info()` then prints `"X: …"`. One `Item` object can be shared by several components, so renaming it changes the `text()` of every one of them.
- The component stores its type as a `Role`, not as the raw string. `ComponentType` recovers the string, and `NewComponent` guarantees it equals the string that was passed in.
- Item names and sources may be any strings, including empty ones. The source does not check them.
- The pytest fixtures in `calc/tests/conftest.py` are not modelled. Their plural type strings are covered by `Scenarios.MisspelledTypesRejected`.
