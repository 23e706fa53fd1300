/** The concrete cases the repository's tests exercise on Item and RecipeComponent.
    Each test value arrives as a parameter fixed by the precondition. */
module Scenarios {
  import opened Wrappers
  import opened Decimal
  import opened Items
  import opened Components

  /** An item named Stick from Minecraft is identified as "Stick (Minecraft)". */
  lemma StickIdentity(stick: Item)
    requires stick == Item("Stick", "Minecraft")
    ensures NameWithSource(stick) == "Stick (Minecraft)"
  {
    NameWithSourceShape(stick);
  }

  /** An item built without a source is identified with "(Unknown)". */
  lemma DefaultSourceIdentity(name: string)
    ensures Item(name).source == "Unknown"
    ensures NameWithSource(Item(name)) == name + " (Unknown)"
  {
    NameWithSourceShape(Item(name));
  }

  /** Four Sticks built as a product describe themselves as "Product: 4 Sticks". */
  lemma StickProductInfo(sticks: Item)
    requires sticks == Item("Sticks", "Minecraft")
    ensures NewComponent(sticks, 4, "product").Success?
    ensures Components.Info(NewComponent(sticks, 4, "product").value) == "Product: 4 Sticks"
  {
    var c := RecipeComponent(sticks, 4, Product);
    assert NewComponent(sticks, 4, "product") == Success(c);
    assert IntToString(4) == "4";
    InfoOf(c, "4");
    assert RoleLabel(c.role) == "Product" && c.item.name == "Sticks";
    assert Components.Info(c) == "Product" + ": " + "4" + " " + "Sticks";
    StickSpelling();
  }

  lemma StickSpelling()
    ensures "Product" + ": " + "4" + " " + "Sticks" == "Product: 4 Sticks"
  {
  }

  /** Two Oak Planks built as a reactant describe themselves as "Reactant: 2 Oak Planks". */
  lemma PlankReactantInfo(planks: Item)
    requires planks == Item("Oak Planks", "Minecraft")
    ensures NewComponent(planks, 2, "reactant").Success?
    ensures Components.Info(NewComponent(planks, 2, "reactant").value) == "Reactant: 2 Oak Planks"
  {
    var c := RecipeComponent(planks, 2, Reactant);
    assert NewComponent(planks, 2, "reactant") == Success(c);
    assert IntToString(2) == "2";
    InfoOf(c, "2");
    assert RoleLabel(c.role) == "Reactant" && c.item.name == "Oak Planks";
    assert Components.Info(c) == "Reactant" + ": " + "2" + " " + "Oak Planks";
    PlankSpelling();
  }

  lemma PlankSpelling()
    ensures "Reactant" + ": " + "2" + " " + "Oak Planks" == "Reactant: 2 Oak Planks"
  {
  }

  /** The info line of a component whose quantity prints as `q`. */
  lemma InfoOf(c: RecipeComponent, q: string)
    requires IntToString(c.quantity) == q
    ensures Components.Info(c) == RoleLabel(c.role) + ": " + q + " " + c.item.name
  {
    Components.InfoShape(c);
  }

  /** The plural and capitalised spellings are not component types. */
  lemma MisspelledTypesRejected(item: Item, quantity: int)
    ensures NewComponent(item, quantity, "reactants") == Failure(InvalidComponentType("reactants"))
    ensures NewComponent(item, quantity, "products") == Failure(InvalidComponentType("products"))
    ensures NewComponent(item, quantity, "Reactant").Failure?
    ensures NewComponent(item, quantity, "").Failure?
  {
  }
}
