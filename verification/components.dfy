/** Recipe components: an item with a quantity, acting as a reactant (input) or
    a product (output) of a recipe. */
module Components {
  import opened Wrappers
  import opened Strings
  import opened Decimal
  import opened Items

  /** The two component types the constructor admits. */
  datatype Role = Reactant | Product

  /** The component type string the caller passes for a role. */
  function RoleName(r: Role): string {
    match r
    case Reactant => "reactant"
    case Product => "product"
  }

  /** The role a component type string names; None for any other string. */
  function ParseRole(s: string): (r: Option<Role>)
    ensures r.Some? ==> RoleName(r.value) == s
    ensures r.None? ==> forall role: Role :: RoleName(role) != s
  {
    if s == "reactant" then Some(Reactant)
    else if s == "product" then Some(Product)
    else None
  }

  lemma ParseRoleName(r: Role)
    ensures ParseRole(RoleName(r)) == Some(r)
  {
  }

  /** A validated component; `quantity` is the integer the caller passed. */
  datatype RecipeComponent = RecipeComponent(item: Item, quantity: int, role: Role)

  /** The failed assertion on the component type, carrying the rejected string. */
  datatype ComponentError = InvalidComponentType(componentType: string)

  /** The constructor: stores its arguments, provided the type names a role. */
  function NewComponent(item: Item, quantity: int, componentType: string): (r: Result<RecipeComponent, ComponentError>)
    ensures r.Success? <==> exists role: Role :: RoleName(role) == componentType
    ensures r.Success? ==> r.value.item == item && r.value.quantity == quantity
    ensures r.Success? ==> RoleName(r.value.role) == componentType
    ensures r.Failure? ==> r.error == InvalidComponentType(componentType)
  {
    match ParseRole(componentType)
    case Some(role) => Success(RecipeComponent(item, quantity, role))
    case None => Failure(InvalidComponentType(componentType))
  }

  /** The component type string stored by the constructor; it always names the
      component's role. */
  function ComponentType(c: RecipeComponent): (r: string)
    ensures ParseRole(r) == Some(c.role)
  {
    RoleName(c.role)
  }

  /** The quantity, a space, and the item name. Splitting it at its first space
      gives back the quantity and the item name. */
  function Text(c: RecipeComponent): (r: string)
    ensures ParseText(r) == Some((c.quantity, c.item.name))
  {
    ParseTextJoin(c.quantity, c.item.name);
    IntToString(c.quantity) + " " + c.item.name
  }

  lemma ParseTextJoin(quantity: int, name: string)
    ensures ParseText(IntToString(quantity) + " " + name) == Some((quantity, name))
  {
    var q := IntToString(quantity);
    var r := q + " " + name;
    assert r == q + [' '] + name;
    IndexOfJoin(q, ' ', name);
    assert r[..|q|] == q;
    assert r[|q| + 1..] == name;
    IntRoundTrip(quantity);
  }

  /** Splits a component text at its first space into quantity and item name. */
  function ParseText(s: string): (r: Option<(int, string)>)
  {
    match IndexOf(s, ' ')
    case None => None
    case Some(k) =>
      match ParseInt(s[..k])
      case None => None
      case Some(q) => Some((q, s[k + 1..]))
  }

  /** Two components print alike exactly when quantity and item name agree; the
      item's source plays no part. */
  lemma TextIff(c: RecipeComponent, d: RecipeComponent)
    ensures Text(c) == Text(d) <==> c.quantity == d.quantity && c.item.name == d.item.name
  {
    assert ParseText(Text(c)) == Some((c.quantity, c.item.name));
    assert ParseText(Text(d)) == Some((d.quantity, d.item.name));
  }

  /** Python's `str.capitalize` restricted to ASCII letters: the first character
      upper-cased, every other one lower-cased. */
  function Capitalize(s: string): (r: string)
    ensures |r| == |s|
    ensures |s| > 0 ==> r[0] == ToUpper(s[0])
    ensures forall k :: 0 < k < |s| ==> r[k] == ToLower(s[k])
  {
    if |s| == 0 then ""
    else [ToUpper(s[0])] + seq(|s| - 1, k requires 0 <= k < |s| - 1 => ToLower(s[k + 1]))
  }

  function ToUpper(c: char): char {
    if 'a' <= c <= 'z' then (c as int - 32) as char else c
  }

  function ToLower(c: char): char {
    if 'A' <= c <= 'Z' then (c as int + 32) as char else c
  }

  /** The heading `info` puts before a component of each role. */
  function RoleLabel(r: Role): string {
    match r
    case Reactant => "Reactant"
    case Product => "Product"
  }

  lemma CapitalizeRoleName(r: Role)
    ensures Capitalize(RoleName(r)) == RoleLabel(r)
  {
  }

  /** The capitalised component type, ": ", then the component text. */
  function Info(c: RecipeComponent): (r: string)
    ensures RoleLabel(c.role) + ": " <= r
  {
    CapitalizeRoleName(c.role);
    Capitalize(ComponentType(c)) + ": " + Text(c)
  }

  /** The role whose heading is `s`, if any. */
  function ParseRoleLabel(s: string): (r: Option<Role>)
    ensures r.Some? ==> RoleLabel(r.value) == s
  {
    if s == "Reactant" then Some(Reactant)
    else if s == "Product" then Some(Product)
    else None
  }

  /** Reads back the role, quantity and item name from a component's info line. */
  function ParseInfo(s: string): (r: Option<(Role, int, string)>)
  {
    match IndexOf(s, ':')
    case None => None
    case Some(k) =>
      var role := ParseRoleLabel(s[..k]);
      if role.None? || k + 2 > |s| || s[k + 1] != ' ' then None
      else
        match ParseText(s[k + 2..])
        case None => None
        case Some(t) => Some((role.value, t.0, t.1))
  }

  /** An info line is the heading, a colon, a space and the text. */
  lemma InfoShape(c: RecipeComponent)
    ensures Info(c) == RoleLabel(c.role) + [':'] + (" " + Text(c))
  {
    CapitalizeRoleName(c.role);
  }

  /** ParseInfo reads a heading, ": " and any text it can read. */
  lemma ParseInfoJoin(role: Role, text: string)
    requires ParseText(text).Some?
    ensures ParseInfo(RoleLabel(role) + [':'] + (" " + text))
         == Some((role, ParseText(text).value.0, ParseText(text).value.1))
  {
    var heading := RoleLabel(role);
    assert ':' !in heading;
    SplitHeading(heading, text);
    ParseRoleLabelOf(role);
  }

  /** In heading + ": " + text, with no colon in the heading, the first colon
      ends the heading and the text starts two characters later. */
  lemma SplitHeading(heading: string, text: string)
    requires ':' !in heading
    ensures var s := heading + [':'] + (" " + text);
      && IndexOf(s, ':') == Some(|heading|)
      && s[..|heading|] == heading
      && |heading| + 2 <= |s|
      && s[|heading| + 1] == ' '
      && s[|heading| + 2..] == text
  {
    var s := heading + [':'] + (" " + text);
    IndexOfJoin(heading, ':', " " + text);
    assert s[..|heading|] == heading;
    assert s[|heading| + 2..] == text;
  }

  lemma ParseRoleLabelOf(role: Role)
    ensures ParseRoleLabel(RoleLabel(role)) == Some(role)
  {
  }

  lemma InfoRoundTrip(c: RecipeComponent)
    ensures ParseInfo(Info(c)) == Some((c.role, c.quantity, c.item.name))
  {
    InfoShape(c);
    ParseInfoJoin(c.role, Text(c));
  }
}
