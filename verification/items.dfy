/** Items: things that exist in a stable form, distinguished by name and by the
    source (game, mod, catalog) they come from. */
module Items {
  import opened Wrappers
  import opened Strings

  /** The source an item is given when the caller names none. */
  const UnknownSource: string := "Unknown"

  /** An item; `Item(n)` takes the default source, as the Python constructor does. */
  datatype Item = Item(name: string, source: string := UnknownSource)

  const NameLabel: string := "Item name: "
  const SourceLabel: string := "\nItem source: "

  /** The identity string "name (source)". Splitting it at its last "(" gives
      back the name and the source, provided the source holds no "(". */
  function NameWithSource(i: Item): (r: string)
    ensures '(' !in i.source ==> ParseNameWithSource(r) == Some(i)
  {
    ParseNameWithSourceJoin(i.name, i.source);
    i.name + " (" + i.source + ")"
  }

  /** The two-line description "Item name: …" / "Item source: …". Splitting it
      at its first line break gives back the name and the source, provided the
      name holds no line break. */
  function Info(i: Item): (r: string)
    ensures '\n' !in i.name ==> ParseInfo(r) == Some(i)
  {
    ParseInfoJoin(i.name, i.source);
    NameLabel + i.name + SourceLabel + i.source
  }

  /** Splits an identity string at its last "(" back into name and source. */
  function ParseNameWithSource(s: string): (r: Option<Item>)
    ensures r.Some? ==> '(' !in r.value.source
  {
    match LastIndexOf(s, '(')
    case None => None
    case Some(k) =>
      if 0 < k && s[k - 1] == ' ' && k + 2 <= |s| && s[|s| - 1] == ')' then
        assert s[k + 1..|s| - 1] == s[k + 1..][..|s| - k - 2];
        Some(Item(s[..k - 1], s[k + 1..|s| - 1]))
      else None
  }

  /** Splits a description at its first line break back into name and source. */
  function ParseInfo(s: string): (r: Option<Item>)
    ensures r.Some? ==> '\n' !in r.value.name
  {
    if NameLabel <= s then
      var rest := s[|NameLabel|..];
      match IndexOf(rest, '\n')
      case None => None
      case Some(k) =>
        if SourceLabel <= rest[k..] then Some(Item(rest[..k], rest[k..][|SourceLabel|..]))
        else None
    else None
  }

  lemma ParseNameWithSourceJoin(name: string, source: string)
    ensures '(' !in source ==> ParseNameWithSource(name + " (" + source + ")") == Some(Item(name, source))
  {
    if '(' in source {
      return;
    }
    var r := name + " (" + source + ")";
    var a := name + " ";
    var b := source + ")";
    assert r == a + ['('] + b;
    LastIndexOfJoin(a, '(', b);
    assert r[..|a| - 1] == name;
    assert r[|a| + 1..|r| - 1] == source;
  }

  lemma ParseInfoJoin(name: string, source: string)
    ensures '\n' !in name ==> ParseInfo(NameLabel + name + SourceLabel + source) == Some(Item(name, source))
  {
    if '\n' in name {
      return;
    }
    var tail := SourceLabel[1..] + source;
    DescriptionParts(name, source);
    IndexOfJoin(name, '\n', tail);
  }

  /** The text after the first label is the name, a line break, and the rest of
      the second label followed by the source. */
  lemma DescriptionParts(name: string, source: string)
    ensures var r := NameLabel + name + SourceLabel + source;
      && NameLabel <= r
      && r[|NameLabel|..] == name + ['\n'] + (SourceLabel[1..] + source)
      && r[|NameLabel|..][..|name|] == name
      && r[|NameLabel|..][|name|..] == SourceLabel + source
  {
    var r := NameLabel + name + SourceLabel + source;
    assert SourceLabel == ['\n'] + SourceLabel[1..];
    JoinFour(NameLabel, name, SourceLabel, source, r);
    assert r[|NameLabel|..] == name + (SourceLabel + source);
  }

  /** Regroups `a + (b + (c + d))` as the left-nested `a + b + c + d`. */
  lemma JoinFour(a: string, b: string, c: string, d: string, s: string)
    requires s == a + (b + (c + d))
    ensures s == a + b + c + d
  {
  }

  lemma PrefixSplit(p: string, s: string)
    requires p <= s
    ensures s == p + s[|p|..]
  {
  }

  /** Whatever ParseNameWithSource reads renders back to exactly the text it read. */
  lemma ParseNameWithSourceSound(s: string)
    ensures ParseNameWithSource(s).Some? ==> NameWithSource(ParseNameWithSource(s).value) == s
  {
    if ParseNameWithSource(s).Some? {
      var k := LastIndexOf(s, '(').value;
      assert s == s[..k - 1] + " (" + s[k + 1..|s| - 1] + ")";
    }
  }

  /** Whatever ParseInfo reads renders back to exactly the text it read. */
  lemma ParseInfoSound(s: string)
    ensures ParseInfo(s).Some? ==> Info(ParseInfo(s).value) == s
  {
    if ParseInfo(s).Some? {
      var i := ParseInfo(s).value;
      ParseInfoSplit(s);
      InfoShape(i);
    }
  }

  /** A description ParseInfo reads is the two labels around the parsed fields. */
  lemma ParseInfoSplit(s: string)
    requires ParseInfo(s).Some?
    ensures s == NameLabel + ParseInfo(s).value.name + SourceLabel + ParseInfo(s).value.source
  {
    var rest := s[|NameLabel|..];
    var k := IndexOf(rest, '\n').value;
    Reassemble(s, k);
  }

  /** Cutting a labelled description at the start of its second label and
      joining the pieces again gives the same text. */
  lemma Reassemble(s: string, k: nat)
    requires NameLabel <= s && k <= |s| - |NameLabel|
    requires SourceLabel <= s[|NameLabel|..][k..]
    ensures s == NameLabel + s[|NameLabel|..][..k] + SourceLabel + s[|NameLabel|..][k..][|SourceLabel|..]
  {
    var rest := s[|NameLabel|..];
    PrefixSplit(NameLabel, s);
    PrefixSplit(SourceLabel, rest[k..]);
    assert rest == rest[..k] + rest[k..];
    JoinFour(NameLabel, rest[..k], SourceLabel, rest[k..][|SourceLabel|..], s);
  }

  /** The description, spelled out for a given item. */
  lemma InfoShape(i: Item)
    ensures Info(i) == NameLabel + i.name + SourceLabel + i.source
  {
  }

  /** The identity string, spelled out for a given item. */
  lemma NameWithSourceShape(i: Item)
    ensures NameWithSource(i) == i.name + " (" + i.source + ")"
  {
  }

  /** Items whose sources hold no "(" share an identity string only when they are equal. */
  lemma NameWithSourceInjective(i: Item, j: Item)
    requires '(' !in i.source && '(' !in j.source
    ensures NameWithSource(i) == NameWithSource(j) <==> i == j
  {
  }

  /** Without that restriction two different items can share one identity string. */
  lemma NameWithSourceCollision()
    ensures Item("a (b", "c") != Item("a", "b (c")
    ensures NameWithSource(Item("a (b", "c")) == NameWithSource(Item("a", "b (c"))
  {
    NameWithSourceShape(Item("a (b", "c"));
    NameWithSourceShape(Item("a", "b (c"));
    assert "a (b" + " (" + "c" + ")" == "a" + " (" + "b (c" + ")";
  }
}
