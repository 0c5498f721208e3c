/** What the task utilities ask of the game server and of other parts of the
    plugin. These are passed in as a Platform value instead of being looked up
    through the plugin singleton: the Material, DyeColor, EntityType and
    Enchantment registries, the quest-item registry, the item getter's material
    check, the legacy colour-code translator, character case folding and the
    text of a configuration section. */
module Host {
  import opened JavaLang
  import opened Config

  /** Enum constants, identified by their names. */
  datatype Material = Material(name: string)
  datatype DyeColor = DyeColor(name: string)
  datatype EntityType = EntityType(name: string)

  /** A placed block: its type and its legacy data byte. */
  datatype Block = Block(material: Material, data: int8)

  datatype Platform = Platform(
    getMaterial: string -> Option<Material>,  // Material.getMaterial (None for null)
    isBlock: Material -> bool,                 // Material.isBlock
    isItem: Material -> bool,                  // Material.isItem
    dyeColors: set<string>,                    // the names of the DyeColor constants
    entityTypes: set<string>,                  // the names of the EntityType constants
    enchantmentExists: string -> bool,         // Enchantment.getByName(name) != null
    questItemExists: string -> bool,           // the quest-item registry knows the id
    isValidMaterial: string -> bool,           // the item getter's isValidMaterial
    legacyColor: string -> string,             // Chat.legacyColor
    caseFold: char -> char,                    // the per-character case folding of equalsIgnoreCase
    sectionText: map<string, Value> -> string  // toString of a configuration section
  )

  /** DyeColor.valueOf: the constant with exactly that name, or
      IllegalArgumentException. */
  function DyeColorValueOf(p: Platform, name: string): (r: Result<DyeColor>)
    ensures r.Ok? <==> name in p.dyeColors
    ensures r.Ok? ==> r.value.name == name
    ensures r.Throws? ==> r.exception == IllegalArgument
  {
    if name in p.dyeColors then Ok(DyeColor(name)) else Throws(IllegalArgument)
  }

  /** EntityType.valueOf: the constant with exactly that name, or
      IllegalArgumentException. */
  function EntityTypeValueOf(p: Platform, name: string): (r: Result<EntityType>)
    ensures r.Ok? <==> name in p.entityTypes
    ensures r.Ok? ==> r.value.name == name
    ensures r.Throws? ==> r.exception == IllegalArgument
  {
    if name in p.entityTypes then Ok(EntityType(name)) else Throws(IllegalArgument)
  }

  /** String.valueOf(Object) on a configuration value: lists print as
      "[a, b]" like java.util.List, integers in decimal, null as "null". */
  function Show(p: Platform, v: Value): string
    decreases v
  {
    match v
    case CNull => "null"
    case CBool(b) => if b then "true" else "false"
    case CInt(i) => IntToString(i)
    case CStr(s) => s
    case CSection(entries) => p.sectionText(entries)
    case CList(items) =>
      "[" + JoinComma(seq(|items|, k requires 0 <= k < |items| => Show(p, items[k]))) + "]"
  }

  /** The elements joined with ", ", as AbstractCollection.toString does. */
  function JoinComma(parts: seq<string>): string
  {
    if parts == [] then ""
    else if |parts| == 1 then parts[0]
    else parts[0] + ", " + JoinComma(parts[1..])
  }

  /** String.valueOf leaves a string as it is and renders an Integer so that
      Integer.parseInt reads it back. */
  lemma ShowScalars(p: Platform, s: string, n: int32)
    ensures Show(p, CStr(s)) == s
    ensures ParseInt(Show(p, CInt(n))) == Some(n)
  {
    ParseIntToString(n);
  }

  /** The case folding applied to every character of a string. */
  function Fold(p: Platform, s: string): (r: string)
    ensures |r| == |s|
    ensures forall i :: 0 <= i < |s| ==> r[i] == p.caseFold(s[i])
  {
    seq(|s|, i requires 0 <= i < |s| => p.caseFold(s[i]))
  }

  /** String.equalsIgnoreCase, through the platform's case folding. */
  predicate EqualsIgnoreCase(p: Platform, a: string, b: string)
  {
    Fold(p, a) == Fold(p, b)
  }

  /** StringUtils.equals(a, b, ignoreCase) on two non-null strings. */
  predicate NameEquals(p: Platform, a: string, b: string, ignoreCase: bool)
  {
    if ignoreCase then EqualsIgnoreCase(p, a, b) else a == b
  }

  /** Ignoring case is an equivalence that relates every string to itself, so
      a case-sensitive match is also a case-insensitive one. */
  lemma EqualsIgnoreCaseIsEquivalence(p: Platform, a: string, b: string, c: string)
    ensures EqualsIgnoreCase(p, a, a)
    ensures EqualsIgnoreCase(p, a, b) ==> EqualsIgnoreCase(p, b, a)
    ensures EqualsIgnoreCase(p, a, b) && EqualsIgnoreCase(p, b, c) ==> EqualsIgnoreCase(p, a, c)
    ensures NameEquals(p, a, b, false) ==> NameEquals(p, a, b, true)
  {
  }

  /** Two strings equal up to case have the same length and agree on every
      character up to folding. */
  lemma EqualsIgnoreCaseCharwise(p: Platform, a: string, b: string)
    ensures EqualsIgnoreCase(p, a, b) <==>
              |a| == |b| && forall i :: 0 <= i < |a| ==> p.caseFold(a[i]) == p.caseFold(b[i])
  {
    if |a| == |b| && forall i :: 0 <= i < |a| ==> p.caseFold(a[i]) == p.caseFold(b[i]) {
      assert Fold(p, a) == Fold(p, b);
    }
  }
}
