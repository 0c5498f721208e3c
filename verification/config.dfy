/** Task configuration as the YAML loader hands it to the task utilities, and
    the accessors the matchers share (TaskUtils.getConfigStringList and the
    singular/plural key choice). */
module Config {
  import opened JavaLang

  /** A configuration value: null, Boolean, Integer, String, a nested
      configuration section, or a list. */
  datatype Value =
    | CNull
    | CBool(b: bool)
    | CInt(i: int32)
    | CStr(s: string)
    | CSection(entries: map<string, Value>)
    | CList(items: seq<Value>)

  /** A task's configuration. A key may be present with a null value, which
      containsKey sees and getConfigValue does not. */
  type Section = map<string, Value>

  /** Task.getConfigValue / Map.get: the value under key, null when absent. */
  function Get(config: Section, key: string): (v: Value)
    ensures key !in config ==> v == CNull
  {
    if key in config then config[key] else CNull
  }

  /** TaskUtils.getConfigStringList: a list is copied (List.copyOf refuses a
      null element), a string is a one-element list, anything else is absent.
      The elements are not checked to be strings here: the cast happens when a
      matcher reaches them. */
  function ConfigStringList(config: Section, key: string): (r: Result<Option<seq<Value>>>)
    ensures r.Throws? <==> Get(config, key).CList? && CNull in Get(config, key).items
    ensures r.Throws? ==> r.exception == NullPointer
    ensures r == Ok(None) <==> !Get(config, key).CList? && !Get(config, key).CStr?
    ensures Get(config, key).CStr? ==> r == Ok(Some([Get(config, key)]))
    ensures Get(config, key).CList? && r.Ok? ==> r == Ok(Some(Get(config, key).items))
    ensures r.Ok? && r.value.Some? ==> CNull !in r.value.value
  {
    match Get(config, key)
    case CList(items) => if CNull in items then Throws(NullPointer) else Ok(Some(items))
    case CStr(s) => Ok(Some([CStr(s)]))
    case _ => Ok(None)
  }

  /** The key a matcher reads: the singular key whenever the configuration
      contains it, even with a null value; otherwise the plural key. */
  function CriteriaKey(config: Section, singular: string, plural: string): (key: string)
    ensures key == singular <==> singular in config || singular == plural
    ensures key == singular || key == plural
  {
    if singular in config then singular else plural
  }

  /** The allow-list a matcher works from. */
  function CriteriaList(config: Section, singular: string, plural: string): Result<Option<seq<Value>>>
  {
    ConfigStringList(config, CriteriaKey(config, singular, plural))
  }

  /** Once the singular key is present, the plural key's value is never read. */
  lemma SingularKeyWins(config: Section, singular: string, plural: string, other: Value)
    requires singular in config && singular != plural
    ensures CriteriaList(config[plural := other], singular, plural) == CriteriaList(config, singular, plural)
  {
  }

  /** Without the singular key, the plural key decides alone. */
  lemma PluralKeyWhenSingularAbsent(config: Section, singular: string, plural: string)
    requires singular !in config
    ensures CriteriaList(config, singular, plural) == ConfigStringList(config, plural)
  {
  }

  /** A singular key present with a null value hides the plural key: the
      criterion reads as not configured. */
  lemma NullSingularHidesPlural(config: Section, singular: string, plural: string)
    requires singular in config && config[singular] == CNull && singular != plural
    ensures CriteriaList(config, singular, plural) == Ok(None)
  {
  }
}
