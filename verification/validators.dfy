/** The configuration validators TaskUtils hands to task types: the nine
    use*ConfigValidator factories and the MaterialListConfigValidatorMode
    enum. A validator looks up its paths in a task's configuration in order,
    checks only the first one that holds a value, and appends the problems it
    finds to a list the caller owns. */
module Validators {
  import opened JavaLang
  import opened Config
  import opened Host

  // ---------------------------------------------------------------------------
  // Problems

  datatype Severity = Error | Warning

  /** The entries of ConfigProblemDescriptions the validators use. */
  datatype DescriptionKind =
    | TaskMissingField
    | UnknownQuestItem
    | UnknownMaterial
    | UnknownDyeColor
    | UnknownEnchantment
    | NotAcceptedValue

  /** The text of a problem: a description or extended description taken from
      ConfigProblemDescriptions with its arguments (its wording is not part of
      this model), or literal text. */
  datatype Text =
    | Description(kind: DescriptionKind, args: seq<string>)
    | ExtendedDescription(kind: DescriptionKind, args: seq<string>)
    | Literal(text: string)

  /** ConfigProblem: severity, description, optional extended description and
      the configuration path it is about. */
  datatype ConfigProblem = ConfigProblem(severity: Severity, description: Text, extendedDescription: Option<Text>, location: string)

  /** A warning worded by one ConfigProblemDescriptions entry. */
  function Warn(kind: DescriptionKind, args: seq<string>, location: string): ConfigProblem
  {
    ConfigProblem(Warning, Description(kind, args), Some(ExtendedDescription(kind, args)), location)
  }

  /** What running a validator leaves behind: the problems it appended to the
      caller's list and the exception it threw, if any. Problems appended
      before a throw stay in the list. */
  datatype Outcome = Outcome(problems: seq<ConfigProblem>, thrown: Option<Exception>)

  /** A run that returns normally after appending some problems. */
  function Returns(problems: seq<ConfigProblem>): Outcome
  {
    Outcome(problems, None)
  }

  /** The caller-owned list problems are appended to. */
  class ProblemSink {
    var problems: seq<ConfigProblem>

    constructor ()
      ensures problems == []
    {
      problems := [];
    }

    method Add(problem: ConfigProblem)
      modifies this
      ensures problems == old(problems) + [problem]
    {
      problems := problems + [problem];
    }
  }

  // ---------------------------------------------------------------------------
  // Validators

  /** MaterialListConfigValidatorMode. */
  datatype MaterialListMode = AnyMaterial | BlockMaterial | ItemMaterial

  /** MaterialListConfigValidatorMode.isValid. */
  predicate ModeAccepts(p: Platform, mode: MaterialListMode, material: Material)
  {
    match mode
    case AnyMaterial => true
    case BlockMaterial => p.isBlock(material)
    case ItemMaterial => p.isItem(material)
  }

  /** Which factory built a validator, with that factory's extra argument. */
  datatype ValidatorKind =
    | Required
    | ItemStackValue
    | IntegerValue
    | BooleanValue
    | MaterialList(mode: MaterialListMode)
    | DyeColorList
    | EntityList
    | EnchantmentList
    | AcceptedValues(acceptedValues: seq<string>)

  /** The closure a factory returns: the task type it validates for, what it
      checks and the paths it looks at, in order. */
  datatype ConfigValidator = ConfigValidator(taskType: string, kind: ValidatorKind, paths: seq<string>)

  function UseRequiredConfigValidator(taskType: string, paths: seq<string>): ConfigValidator
  { ConfigValidator(taskType, Required, paths) }

  function UseItemStackConfigValidator(taskType: string, paths: seq<string>): ConfigValidator
  { ConfigValidator(taskType, ItemStackValue, paths) }

  function UseIntegerConfigValidator(taskType: string, paths: seq<string>): ConfigValidator
  { ConfigValidator(taskType, IntegerValue, paths) }

  function UseBooleanConfigValidator(taskType: string, paths: seq<string>): ConfigValidator
  { ConfigValidator(taskType, BooleanValue, paths) }

  function UseMaterialListConfigValidator(taskType: string, mode: MaterialListMode, paths: seq<string>): ConfigValidator
  { ConfigValidator(taskType, MaterialList(mode), paths) }

  function UseDyeColorConfigValidator(taskType: string, paths: seq<string>): ConfigValidator
  { ConfigValidator(taskType, DyeColorList, paths) }

  function UseEntityListConfigValidator(taskType: string, paths: seq<string>): ConfigValidator
  { ConfigValidator(taskType, EntityList, paths) }

  function UseEnchantmentListConfigValidator(taskType: string, paths: seq<string>): ConfigValidator
  { ConfigValidator(taskType, EnchantmentList, paths) }

  function UseAcceptedValuesConfigValidator(taskType: string, acceptedValues: seq<string>, paths: seq<string>): ConfigValidator
  { ConfigValidator(taskType, AcceptedValues(acceptedValues), paths) }

  predicate IsListKind(kind: ValidatorKind)
  {
    kind.MaterialList? || kind.DyeColorList? || kind.EntityList? || kind.EnchantmentList?
  }

  // ---------------------------------------------------------------------------
  // Which path is checked

  predicate AbsentBefore(config: Section, paths: seq<string>, i: int)
    requires 0 <= i <= |paths|
  {
    forall j :: 0 <= j < i ==> Get(config, paths[j]) == CNull
  }

  /** The index of the first path holding a value, looking from index `from`. */
  function FirstPresentFrom(config: Section, paths: seq<string>, from: nat): (r: Option<nat>)
    requires from <= |paths|
    ensures r.Some? ==> from <= r.value < |paths| && Get(config, paths[r.value]) != CNull
    ensures r.Some? ==> forall j :: from <= j < r.value ==> Get(config, paths[j]) == CNull
    ensures r.None? ==> forall j :: from <= j < |paths| ==> Get(config, paths[j]) == CNull
    decreases |paths| - from
  {
    if from == |paths| then None
    else if Get(config, paths[from]) != CNull then Some(from)
    else FirstPresentFrom(config, paths, from + 1)
  }

  /** The index of the first path holding a value, if any. */
  function FirstPresent(config: Section, paths: seq<string>): (r: Option<nat>)
    ensures r.Some? ==> r.value < |paths| && Get(config, paths[r.value]) != CNull && AbsentBefore(config, paths, r.value)
    ensures r.None? ==> AbsentBefore(config, paths, |paths|)
  {
    FirstPresentFrom(config, paths, 0)
  }

  // ---------------------------------------------------------------------------
  // What is checked at the path found

  /** The values a list validator checks: each element of a list, or the one
      value, each rendered by String.valueOf. */
  function Elements(p: Platform, value: Value): (r: seq<string>)
    ensures value.CList? ==> |r| == |value.items|
    ensures value.CList? ==> forall k :: 0 <= k < |r| ==> r[k] == Show(p, value.items[k])
    ensures !value.CList? ==> r == [Show(p, value)]
  {
    if value.CList? then seq(|value.items|, k requires 0 <= k < |value.items| => Show(p, value.items[k]))
    else [Show(p, value)]
  }

  /** Whether a material list entry fails, judged on the text before its first
      colon: that text must name a material the mode accepts. This is the
      check the validator evidently intends; it differs from the check as
      written only on entries made only of colons. */
  predicate MaterialEntryFails(p: Platform, mode: MaterialListMode, name: string)
  {
    var material := p.getMaterial(SplitAtFirstColon(name).0);
    material.None? || !ModeAccepts(p, mode, material.value)
  }

  /** The same check as written with `name.split(":")[0]`, which throws
      ArrayIndexOutOfBoundsException when the entry is made only of colons. */
  function MaterialEntryFailsAsWritten(p: Platform, mode: MaterialListMode, name: string): Result<bool>
  {
    match SplitHeadAsWritten(name)
    case None => Throws(IndexOutOfBounds)
    case Some(head) =>
      var material := p.getMaterial(head);
      Ok(material.None? || !ModeAccepts(p, mode, material.value))
  }

  /** Whether a list validator reports an element, with the intended
      material check. */
  predicate ElementFails(p: Platform, kind: ValidatorKind, name: string)
    requires IsListKind(kind)
  {
    match kind
    case MaterialList(mode) => MaterialEntryFails(p, mode, name)
    case DyeColorList => DyeColorValueOf(p, name).Throws?
    case EntityList => EntityTypeValueOf(p, name).Throws?
    case EnchantmentList => !p.enchantmentExists(name)
  }

  /** The description a list validator reports an element with; the entity
      list validator uses the unknown-material text. */
  function ElementDescription(kind: ValidatorKind): DescriptionKind
    requires IsListKind(kind)
  {
    match kind
    case MaterialList(_) => UnknownMaterial
    case DyeColorList => UnknownDyeColor
    case EntityList => UnknownMaterial
    case EnchantmentList => UnknownEnchantment
  }

  /** One warning per failing element, in element order: what a list
      validator appends when no element makes it throw. */
  function ListProblems(p: Platform, kind: ValidatorKind, path: string, names: seq<string>): seq<ConfigProblem>
    requires IsListKind(kind)
  {
    if names == [] then []
    else
      var name := names[|names| - 1];
      ListProblems(p, kind, path, names[..|names| - 1]) +
        (if ElementFails(p, kind, name) then [Warn(ElementDescription(kind), [name], path)] else [])
  }

  /** The lookup a list validator makes for one element, as written: a
      material list judges `name.split(":")[0]`, which throws on an entry made
      only of colons. */
  function ElementCheck(p: Platform, kind: ValidatorKind, name: string): Result<bool>
    requires IsListKind(kind)
  {
    match kind
    case MaterialList(mode) => MaterialEntryFailsAsWritten(p, mode, name)
    case _ => Ok(ElementFails(p, kind, name))
  }

  /** The elements on which the written lookup throws. */
  predicate Throwing(kind: ValidatorKind, name: string)
  {
    kind.MaterialList? && name != "" && OnlyColons(name)
  }

  /** The element loop of a list validator as written: one warning per
      failing element, in order, until an element makes the lookup throw. */
  function ListOutcome(p: Platform, kind: ValidatorKind, path: string, names: seq<string>): (r: Outcome)
    requires IsListKind(kind)
    ensures r.thrown.Some? ==> r.thrown == Some(IndexOutOfBounds) && kind.MaterialList?
  {
    if names == [] then Returns([])
    else
      var before := ListOutcome(p, kind, path, names[..|names| - 1]);
      var name := names[|names| - 1];
      if before.thrown.Some? then before
      else
        match ElementCheck(p, kind, name)
        case Throws(e) => Outcome(before.problems, Some(e))
        case Ok(fails) =>
          Returns(before.problems + (if fails then [Warn(ElementDescription(kind), [name], path)] else []))
  }

  /** Whether a configuration section contains a key: present and not null. */
  predicate Contains(section: map<string, Value>, key: string)
  {
    key in section && section[key] != CNull
  }

  /** The item-stack validator at a path holding a value. */
  function ItemStackProblems(p: Platform, path: string, value: Value): seq<ConfigProblem>
  {
    if value.CSection? then
      var section := value.entries;
      if Contains(section, "quest-item") then
        var itemType := Show(p, section["quest-item"]);
        if p.questItemExists(itemType) then [] else [Warn(UnknownQuestItem, [itemType], path + ".quest-item")]
      else
        var materialLoc := if Contains(section, "item") then "item" else "type";
        if !Contains(section, materialLoc) then [Warn(UnknownMaterial, [""], path + ".type")]
        else
          var material := Show(p, section[materialLoc]);
          if p.isValidMaterial(material) then [] else [Warn(UnknownMaterial, [material], path + "." + materialLoc)]
    else
      var material := Show(p, value);
      if p.getMaterial(material).None? then [Warn(UnknownMaterial, [material], path)] else []
  }

  /** The problem the integer or boolean validator reports for a value of the
      wrong type. */
  function TypeProblem(expected: string, path: string, shown: string): ConfigProblem
  {
    ConfigProblem(Error, Literal("Expected " + expected + " for '" + path + "', but got '" + shown + "' instead"), None, path)
  }

  /** The extended description of a value that is not accepted. */
  function AcceptedListing(acceptedValues: seq<string>): string
  {
    "The accepted values are:" + Bullets(acceptedValues)
  }

  function Bullets(values: seq<string>): string
  {
    if values == [] then "" else Bullets(values[..|values| - 1]) + "<br> - " + values[|values| - 1]
  }

  /** What a validator does with the value at the path it checks. */
  function OutcomeAt(p: Platform, v: ConfigValidator, path: string, value: Value): Outcome
  {
    match v.kind
    case Required => Returns([])
    case ItemStackValue => Returns(ItemStackProblems(p, path, value))
    case IntegerValue => Returns(if value.CInt? then [] else [TypeProblem("an integer", path, Show(p, value))])
    case BooleanValue => Returns(if value.CBool? then [] else [TypeProblem("a boolean", path, Show(p, value))])
    case AcceptedValues(accepted) =>
      if Show(p, value) in accepted then Returns([])
      else Returns([ConfigProblem(Warning, Description(NotAcceptedValue, [Show(p, value), v.taskType]),
                                  Some(Literal(AcceptedListing(accepted))), path)])
    case _ => ListOutcome(p, v.kind, path, Elements(p, value))
  }

  /** The problem the required validator reports when no path holds a value. */
  function MissingField(v: ConfigValidator): ConfigProblem
    requires |v.paths| > 0
  {
    ConfigProblem(Error, Description(TaskMissingField, [v.paths[0], v.taskType]),
                  Some(ExtendedDescription(TaskMissingField, [v.paths[0], v.taskType])), v.paths[0])
  }

  /** What running a validator on a configuration appends, and the exception
      it throws, if any. Only two validators can throw, and only
      ArrayIndexOutOfBoundsException: the required validator without paths
      (it reads paths[0]) and the material-list validator. */
  function Check(p: Platform, v: ConfigValidator, config: Section): (r: Outcome)
    ensures r.thrown.Some? ==>
              r.thrown == Some(IndexOutOfBounds) && ((v.kind.Required? && v.paths == []) || v.kind.MaterialList?)
  {
    match FirstPresent(config, v.paths)
    case Some(i) => OutcomeAt(p, v, v.paths[i], Get(config, v.paths[i]))
    case None =>
      if !v.kind.Required? then Returns([])
      else if |v.paths| == 0 then Outcome([], Some(IndexOutOfBounds))
      else Returns([MissingField(v)])
  }

  // ---------------------------------------------------------------------------
  // The validator closures

  /** Running a validator: `problems` is the caller's list. */
  method Validate(p: Platform, v: ConfigValidator, config: Section, problems: ProblemSink) returns (thrown: Option<Exception>)
    modifies problems
    ensures problems.problems == old(problems.problems) + Check(p, v, config).problems
    ensures thrown == Check(p, v, config).thrown
  {
    var i := 0;
    while i < |v.paths|
      invariant 0 <= i <= |v.paths|
      invariant FirstPresent(config, v.paths) == FirstPresentFrom(config, v.paths, i)
      invariant problems.problems == old(problems.problems)
    {
      var path := v.paths[i];
      var value := Get(config, path);
      if value != CNull {
        thrown := AddProblemsAt(p, v, path, value, problems);
        return;
      }
      i := i + 1;
    }
    if v.kind.Required? {
      if |v.paths| == 0 {
        return Some(IndexOutOfBounds);
      }
      problems.Add(MissingField(v));
    }
    return None;
  }

  /** The checks a validator makes once it has found a value. */
  method AddProblemsAt(p: Platform, v: ConfigValidator, path: string, value: Value, problems: ProblemSink)
      returns (thrown: Option<Exception>)
    modifies problems
    ensures problems.problems == old(problems.problems) + OutcomeAt(p, v, path, value).problems
    ensures thrown == OutcomeAt(p, v, path, value).thrown
  {
    thrown := None;
    match v.kind {
      case Required =>
      case ItemStackValue =>
        var found := ItemStackProblems(p, path, value);
        if found != [] {
          problems.Add(found[0]);
          assert found == [found[0]];
        }
      case IntegerValue =>
        if !value.CInt? {
          problems.Add(TypeProblem("an integer", path, Show(p, value)));
        }
      case BooleanValue =>
        if !value.CBool? {
          problems.Add(TypeProblem("a boolean", path, Show(p, value)));
        }
      case AcceptedValues(accepted) =>
        var shown := Show(p, value);
        if shown !in accepted {
          var extendedDescription := ListAccepted(accepted);
          problems.Add(ConfigProblem(Warning, Description(NotAcceptedValue, [shown, v.taskType]),
                                     Some(Literal(extendedDescription)), path));
        }
      case _ =>
        var names := Elements(p, value);
        thrown := AddListProblems(p, v.kind, path, names, problems);
    }
  }

  /** The accepted-values validator's extended description, built element
      by element. */
  method ListAccepted(accepted: seq<string>) returns (extendedDescription: string)
    ensures extendedDescription == AcceptedListing(accepted)
  {
    extendedDescription := "The accepted values are:";
    for k := 0 to |accepted|
      invariant extendedDescription == "The accepted values are:" + Bullets(accepted[..k])
    {
      assert accepted[..k + 1][..k] == accepted[..k];
      extendedDescription := extendedDescription + "<br> - " + accepted[k];
    }
    assert accepted[..|accepted|] == accepted;
  }

  /** The element loop of the list validators. */
  method AddListProblems(p: Platform, kind: ValidatorKind, path: string, names: seq<string>, problems: ProblemSink)
      returns (thrown: Option<Exception>)
    requires IsListKind(kind)
    modifies problems
    ensures problems.problems == old(problems.problems) + ListOutcome(p, kind, path, names).problems
    ensures thrown == ListOutcome(p, kind, path, names).thrown
  {
    for k := 0 to |names|
      invariant ListOutcome(p, kind, path, names[..k]).thrown.None?
      invariant problems.problems == old(problems.problems) + ListOutcome(p, kind, path, names[..k]).problems
    {
      assert names[..k + 1][..k] == names[..k];
      var name := names[k];
      var check := CheckElement(p, kind, name);
      if check.Throws? {
        ListOutcomeThrownStays(p, kind, path, names, k + 1);
        return Some(check.exception);
      }
      if check.value {
        problems.Add(Warn(ElementDescription(kind), [name], path));
      }
    }
    assert names[..|names|] == names;
    return None;
  }

  /** The per-element check of a list validator's loop, as written. */
  method CheckElement(p: Platform, kind: ValidatorKind, name: string) returns (r: Result<bool>)
    requires IsListKind(kind)
    ensures r == ElementCheck(p, kind, name)
  {
    match kind {
      case MaterialList(mode) =>
        var head := SplitHeadAsWritten(name);
        if head.None? {
          return Throws(IndexOutOfBounds);
        }
        var material := p.getMaterial(head.value);
        r := Ok(material.None? || !ModeAccepts(p, mode, material.value));
      case DyeColorList =>
        r := Ok(DyeColorValueOf(p, name).Throws?);
      case EntityList =>
        r := Ok(EntityTypeValueOf(p, name).Throws?);
      case EnchantmentList =>
        r := Ok(!p.enchantmentExists(name));
    }
  }

  // ---------------------------------------------------------------------------
  // Properties

  /** A validator looks at no path after the first one holding a value: any
      configuration that agrees up to that path gets the same verdict. */
  lemma LaterPathsIgnored(p: Platform, v: ConfigValidator, config: Section, other: Section, i: nat)
    requires FirstPresent(config, v.paths) == Some(i)
    requires forall j :: 0 <= j <= i ==> Get(other, v.paths[j]) == Get(config, v.paths[j])
    ensures FirstPresent(other, v.paths) == Some(i)
    ensures Check(p, v, other) == Check(p, v, config)
  {
  }

  /** The required validator reports exactly one ERROR, about paths[0], when no
      path holds a value, and nothing otherwise. */
  lemma RequiredRule(p: Platform, taskType: string, paths: seq<string>, config: Section)
    requires |paths| > 0
    ensures var v := UseRequiredConfigValidator(taskType, paths);
            && Check(p, v, config).thrown.None?
            && (AbsentBefore(config, paths, |paths|) <==> Check(p, v, config).problems != [])
            && (AbsentBefore(config, paths, |paths|) ==>
                  Check(p, v, config).problems ==
                    [ConfigProblem(Error, Description(TaskMissingField, [paths[0], taskType]),
                                   Some(ExtendedDescription(TaskMissingField, [paths[0], taskType])), paths[0])])
  {
    var r := FirstPresent(config, paths);
    if r.Some? {
      assert !AbsentBefore(config, paths, |paths|) by { assert Get(config, paths[r.value]) != CNull; }
    }
  }

  /** A required validator without paths throws instead of reporting. */
  lemma RequiredWithoutPathsThrows(p: Platform, taskType: string, config: Section)
    ensures Check(p, UseRequiredConfigValidator(taskType, []), config) == Outcome([], Some(IndexOutOfBounds))
  {
  }

  /** Every validator other than the required one is silent when no path
      holds a value. */
  lemma AbsentIsSilent(p: Platform, v: ConfigValidator, config: Section)
    requires !v.kind.Required? && AbsentBefore(config, v.paths, |v.paths|)
    ensures Check(p, v, config) == Returns([])
  {
  }

  /** The integer and boolean validators report one ERROR, about the path
      found, exactly when the value there has the wrong type. */
  lemma TypeRule(p: Platform, v: ConfigValidator, config: Section)
    requires v.kind.IntegerValue? || v.kind.BooleanValue?
    ensures Check(p, v, config).thrown.None? && |Check(p, v, config).problems| <= 1
    ensures forall i :: FirstPresent(config, v.paths) == Some(i) ==>
              var value := Get(config, v.paths[i]);
              var wrong := if v.kind.IntegerValue? then !value.CInt? else !value.CBool?;
              && (wrong <==> |Check(p, v, config).problems| == 1)
              && (wrong ==> Check(p, v, config).problems[0].severity == Error &&
                            Check(p, v, config).problems[0].location == v.paths[i])
  {
  }

  /** The item-stack validator reports at most one WARNING. A section naming
      a registered quest item, a section whose `item` (or else `type`) names a
      valid material, and a value naming a material are all accepted. */
  lemma ItemStackRule(p: Platform, path: string, value: Value)
    ensures |ItemStackProblems(p, path, value)| <= 1
    ensures forall q :: q in ItemStackProblems(p, path, value) ==> q.severity == Warning
    ensures value.CSection? && Contains(value.entries, "quest-item") ==>
              (ItemStackProblems(p, path, value) == [] <==> p.questItemExists(Show(p, value.entries["quest-item"])))
    ensures value.CSection? && !Contains(value.entries, "quest-item") && Contains(value.entries, "item") ==>
              (ItemStackProblems(p, path, value) == [] <==> p.isValidMaterial(Show(p, value.entries["item"])))
    ensures value.CSection? && !Contains(value.entries, "quest-item") && !Contains(value.entries, "item") ==>
              (ItemStackProblems(p, path, value) == [] <==>
                 Contains(value.entries, "type") && p.isValidMaterial(Show(p, value.entries["type"])))
    ensures !value.CSection? ==>
              (ItemStackProblems(p, path, value) == [] <==> p.getMaterial(Show(p, value)).Some?)
  {
  }

  predicate NoneFail(p: Platform, kind: ValidatorKind, names: seq<string>)
    requires IsListKind(kind)
  {
    forall k :: 0 <= k < |names| ==> !ElementFails(p, kind, names[k])
  }

  predicate AllFail(p: Platform, kind: ValidatorKind, names: seq<string>)
    requires IsListKind(kind)
  {
    forall k :: 0 <= k < |names| ==> ElementFails(p, kind, names[k])
  }

  /** A list validator reports one WARNING, about the path, for each element
      that fails its lookup and for no other: an element is named by a
      warning iff it is listed and fails, there are no warnings iff no element
      fails, and as many warnings as elements iff all fail. */
  lemma ListRule(p: Platform, kind: ValidatorKind, path: string, names: seq<string>)
    requires IsListKind(kind)
    ensures var problems := ListProblems(p, kind, path, names);
            && |problems| <= |names|
            && (forall q :: q in problems ==> q.severity == Warning && q.location == path)
            && (forall name :: Warn(ElementDescription(kind), [name], path) in problems <==>
                                name in names && ElementFails(p, kind, name))
            && (problems == [] <==> NoneFail(p, kind, names))
            && (|problems| == |names| <==> AllFail(p, kind, names))
  {
    ListWarnings(p, kind, path, names);
    forall name ensures Warn(ElementDescription(kind), [name], path) in ListProblems(p, kind, path, names) <==>
                        name in names && ElementFails(p, kind, name)
    {
      ListNamesFailing(p, kind, path, names, name);
    }
    ListCounts(p, kind, path, names);
  }

  /** Every problem a list validator reports is a WARNING about the path, and
      there are no more of them than elements. */
  lemma {:induction false} ListWarnings(p: Platform, kind: ValidatorKind, path: string, names: seq<string>)
    requires IsListKind(kind)
    ensures |ListProblems(p, kind, path, names)| <= |names|
    ensures forall q :: q in ListProblems(p, kind, path, names) ==> q.severity == Warning && q.location == path
  {
    if names != [] {
      ListWarnings(p, kind, path, names[..|names| - 1]);
    }
  }

  /** An element is named by a warning iff it is listed and fails. */
  lemma {:induction false} ListNamesFailing(p: Platform, kind: ValidatorKind, path: string, names: seq<string>, name: string)
    requires IsListKind(kind)
    ensures Warn(ElementDescription(kind), [name], path) in ListProblems(p, kind, path, names) <==>
              name in names && ElementFails(p, kind, name)
  {
    if names != [] {
      var init := names[..|names| - 1];
      var last := names[|names| - 1];
      assert names == init + [last];
      ListNamesFailing(p, kind, path, init, name);
    }
  }

  /** No warnings iff no element fails; one per element iff every element fails. */
  lemma {:induction false} ListCounts(p: Platform, kind: ValidatorKind, path: string, names: seq<string>)
    requires IsListKind(kind)
    ensures ListProblems(p, kind, path, names) == [] <==> NoneFail(p, kind, names)
    ensures |ListProblems(p, kind, path, names)| == |names| <==> AllFail(p, kind, names)
  {
    if names != [] {
      var init := names[..|names| - 1];
      var last := names[|names| - 1];
      ListCounts(p, kind, path, init);
      ListWarnings(p, kind, path, init);
      assert forall k :: 0 <= k < |init| ==> init[k] == names[k];
      if NoneFail(p, kind, init) && !ElementFails(p, kind, last) {
        assert NoneFail(p, kind, names);
      }
      if AllFail(p, kind, init) && ElementFails(p, kind, last) {
        assert AllFail(p, kind, names);
      }
    }
  }

  /** A present but empty list is checked and passes: no later path is looked
      at and nothing is reported. */
  lemma EmptyListIsSilent(p: Platform, v: ConfigValidator, config: Section, i: nat)
    requires IsListKind(v.kind) && FirstPresent(config, v.paths) == Some(i)
    requires Get(config, v.paths[i]) == CList([])
    ensures Check(p, v, config) == Returns([])
  {
  }

  /** A single value is checked as a one-element list of its rendering. */
  lemma ScalarIsOneElementList(p: Platform, v: ConfigValidator, path: string, value: Value)
    requires IsListKind(v.kind) && !value.CList?
    ensures OutcomeAt(p, v, path, value) == OutcomeAt(p, v, path, CList([value]))
  {
    assert Elements(p, CList([value])) == [Show(p, value)];
  }

  /** In BLOCK mode, with STONE a block and DIAMOND_SWORD not, the list
      ["DIAMOND_SWORD", "STONE"] gets exactly one warning, naming the sword. */
  lemma BlockModeExample(p: Platform, path: string)
    requires p.getMaterial("DIAMOND_SWORD") == Some(Material("DIAMOND_SWORD"))
    requires p.getMaterial("STONE") == Some(Material("STONE"))
    requires p.isBlock(Material("STONE")) && !p.isBlock(Material("DIAMOND_SWORD"))
    ensures ListProblems(p, MaterialList(BlockMaterial), path, ["DIAMOND_SWORD", "STONE"]) ==
            [Warn(UnknownMaterial, ["DIAMOND_SWORD"], path)]
  {
    assert ':' !in "DIAMOND_SWORD" by { assert forall i :: 0 <= i < 13 ==> "DIAMOND_SWORD"[i] != ':'; }
    assert ':' !in "STONE" by { assert forall i :: 0 <= i < 5 ==> "STONE"[i] != ':'; }
    var kind := MaterialList(BlockMaterial);
    assert ElementFails(p, kind, "DIAMOND_SWORD");
    assert !ElementFails(p, kind, "STONE");
    var names := ["DIAMOND_SWORD", "STONE"];
    assert names[..1] == ["DIAMOND_SWORD"];
    assert ["DIAMOND_SWORD"][..0] == [];
    assert ListProblems(p, kind, path, ["DIAMOND_SWORD"]) == [Warn(UnknownMaterial, ["DIAMOND_SWORD"], path)];
  }

  /** The accepted-values validator reports exactly one WARNING, about the
      path found, iff the rendered value is not accepted; its extended
      description is the accepted-values listing. */
  lemma AcceptedValuesRule(p: Platform, v: ConfigValidator, config: Section, i: nat)
    requires v.kind.AcceptedValues? && FirstPresent(config, v.paths) == Some(i)
    ensures var value := Get(config, v.paths[i]);
            && Check(p, v, config).thrown.None?
            && (Show(p, value) !in v.kind.acceptedValues <==> |Check(p, v, config).problems| == 1)
            && (Show(p, value) in v.kind.acceptedValues <==> Check(p, v, config).problems == [])
            && (Show(p, value) !in v.kind.acceptedValues ==>
                  Check(p, v, config).problems[0] ==
                    ConfigProblem(Warning, Description(NotAcceptedValue, [Show(p, value), v.taskType]),
                                  Some(Literal(AcceptedListing(v.kind.acceptedValues))), v.paths[i]))
  {
  }

  /** Where the bullet of the k-th accepted value starts in the listing. */
  function BulletOffset(values: seq<string>, k: nat): nat
    requires k <= |values|
  {
    |"The accepted values are:"| + |Bullets(values[..k])|
  }

  lemma {:induction false} BulletsPrefix(values: seq<string>, k: nat)
    requires k <= |values|
    ensures Bullets(values[..k]) <= Bullets(values)
    decreases |values| - k
  {
    if k < |values| {
      BulletsPrefix(values, k + 1);
      assert values[..k + 1][..k] == values[..k];
      assert Bullets(values[..k + 1]) == Bullets(values[..k]) + "<br> - " + values[k];
    } else {
      assert values[..k] == values;
    }
  }

  /** The listing shows every accepted value, each after its own "<br> - ",
      in the order given. */
  lemma AcceptedListingShowsAll(values: seq<string>, k: nat)
    requires k < |values|
    ensures var listing := AcceptedListing(values);
            var at := BulletOffset(values, k);
            && at + 7 + |values[k]| <= |listing|
            && listing[at..at + 7 + |values[k]|] == "<br> - " + values[k]
            && BulletOffset(values, k) + 7 + |values[k]| == BulletOffset(values, k + 1)
  {
    BulletsPrefix(values, k + 1);
    assert values[..k + 1][..k] == values[..k];
    var bullet := "<br> - " + values[k];
    assert Bullets(values[..k + 1]) == Bullets(values[..k]) + bullet;
    SliceAfterPrefix("The accepted values are:", Bullets(values), Bullets(values[..k]), bullet);
  }

  /** In h + all, where all starts with x + y, y sits right after h + x. */
  lemma SliceAfterPrefix(h: string, all: string, x: string, y: string)
    requires x + y <= all
    ensures |h| + |x| + |y| <= |h + all|
    ensures (h + all)[|h| + |x|..|h| + |x| + |y|] == y
  {
    var s := h + all;
    var lo := |h| + |x|;
    forall i | 0 <= i < |y|
      ensures s[lo + i] == y[i]
    {
      assert s[lo + i] == all[|x| + i];
      assert all[|x| + i] == (x + y)[|x| + i];
    }
  }

  // ---------------------------------------------------------------------------
  // Material specs made only of colons

  /** As written, the material list validator throws on the entry ":" instead
      of reporting it. */
  lemma ColonEntryThrowsAsWritten(p: Platform, mode: MaterialListMode)
    ensures MaterialEntryFailsAsWritten(p, mode, ":") == Throws(IndexOutOfBounds)
    ensures MaterialEntryFailsAsWritten(p, mode, "::") == Throws(IndexOutOfBounds)
  {
    SplitHeadAsWrittenCases(":");
    SplitHeadAsWrittenCases("::");
  }

  /** The check as written and the intended check agree on every entry that
      is not made only of colons; on those the written check throws, and the
      intended one looks up the empty name. */
  lemma MaterialEntryAsWrittenAgrees(p: Platform, mode: MaterialListMode, name: string)
    ensures MaterialEntryFailsAsWritten(p, mode, name).Throws? <==> name != "" && OnlyColons(name)
    ensures MaterialEntryFailsAsWritten(p, mode, name).Ok? ==>
              MaterialEntryFailsAsWritten(p, mode, name).value == MaterialEntryFails(p, mode, name)
    ensures name != "" && OnlyColons(name) ==>
              (MaterialEntryFails(p, mode, name) <==>
                 p.getMaterial("").None? || !ModeAccepts(p, mode, p.getMaterial("").value))
  {
    SplitHeadAsWrittenCases(name);
    if name != "" && OnlyColons(name) {
      assert name[0] == ':';
      assert ':' in name;
      assert SplitAtFirstColon(name).0 == "";
    }
  }

  /** The per-element lookup as written throws exactly on the entries made
      only of colons of a material list, always with
      ArrayIndexOutOfBoundsException, and otherwise decides as the intended
      check does. */
  lemma ElementCheckAgrees(p: Platform, kind: ValidatorKind, name: string)
    requires IsListKind(kind)
    ensures ElementCheck(p, kind, name).Throws? <==> Throwing(kind, name)
    ensures ElementCheck(p, kind, name).Throws? ==> ElementCheck(p, kind, name).exception == IndexOutOfBounds
    ensures ElementCheck(p, kind, name).Ok? ==> ElementCheck(p, kind, name).value == ElementFails(p, kind, name)
  {
    if kind.MaterialList? {
      MaterialEntryAsWrittenAgrees(p, kind.mode, name);
    }
  }

  predicate NoneThrow(kind: ValidatorKind, names: seq<string>)
  {
    forall k :: 0 <= k < |names| ==> !Throwing(kind, names[k])
  }

  /** Once an element has thrown, the later elements are never looked at. */
  lemma {:induction false} ListOutcomeThrownStays(p: Platform, kind: ValidatorKind, path: string, names: seq<string>, k: nat)
    requires IsListKind(kind) && k <= |names|
    requires ListOutcome(p, kind, path, names[..k]).thrown.Some?
    ensures ListOutcome(p, kind, path, names) == ListOutcome(p, kind, path, names[..k])
    decreases |names|
  {
    if k < |names| {
      var init := names[..|names| - 1];
      assert init[..k] == names[..k];
      ListOutcomeThrownStays(p, kind, path, init, k);
    } else {
      assert names[..k] == names;
    }
  }

  /** With no entry made only of colons, the loop as written returns normally
      and appends exactly the problems of the intended check. */
  lemma {:induction false} ListOutcomeWithoutThrow(p: Platform, kind: ValidatorKind, path: string, names: seq<string>)
    requires IsListKind(kind) && NoneThrow(kind, names)
    ensures ListOutcome(p, kind, path, names) == Returns(ListProblems(p, kind, path, names))
  {
    if names != [] {
      var init := names[..|names| - 1];
      assert NoneThrow(kind, init) by {
        assert forall k :: 0 <= k < |init| ==> init[k] == names[k];
      }
      ListOutcomeWithoutThrow(p, kind, path, init);
      ElementCheckAgrees(p, kind, names[|names| - 1]);
    }
  }

  /** At the first entry made only of colons the loop as written throws
      ArrayIndexOutOfBoundsException, leaving the warnings for the entries
      before it in the caller's list. */
  lemma ListOutcomeAtThrow(p: Platform, kind: ValidatorKind, path: string, names: seq<string>, j: nat)
    requires IsListKind(kind) && j < |names|
    requires NoneThrow(kind, names[..j]) && Throwing(kind, names[j])
    ensures ListOutcome(p, kind, path, names) == Outcome(ListProblems(p, kind, path, names[..j]), Some(IndexOutOfBounds))
  {
    ListOutcomeWithoutThrow(p, kind, path, names[..j]);
    ElementCheckAgrees(p, kind, names[j]);
    assert names[..j + 1][..j] == names[..j];
    ListOutcomeThrownStays(p, kind, path, names, j + 1);
  }

  /** A material list ["BAD", ":"] where BAD is no material: the warning for
      BAD is appended, then the validator throws on ":". */
  lemma ColonAfterUnknownExample(p: Platform, taskType: string)
    requires p.getMaterial("BAD").None?
    ensures Check(p, UseMaterialListConfigValidator(taskType, AnyMaterial, ["blocks"]),
                  map["blocks" := CList([CStr("BAD"), CStr(":")])]) ==
            Outcome([Warn(UnknownMaterial, ["BAD"], "blocks")], Some(IndexOutOfBounds))
  {
    var kind := MaterialList(AnyMaterial);
    var names := ["BAD", ":"];
    assert Elements(p, CList([CStr("BAD"), CStr(":")])) == names;
    assert ':' !in "BAD" by { assert forall i :: 0 <= i < 3 ==> "BAD"[i] != ':'; }
    assert !Throwing(kind, "BAD") by { assert "BAD"[0] != ':'; }
    assert names[..1] == ["BAD"];
    assert NoneThrow(kind, names[..1]);
    ListOutcomeAtThrow(p, kind, "blocks", names, 1);
    assert ["BAD"][..0] == [];
    assert ListProblems(p, kind, "blocks", ["BAD"]) == [Warn(UnknownMaterial, ["BAD"], "blocks")];
  }
}
