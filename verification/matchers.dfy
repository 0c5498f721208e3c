/** The criteria matchers of TaskUtils: matchBlock, matchColorable,
    matchEntity and matchName. Each reads an allow-list from the task's
    configuration (singular key first, then plural), treats a missing list as
    a wildcard, applies its own rule to an empty list, and otherwise scans the
    entries in order until one matches. The Java methods can throw on
    malformed entries; that outcome is the Throws case of the result. The
    debug trace they write is not modelled. */
module Matchers {
  import opened JavaLang
  import opened Config
  import opened Host
  import opened Quests

  // ---------------------------------------------------------------------------
  // The scan shared by all four matchers

  /** The for-loop with early return every matcher runs over its entries: a
      mismatch moves on, a match or an exception ends the scan. */
  function FirstHit(entries: seq<Value>, test: Value -> Result<bool>): Result<bool>
  {
    if entries == [] then Ok(false)
    else if test(entries[0]) == Ok(false) then FirstHit(entries[1..], test)
    else test(entries[0])
  }

  /** Every entry before index i is a plain mismatch. */
  predicate MissesBefore(entries: seq<Value>, test: Value -> Result<bool>, i: int)
    requires 0 <= i <= |entries|
  {
    forall j :: 0 <= j < i ==> test(entries[j]) == Ok(false)
  }

  /** The first entry that is not a plain mismatch decides the outcome, and a
      scan in which every entry misses answers false. */
  lemma {:induction false} FirstHitDecides(entries: seq<Value>, test: Value -> Result<bool>, i: int)
    requires 0 <= i <= |entries| && MissesBefore(entries, test, i)
    ensures i == |entries| ==> FirstHit(entries, test) == Ok(false)
    ensures i < |entries| && test(entries[i]) != Ok(false) ==> FirstHit(entries, test) == test(entries[i])
  {
    if i > 0 {
      assert test(entries[0]) == Ok(false);
      assert MissesBefore(entries[1..], test, i - 1) by {
        forall j | 0 <= j < i - 1 ensures test(entries[1..][j]) == Ok(false) {
          assert entries[1..][j] == entries[j + 1];
        }
      }
      FirstHitDecides(entries[1..], test, i - 1);
      if i < |entries| { assert entries[1..][i - 1] == entries[i]; }
    }
  }

  /** Some entry matches. */
  predicate SomeHit(entries: seq<Value>, test: Value -> Result<bool>)
  {
    exists k :: 0 <= k < |entries| && test(entries[k]) == Ok(true)
  }

  /** When no entry throws, the scan answers whether some entry matches. */
  lemma {:induction false} FirstHitWithoutThrow(entries: seq<Value>, test: Value -> Result<bool>)
    requires forall k :: 0 <= k < |entries| ==> test(entries[k]).Ok?
    ensures FirstHit(entries, test) == Ok(SomeHit(entries, test))
  {
    if entries != [] {
      assert forall k :: 0 <= k < |entries[1..]| ==> entries[1..][k] == entries[k + 1];
      FirstHitWithoutThrow(entries[1..], test);
      if test(entries[0]) == Ok(false) {
        if SomeHit(entries, test) {
          var k :| 0 <= k < |entries| && test(entries[k]) == Ok(true);
          assert test(entries[1..][k - 1]) == Ok(true);
        }
        if SomeHit(entries[1..], test) {
          var k :| 0 <= k < |entries[1..]| && test(entries[1..][k]) == Ok(true);
          assert test(entries[k + 1]) == Ok(true);
        }
      } else {
        var t := test(entries[0]);
        assert t.Ok? && t != Ok(false);
        assert t == Ok(t.value);
        assert t.value;
        assert SomeHit(entries, test);
      }
    }
  }

  // ---------------------------------------------------------------------------
  // matchBlock

  /** One entry of matchBlock's list against a block. The entry must be a
      String. It is split at its first colon; the sub-type to compare is the
      parsed suffix, else the task's `data` value (which must be an Integer),
      else 0. The entry matches when it names the block's material and either
      no sub-type was given anywhere or the block's data equals it. */
  function BlockEntry(p: Platform, configData: Value, block: Block, entry: Value): (r: Result<bool>)
    ensures !entry.CStr? ==> r == Throws(ClassCast)
    ensures r == Ok(true) ==> entry.CStr? && p.getMaterial(SplitAtFirstColon(entry.s).0) == Some(block.material)
  {
    if !entry.CStr? then Throws(ClassCast)
    else
      var (name, suffix) := SplitAtFirstColon(entry.s);
      var comparable: Result<int> :=
        if suffix.Some? then
          (match ParseInt(suffix.value)
           case Some(n) => Ok(n as int)
           case None => Throws(NumberFormat))
        else if configData != CNull then
          (if configData.CInt? then Ok(configData.i as int) else Throws(ClassCast))
        else Ok(0);
      if comparable.Throws? then Throws(comparable.exception)
      else
        Ok(p.getMaterial(name) == Some(block.material)
           && ((suffix.None? && configData == CNull) || block.data as int == comparable.value))
  }

  /** TaskUtils.matchBlock. */
  function MatchBlock(p: Platform, task: Task, block: Block): Result<bool>
  {
    match CriteriaList(task.config, "block", "blocks")
    case Throws(e) => Throws(e)
    case Ok(None) => Ok(true)
    case Ok(Some(entries)) =>
      if entries == [] then Ok(false)
      else FirstHit(entries, e => BlockEntry(p, Get(task.config, "data"), block, e))
  }

  /** How matchBlock reads its list: `block` if that key is present, else
      `blocks`; a String is a single entry, a list is scanned in order, any
      other value (or none) accepts every block, an empty list accepts none. */
  lemma MatchBlockListRule(p: Platform, task: Task, block: Block)
    ensures var v := Get(task.config, CriteriaKey(task.config, "block", "blocks"));
            && (!v.CList? && !v.CStr? ==> MatchBlock(p, task, block) == Ok(true))
            && (v == CList([]) ==> MatchBlock(p, task, block) == Ok(false))
            && (v.CList? && CNull in v.items ==> MatchBlock(p, task, block) == Throws(NullPointer))
            && (v.CStr? ==> MatchBlock(p, task, block) == BlockEntry(p, Get(task.config, "data"), block, v))
            && (v.CList? && CNull !in v.items && v.items != [] ==>
                  MatchBlock(p, task, block) == FirstHit(v.items, e => BlockEntry(p, Get(task.config, "data"), block, e)))
  {
    var v := Get(task.config, CriteriaKey(task.config, "block", "blocks"));
    if v.CStr? {
      var test := e => BlockEntry(p, Get(task.config, "data"), block, e);
      assert FirstHit([v], test) == test(v) by {
        if test(v) == Ok(false) { assert [v][1..] == []; }
      }
    }
  }

  /** The per-entry rule of matchBlock, case by case. */
  lemma BlockEntryRule(p: Platform, configData: Value, block: Block, spec: string)
    ensures var (name, suffix) := SplitAtFirstColon(spec);
            var sameMaterial := p.getMaterial(name) == Some(block.material);
            && (suffix.None? && configData == CNull ==>
                  BlockEntry(p, configData, block, CStr(spec)) == Ok(sameMaterial))
            && (suffix.None? && configData.CInt? ==>
                  BlockEntry(p, configData, block, CStr(spec)) == Ok(sameMaterial && block.data as int == configData.i as int))
            && (suffix.None? && configData != CNull && !configData.CInt? ==>
                  BlockEntry(p, configData, block, CStr(spec)) == Throws(ClassCast))
            && (suffix.Some? && ParseInt(suffix.value).Some? ==>
                  BlockEntry(p, configData, block, CStr(spec)) == Ok(sameMaterial && block.data as int == ParseInt(suffix.value).value as int))
            && (suffix.Some? && ParseInt(suffix.value).None? ==>
                  BlockEntry(p, configData, block, CStr(spec)) == Throws(NumberFormat))
  {
  }

  /** "STONE:1" rejects a stone block with data 0 and accepts one with data 1;
      "STONE" with no task-level data accepts stone whatever its data. */
  lemma StoneExamples(p: Platform, d: int8)
    requires p.getMaterial("STONE") == Some(Material("STONE"))
    ensures BlockEntry(p, CNull, Block(Material("STONE"), 0), CStr("STONE:1")) == Ok(false)
    ensures BlockEntry(p, CNull, Block(Material("STONE"), 1), CStr("STONE:1")) == Ok(true)
    ensures BlockEntry(p, CNull, Block(Material("STONE"), d), CStr("STONE")) == Ok(true)
  {
    StoneSpecParts();
  }

  lemma StoneSpecParts()
    ensures SplitAtFirstColon("STONE:1") == ("STONE", Some("1"))
    ensures SplitAtFirstColon("STONE") == ("STONE", None)
    ensures ParseInt("1") == Some(1)
  {
    assert ':' !in "STONE" by { assert forall i :: 0 <= i < 5 ==> "STONE"[i] != ':'; }
    SplitAtFirstColonOf("STONE", "1");
    assert "STONE" + ":" + "1" == "STONE:1";
    assert AllDigits("1");
    assert DigitsValue("1") == 1 by { assert "1"[..0] == ""; }
  }

  /** A task with `blocks: ["OAK_LOG:1", "STONE"]` and no world or data
      setting matches an oak log with sub-type 1. */
  lemma OakLogScenario(p: Platform, task: Task)
    requires p.getMaterial("OAK_LOG") == Some(Material("OAK_LOG"))
    requires task.config == map["blocks" := CList([CStr("OAK_LOG:1"), CStr("STONE")])]
    ensures MatchBlock(p, task, Block(Material("OAK_LOG"), 1)) == Ok(true)
  {
    var block := Block(Material("OAK_LOG"), 1);
    var entries := [CStr("OAK_LOG:1"), CStr("STONE")];
    var test := e => BlockEntry(p, CNull, block, e);
    assert Get(task.config, "data") == CNull;
    assert CriteriaList(task.config, "block", "blocks") == Ok(Some(entries));
    OakLogEntry(p, block);
    assert FirstHit(entries, test) == Ok(true);
  }

  lemma OakLogEntry(p: Platform, block: Block)
    requires p.getMaterial("OAK_LOG") == Some(Material("OAK_LOG"))
    requires block == Block(Material("OAK_LOG"), 1)
    ensures BlockEntry(p, CNull, block, CStr("OAK_LOG:1")) == Ok(true)
  {
    OakLogSpecParts();
    StoneSpecParts();
  }

  lemma OakLogSpecParts()
    ensures SplitAtFirstColon("OAK_LOG:1") == ("OAK_LOG", Some("1"))
  {
    assert ':' !in "OAK_LOG" by { assert forall i :: 0 <= i < 7 ==> "OAK_LOG"[i] != ':'; }
    SplitAtFirstColonOf("OAK_LOG", "1");
    assert "OAK_LOG" + ":" + "1" == "OAK_LOG:1";
  }

  // ---------------------------------------------------------------------------
  // matchColorable

  /** One entry of matchColorable's list: a String naming a dye colour
      (DyeColor.valueOf throws on an unknown name). */
  function ColorEntry(p: Platform, color: DyeColor, entry: Value): Result<bool>
  {
    if !entry.CStr? then Throws(ClassCast)
    else
      match DyeColorValueOf(p, entry.s)
      case Throws(e) => Throws(e)
      case Ok(c) => Ok(c == color)
  }

  /** TaskUtils.matchColorable; `color` is the colourable's colour, if any. */
  function MatchColorable(p: Platform, task: Task, color: Option<DyeColor>): Result<bool>
  {
    match CriteriaList(task.config, "color", "colors")
    case Throws(e) => Throws(e)
    case Ok(None) => Ok(true)
    case Ok(Some(entries)) =>
      if entries == [] then Ok(color.None?)
      else if color.None? then Ok(false)
      else FirstHit(entries, e => ColorEntry(p, color.value, e))
  }

  /** An empty colour list matches exactly the colourless candidates; a
      non-empty list never matches a colourless one, before looking at any
      entry; with entries that all name known colours, a coloured candidate
      matches iff its colour is listed; an unknown colour name reached before
      any match makes the call throw IllegalArgumentException. */
  lemma MatchColorableRule(p: Platform, task: Task, color: Option<DyeColor>)
    ensures var l := CriteriaList(task.config, "color", "colors");
            && (l == Ok(Some([])) ==> MatchColorable(p, task, color) == Ok(color.None?))
            && (l.Ok? && l.value.Some? && l.value.value != [] && color.None? ==>
                  MatchColorable(p, task, color) == Ok(false))
            && (l.Ok? && l.value.Some? && l.value.value != [] && color.Some? &&
                (forall k :: 0 <= k < |l.value.value| ==> l.value.value[k].CStr? && l.value.value[k].s in p.dyeColors) ==>
                  MatchColorable(p, task, color) == Ok(CStr(color.value.name) in l.value.value))
            && (l.Ok? && l.value.Some? && color.Some? ==>
                  forall i :: (0 <= i < |l.value.value| &&
                                MissesBefore(l.value.value, e => ColorEntry(p, color.value, e), i) &&
                                l.value.value[i].CStr? && l.value.value[i].s !in p.dyeColors) ==>
                    MatchColorable(p, task, color) == Throws(IllegalArgument))
  {
    var l := CriteriaList(task.config, "color", "colors");
    if l.Ok? && l.value.Some? && l.value.value != [] && color.Some? {
      var entries := l.value.value;
      var test := e => ColorEntry(p, color.value, e);
      if forall k :: 0 <= k < |entries| ==> entries[k].CStr? && entries[k].s in p.dyeColors {
        FirstHitWithoutThrow(entries, test);
        if CStr(color.value.name) in entries {
          var k :| 0 <= k < |entries| && entries[k] == CStr(color.value.name);
          assert test(entries[k]) == Ok(true);
        }
      }
      forall i | 0 <= i < |entries| && MissesBefore(entries, test, i) &&
                 entries[i].CStr? && entries[i].s !in p.dyeColors
        ensures MatchColorable(p, task, color) == Throws(IllegalArgument)
      {
        FirstHitDecides(entries, test, i);
      }
    }
  }

  /** An empty list matches an uncoloured candidate and not a red one; the
      list ["RED", "BLUE"] matches red and not green. */
  lemma ColorExamples(p: Platform, task1: Task, task2: Task)
    requires {"RED", "BLUE", "GREEN"} <= p.dyeColors
    requires task1.config == map["colors" := CList([])]
    requires task2.config == map["colors" := CList([CStr("RED"), CStr("BLUE")])]
    ensures MatchColorable(p, task1, None) == Ok(true)
    ensures MatchColorable(p, task1, Some(DyeColor("RED"))) == Ok(false)
    ensures MatchColorable(p, task2, Some(DyeColor("RED"))) == Ok(true)
    ensures MatchColorable(p, task2, Some(DyeColor("GREEN"))) == Ok(false)
  {
    assert CriteriaKey(task1.config, "color", "colors") == "colors";
    assert CriteriaKey(task2.config, "color", "colors") == "colors";
    MatchColorableRule(p, task2, Some(DyeColor("RED")));
    MatchColorableRule(p, task2, Some(DyeColor("GREEN")));
  }

  // ---------------------------------------------------------------------------
  // matchEntity

  /** One entry of matchEntity's list: a String naming an entity type
      (EntityType.valueOf throws on an unknown name). */
  function EntityEntry(p: Platform, entityType: EntityType, entry: Value): Result<bool>
  {
    if !entry.CStr? then Throws(ClassCast)
    else
      match EntityTypeValueOf(p, entry.s)
      case Throws(e) => Throws(e)
      case Ok(t) => Ok(t == entityType)
  }

  /** TaskUtils.matchEntity. */
  function MatchEntity(p: Platform, task: Task, entityType: EntityType): Result<bool>
  {
    match CriteriaList(task.config, "mob", "mobs")
    case Throws(e) => Throws(e)
    case Ok(None) => Ok(true)
    case Ok(Some(entries)) =>
      if entries == [] then Ok(false)
      else FirstHit(entries, e => EntityEntry(p, entityType, e))
  }

  /** An empty mob list matches no entity; a list whose entries all name known
      entity types matches exactly the listed types; an unknown name reached
      before any match makes the call throw IllegalArgumentException. */
  lemma MatchEntityRule(p: Platform, task: Task, entityType: EntityType)
    ensures var l := CriteriaList(task.config, "mob", "mobs");
            && (l == Ok(Some([])) ==> MatchEntity(p, task, entityType) == Ok(false))
            && (l.Ok? && l.value.Some? && l.value.value != [] &&
                (forall k :: 0 <= k < |l.value.value| ==> l.value.value[k].CStr? && l.value.value[k].s in p.entityTypes) ==>
                  MatchEntity(p, task, entityType) == Ok(CStr(entityType.name) in l.value.value))
            && (l.Ok? && l.value.Some? ==>
                  forall i :: (0 <= i < |l.value.value| &&
                                MissesBefore(l.value.value, e => EntityEntry(p, entityType, e), i) &&
                                l.value.value[i].CStr? && l.value.value[i].s !in p.entityTypes) ==>
                    MatchEntity(p, task, entityType) == Throws(IllegalArgument))
  {
    var l := CriteriaList(task.config, "mob", "mobs");
    if l.Ok? && l.value.Some? && l.value.value != [] {
      var entries := l.value.value;
      var test := e => EntityEntry(p, entityType, e);
      if forall k :: 0 <= k < |entries| ==> entries[k].CStr? && entries[k].s in p.entityTypes {
        FirstHitWithoutThrow(entries, test);
        if CStr(entityType.name) in entries {
          var k :| 0 <= k < |entries| && entries[k] == CStr(entityType.name);
          assert test(entries[k]) == Ok(true);
        }
      }
      forall i | 0 <= i < |entries| && MissesBefore(entries, test, i) &&
                 entries[i].CStr? && entries[i].s !in p.entityTypes
        ensures MatchEntity(p, task, entityType) == Throws(IllegalArgument)
      {
        FirstHitDecides(entries, test, i);
      }
    }
  }

  // ---------------------------------------------------------------------------
  // matchName

  /** One entry of matchName's list: a String, translated by Chat.legacyColor
      and compared with the candidate name, ignoring case if asked to. */
  function NameEntry(p: Platform, name: string, ignoreCase: bool, entry: Value): Result<bool>
  {
    if !entry.CStr? then Throws(ClassCast)
    else Ok(NameEquals(p, p.legacyColor(entry.s), name, ignoreCase))
  }

  /** TaskUtils.matchName. The `legacyColor` flag is accepted and ignored:
      entries are always translated. */
  function MatchName(p: Platform, task: Task, name: Option<string>, legacyColor: bool, ignoreCase: bool): Result<bool>
  {
    match CriteriaList(task.config, "name", "names")
    case Throws(e) => Throws(e)
    case Ok(None) => Ok(true)
    case Ok(Some(entries)) =>
      if entries == [] then Ok(name.None?)
      else if name.None? then Ok(false)
      else FirstHit(entries, e => NameEntry(p, name.value, ignoreCase, e))
  }

  /** An empty name list matches exactly the unnamed candidates; a non-empty
      list never matches an unnamed one; with String entries a named candidate
      matches iff some translated entry equals its name (up to case if asked). */
  lemma MatchNameRule(p: Platform, task: Task, name: Option<string>, legacyColor: bool, ignoreCase: bool)
    ensures var l := CriteriaList(task.config, "name", "names");
            && (l == Ok(Some([])) ==> MatchName(p, task, name, legacyColor, ignoreCase) == Ok(name.None?))
            && (l.Ok? && l.value.Some? && l.value.value != [] && name.None? ==>
                  MatchName(p, task, name, legacyColor, ignoreCase) == Ok(false))
            && (l.Ok? && l.value.Some? && l.value.value != [] && name.Some? &&
                (forall k :: 0 <= k < |l.value.value| ==> l.value.value[k].CStr?) ==>
                  MatchName(p, task, name, legacyColor, ignoreCase) ==
                  Ok(exists k :: 0 <= k < |l.value.value| &&
                       NameEquals(p, p.legacyColor(l.value.value[k].s), name.value, ignoreCase)))
  {
    var l := CriteriaList(task.config, "name", "names");
    if l.Ok? && l.value.Some? && l.value.value != [] && name.Some? &&
       (forall k :: 0 <= k < |l.value.value| ==> l.value.value[k].CStr?) {
      var entries := l.value.value;
      var test := e => NameEntry(p, name.value, ignoreCase, e);
      FirstHitWithoutThrow(entries, test);
      assert forall k :: 0 <= k < |entries| ==>
        (test(entries[k]) == Ok(true) <==> NameEquals(p, p.legacyColor(entries[k].s), name.value, ignoreCase));
    }
  }

  /** The legacyColor argument never changes the outcome. */
  lemma MatchNameIgnoresLegacyFlag(p: Platform, task: Task, name: Option<string>, ignoreCase: bool)
    ensures MatchName(p, task, name, true, ignoreCase) == MatchName(p, task, name, false, ignoreCase)
  {
  }

  /** "Boss" matches the name "boss" when case is ignored (and case folding
      identifies 'B' with 'b'), and does not when case matters. */
  lemma BossExample(p: Platform, task: Task, legacyColor: bool)
    requires task.config == map["name" := CStr("Boss")]
    requires p.legacyColor("Boss") == "Boss"
    requires p.caseFold('B') == p.caseFold('b')
    ensures MatchName(p, task, Some("boss"), legacyColor, true) == Ok(true)
    ensures MatchName(p, task, Some("boss"), legacyColor, false) == Ok(false)
  {
    assert CriteriaKey(task.config, "name", "names") == "name";
    assert "Boss" != "boss" by { assert "Boss"[0] != "boss"[0]; }
    EqualsIgnoreCaseCharwise(p, "Boss", "boss");
    assert EqualsIgnoreCase(p, "Boss", "boss");
    var test := e => NameEntry(p, "boss", true, e);
    assert [CStr("Boss")][1..] == [];
  }

  // ---------------------------------------------------------------------------
  // Shared policy

  /** An unconfigured criterion accepts every candidate, for every kind. */
  lemma WildcardForEveryKind(p: Platform, task: Task, block: Block, color: Option<DyeColor>,
                             entityType: EntityType, name: Option<string>, legacyColor: bool, ignoreCase: bool)
    requires forall k :: k in task.config ==> k !in {"block", "blocks", "color", "colors", "mob", "mobs", "name", "names"}
    ensures MatchBlock(p, task, block) == Ok(true)
    ensures MatchColorable(p, task, color) == Ok(true)
    ensures MatchEntity(p, task, entityType) == Ok(true)
    ensures MatchName(p, task, name, legacyColor, ignoreCase) == Ok(true)
  {
    assert "blocks" !in task.config && "colors" !in task.config;
    assert "mobs" !in task.config && "names" !in task.config;
  }
}
