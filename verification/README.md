# Quests task utilities, modelled in Dafny

This project models `TaskUtils`, the helper class that the Quests plugin's task types share. It covers the parts of TaskUtils that decide and record what a player's event does to their tasks:

- **Criteria matchers.** `matchBlock`, `matchColorable`, `matchEntity` and `matchName` read an allow-list from a task's configuration:
  - the singular key is read when the configuration contains it, and the plural key otherwise;
  - a single string is treated as a one-element list.
  
  Each matcher then decides whether a block, colour, entity type or display name is accepted. A missing list accepts everything. Each matcher has its own rule for an empty list. Otherwise the entries are scanned in order, and the first match answers true.
- **Progress accessors.** `getIntegerTaskProgress`, `incrementIntegerTaskProgress` and `decrementIntegerTaskProgress` work on a task-progress record.
- **Task selection.** `validateWorld` and `getApplicableTasks` list the uncompleted tasks of one type in the quests a player has started. When asked to, they keep only the tasks allowed in the player's world.
- **Inventory helpers.** `getAmountsPerSlot` counts the matching items in each of the 36 storage slots and adds up a total. `removeItemsInSlots` takes a number of items out of the counted slots, one slot at a time.
- **Configuration validators.** The nine `use*ConfigValidator` factories and `MaterialListConfigValidatorMode` are covered. A validator looks up its configuration paths in order and checks only the first one that holds a value. It appends ERROR and WARNING problems to a list that the caller owns.

Modules, one per file:

| file | module | contents |
|---|---|---|
| `java_lang.dfy` | `JavaLang` | Java `int` with wrap-around, Java `byte` as a range, the exceptions the code can raise, `Integer.parseInt`/`toString`, and `String.split` on colons |
| `config.dfy` | `Config` | configuration values, `getConfigStringList`, and the singular/plural key choice |
| `host.dfy` | `Host` | what the code asks of the server (a `Platform` value), `String.valueOf`, and case-insensitive equality |
| `quests.dfy` | `Quests` | tasks and quests |
| `matchers.dfy` | `Matchers` | the four matchers |
| `progress.dfy` | `Progress` | the `TaskProgress` class and the progress accessors |
| `applicable.dfy` | `Applicable` | `validateWorld` and `getApplicableTasks` |
| `inventory.dfy` | `Inventory` | `getAmountsPerSlot` and `removeItemsInSlots` on an array of item stacks |
| `validators.dfy` | `Validators` | the validator factories and the closures they return |

Modelling choices:

- **Exceptions.** A Java method that can throw returns `Result<T>`: either `Ok(value)` or `Throws(exception)`.
- **Integers.** Java `int` is the `int32` newtype, and `++`, `--`, `+` and `-` wrap around explicitly.
- **Configuration values.** A value is a sum type with these cases: null, Boolean, Integer, String, section, or list.
- **Server lookups.** The server's registries are fields of a `Platform` value passed in explicitly. This covers the Material, DyeColor, EntityType and Enchantment lookups, the quest-item registry and the item getter's material check. The colour-code translator and the case folding used by `equalsIgnoreCase` are also `Platform` fields.
- **Matchers and selection.** The matchers are functions, because their loops only return early and change nothing. `getApplicableTasks` is a method with nested loops, proved equal to a recursive specification.
- **Mutable state.** These are modelled as classes and arrays:
  - `TaskProgress` is a class with `progress` and `completed` fields;
  - the inventory is an array of `ItemStack` objects whose `amount` is updated in place;
  - the problem list is a `ProblemSink` object.

Behaviour of the code that a reader might not expect, modelled as the code has it:

- **Unknown names during matching.** An unknown colour or entity name in a matcher's list throws `IllegalArgumentException` (from `DyeColor.valueOf` / `EntityType.valueOf`). It is not treated as a plain mismatch.
- **Malformed values during matching.** `matchBlock` throws on a non-numeric sub-type and on a non-Integer `data` value. The matchers throw `ClassCastException` on a list element that is not a String. `getConfigStringList` throws `NullPointerException` on a list holding null. These are the `Throws` outcomes of the model.
- **Validators can throw.** The required validator with no paths throws `ArrayIndexOutOfBoundsException` when it reads `paths[0]`. The material-list validator throws the same exception at the first entry made only of colons, after appending the warnings for the entries before it; see Findings. A validator run therefore ends with the problems it appended and, possibly, an exception (`Validators.Outcome`).
- **Entity-list wording.** The entity-list validator reports an unknown entity with the UNKNOWN_MATERIAL description.

## Model

| member | source | states |
|---|---|---|
| JavaLang.Wrap | bukkit/src/main/java/com/leonardobishop/quests/bukkit/util/TaskUtils.java:137-147 | an int result equals the mathematical one whenever that fits in 32 bits |
| JavaLang.WrapAdd | bukkit/src/main/java/com/leonardobishop/quests/bukkit/util/TaskUtils.java:326 | adding in int arithmetic one stack at a time gives the wrapped mathematical total |
| JavaLang.SuccPredInverse | bukkit/src/main/java/com/leonardobishop/quests/bukkit/util/TaskUtils.java:137-147 | `++` then `--` (and the reverse) gives back every int, including at the wrap-around points |
| JavaLang.ParseInt | bukkit/src/main/java/com/leonardobishop/quests/bukkit/util/TaskUtils.java:203 | `Integer.parseInt` in radix 10; its properties are `ParseIntToString` and `ParseIntRejectsEmptyAndSigns` |
| JavaLang.ParseIntToString | bukkit/src/main/java/com/leonardobishop/quests/bukkit/util/TaskUtils.java:203 | `Integer.parseInt` reads back the decimal text of every int |
| JavaLang.ParseIntRejectsEmptyAndSigns | bukkit/src/main/java/com/leonardobishop/quests/bukkit/util/TaskUtils.java:203 | an empty sub-type, a lone sign or trailing junk is a NumberFormatException, never 0 |
| JavaLang.SplitAtFirstColon | bukkit/src/main/java/com/leonardobishop/quests/bukkit/util/TaskUtils.java:201-202 | `split(":", 2)`: the head holds no colon, there is a second part iff the text has a colon, and head, colon and rest rebuild the text |
| JavaLang.SplitAtFirstColonOf | bukkit/src/main/java/com/leonardobishop/quests/bukkit/util/TaskUtils.java:201 | `NAME:rest` with a colon-free NAME splits into exactly NAME and rest |
| JavaLang.DropTrailingEmptyPrefix | bukkit/src/main/java/com/leonardobishop/quests/bukkit/util/TaskUtils.java:542 | `split` removes trailing empty pieces: nothing is left iff every piece is empty, otherwise the first piece is kept |
| JavaLang.ColonPiecesAllEmpty | bukkit/src/main/java/com/leonardobishop/quests/bukkit/util/TaskUtils.java:542 | all colon-separated pieces are empty iff the text is made only of colons |
| JavaLang.SplitHeadAsWrittenCases | bukkit/src/main/java/com/leonardobishop/quests/bukkit/util/TaskUtils.java:542-543 | `split(":")[0]` throws exactly on a non-empty string of colons, and otherwise is the text before the first colon |
| Config.ConfigStringList | bukkit/src/main/java/com/leonardobishop/quests/bukkit/util/TaskUtils.java:67-77 | a list is copied (NullPointerException iff it holds null), a String becomes a one-element list, anything else (or nothing) gives null |
| Config.CriteriaKey | bukkit/src/main/java/com/leonardobishop/quests/bukkit/util/TaskUtils.java:184 | the singular key is used iff the configuration contains it, otherwise the plural key |
| Config.SingularKeyWins | bukkit/src/main/java/com/leonardobishop/quests/bukkit/util/TaskUtils.java:184 | once the singular key is present, the plural key's value never matters |
| Config.PluralKeyWhenSingularAbsent | bukkit/src/main/java/com/leonardobishop/quests/bukkit/util/TaskUtils.java:184 | without the singular key, the plural key's list is the allow-list |
| Config.NullSingularHidesPlural | bukkit/src/main/java/com/leonardobishop/quests/bukkit/util/TaskUtils.java:184-186 | a singular key holding null hides the plural key and reads as "not configured" |
| Host.DyeColorValueOf | bukkit/src/main/java/com/leonardobishop/quests/bukkit/util/TaskUtils.java:244 | `DyeColor.valueOf` succeeds iff the name is a colour constant, and throws IllegalArgumentException otherwise |
| Host.EntityTypeValueOf | bukkit/src/main/java/com/leonardobishop/quests/bukkit/util/TaskUtils.java:274 | `EntityType.valueOf` succeeds iff the name is an entity constant, and throws IllegalArgumentException otherwise |
| Host.ShowScalars | bukkit/src/main/java/com/leonardobishop/quests/bukkit/util/TaskUtils.java:534-538 | `String.valueOf` leaves a String alone and renders an Integer so that `parseInt` reads it back |
| Host.EqualsIgnoreCaseIsEquivalence | bukkit/src/main/java/com/leonardobishop/quests/bukkit/util/TaskUtils.java:308 | equality ignoring case is reflexive, symmetric and transitive, and is implied by exact equality |
| Host.EqualsIgnoreCaseCharwise | bukkit/src/main/java/com/leonardobishop/quests/bukkit/util/TaskUtils.java:308 | two names are equal ignoring case iff they have the same length and fold to the same character at every position |
| Quests.TasksOfType | bukkit/src/main/java/com/leonardobishop/quests/bukkit/util/TaskUtils.java:157 | the quest's tasks of a type are exactly its tasks with that type, and no more tasks than the quest has |
| Quests.TasksOfTypeAppend | bukkit/src/main/java/com/leonardobishop/quests/bukkit/util/TaskUtils.java:157 | selecting by type keeps declaration order: the selection over two runs of tasks is the first run's selection followed by the second's |
| Matchers.FirstHitDecides | bukkit/src/main/java/com/leonardobishop/quests/bukkit/util/TaskUtils.java:200-222 | the first entry that is not a plain mismatch (a match or an exception) decides the scan; if every entry mismatches, the answer is false |
| Matchers.FirstHitWithoutThrow | bukkit/src/main/java/com/leonardobishop/quests/bukkit/util/TaskUtils.java:243-256 | when no entry throws, the scan answers whether some entry matches |
| Matchers.MatchBlock | bukkit/src/main/java/com/leonardobishop/quests/bukkit/util/TaskUtils.java:181-223 | `matchBlock`; its properties are `MatchBlockListRule`, `BlockEntryRule`, `StoneExamples`, `OakLogScenario` and `WildcardForEveryKind` |
| Matchers.BlockEntry | bukkit/src/main/java/com/leonardobishop/quests/bukkit/util/TaskUtils.java:200-219 | a non-String entry is a ClassCastException, and an entry matches only when the text before its first colon names the block's material; the full rule is `BlockEntryRule` |
| Matchers.MatchBlockListRule | bukkit/src/main/java/com/leonardobishop/quests/bukkit/util/TaskUtils.java:184-189 | matchBlock: no list accepts every block, an empty list accepts none, a list holding null throws, a String is a single entry, and a list is scanned in order |
| Matchers.BlockEntryRule | bukkit/src/main/java/com/leonardobishop/quests/bukkit/util/TaskUtils.java:200-219 | see the block entry rule below the table |
| Matchers.StoneExamples | bukkit/src/main/java/com/leonardobishop/quests/bukkit/util/TaskUtils.java:201-214 | "STONE:1" rejects stone with data 0 and accepts stone with data 1; "STONE" without task data accepts stone of any data |
| Matchers.OakLogScenario | bukkit/src/main/java/com/leonardobishop/quests/bukkit/util/TaskUtils.java:181-222 | `blocks: ["OAK_LOG:1", "STONE"]` matches an oak log with data 1 |
| Matchers.MatchColorable | bukkit/src/main/java/com/leonardobishop/quests/bukkit/util/TaskUtils.java:225-257 | `matchColorable`; its properties are `MatchColorableRule` and `ColorExamples` |
| Matchers.MatchColorableRule | bukkit/src/main/java/com/leonardobishop/quests/bukkit/util/TaskUtils.java:230-256 | an empty list matches iff the colour is null; a non-empty list rejects a null colour before reading any entry; with known colour names, a colour matches iff it is listed; an unknown name reached before a match throws IllegalArgumentException |
| Matchers.ColorExamples | bukkit/src/main/java/com/leonardobishop/quests/bukkit/util/TaskUtils.java:230-256 | an empty list accepts no colour and rejects red; ["RED", "BLUE"] accepts red and rejects green |
| Matchers.MatchEntity | bukkit/src/main/java/com/leonardobishop/quests/bukkit/util/TaskUtils.java:259-287 | `matchEntity`; its properties are `MatchEntityRule` |
| Matchers.MatchEntityRule | bukkit/src/main/java/com/leonardobishop/quests/bukkit/util/TaskUtils.java:262-286 | an empty list matches no entity; with known names, an entity matches iff its type is listed; an unknown name reached before a match throws IllegalArgumentException |
| Matchers.MatchName | bukkit/src/main/java/com/leonardobishop/quests/bukkit/util/TaskUtils.java:289-317 | `matchName`; its properties are `MatchNameRule`, `MatchNameIgnoresLegacyFlag` and `BossExample` |
| Matchers.MatchNameRule | bukkit/src/main/java/com/leonardobishop/quests/bukkit/util/TaskUtils.java:292-316 | an empty list matches iff the name is null; a non-empty list rejects a null name; otherwise the name matches iff some colour-translated entry equals it (ignoring case iff asked) |
| Matchers.MatchNameIgnoresLegacyFlag | bukkit/src/main/java/com/leonardobishop/quests/bukkit/util/TaskUtils.java:289-306 | the `legacyColor` argument never changes the result: entries are always translated |
| Matchers.BossExample | bukkit/src/main/java/com/leonardobishop/quests/bukkit/util/TaskUtils.java:306-308 | "Boss" matches "boss" when case is ignored and not when it matters |
| Matchers.WildcardForEveryKind | bukkit/src/main/java/com/leonardobishop/quests/bukkit/util/TaskUtils.java:184-186 | a task configuring none of the criteria keys accepts every block, colour, entity and name |
| Progress.IntegerProgress | bukkit/src/main/java/com/leonardobishop/quests/bukkit/util/TaskUtils.java:127-135 | null progress reads as 0, an Integer as itself, and anything else is a ClassCastException |
| Progress.IntegerTaskProgress | bukkit/src/main/java/com/leonardobishop/quests/bukkit/util/TaskUtils.java:127-135 | `getIntegerTaskProgress` on a record: its property is `IntegerProgress` of the stored value |
| Progress.IncrementIntegerTaskProgress | bukkit/src/main/java/com/leonardobishop/quests/bukkit/util/TaskUtils.java:137-141 | stores and returns the old value plus one (wrapping at the int maximum) and leaves `completed` unchanged; a failed read changes nothing |
| Progress.DecrementIntegerTaskProgress | bukkit/src/main/java/com/leonardobishop/quests/bukkit/util/TaskUtils.java:143-147 | stores and returns the old value minus one with no floor at zero, and leaves `completed` unchanged; a failed read changes nothing |
| Progress.CounterSteps | bukkit/src/main/java/com/leonardobishop/quests/bukkit/util/TaskUtils.java:137-147 | increments add exactly one below the maximum and decrements subtract one above the minimum (0 goes to -1); at the ends the counter wraps |
| Progress.AbsentProgressCountsFromZero | bukkit/src/main/java/com/leonardobishop/quests/bukkit/util/TaskUtils.java:127-147 | on a fresh record the first increment stores 1 and the first decrement stores -1 |
| Progress.IncrementDecrementRestores | bukkit/src/main/java/com/leonardobishop/quests/bukkit/util/TaskUtils.java:137-147 | an increment followed by a decrement, or the reverse, reads back the earlier progress |
| Applicable.ValidateWorld | bukkit/src/main/java/com/leonardobishop/quests/bukkit/util/TaskUtils.java:51-65 | a list allows exactly the worlds it contains, a String allows exactly that world, and only those two shapes can refuse |
| Applicable.ValidateTaskWorld | bukkit/src/main/java/com/leonardobishop/quests/bukkit/util/TaskUtils.java:47-49 | `validateWorld(String, Task)`: `ValidateWorld` on the task's `worlds` value; see `ValidateWorld` and `WorldSettingShapes` |
| Applicable.WorldSettingShapes | bukkit/src/main/java/com/leonardobishop/quests/bukkit/util/TaskUtils.java:47-65 | a single name acts like a one-element list, an empty list refuses every world, and a task without `worlds` is allowed everywhere |
| Applicable.GetApplicableTasks | bukkit/src/main/java/com/leonardobishop/quests/bukkit/util/TaskUtils.java:149-173 | the nested loops return exactly the specification `Pending`, in order |
| Applicable.PendingMembers | bukkit/src/main/java/com/leonardobishop/quests/bukkit/util/TaskUtils.java:149-173 | see the selection rule below the table |
| Applicable.PendingOfQuestMembers | bukkit/src/main/java/com/leonardobishop/quests/bukkit/util/TaskUtils.java:157-170 | within one quest, a task is kept iff it passes the world check (when asked) and its progress record is not completed |
| Applicable.PendingAppend | bukkit/src/main/java/com/leonardobishop/quests/bukkit/util/TaskUtils.java:153-172 | selecting over two runs of quests is the selection over the first followed by the selection over the second (quest registration order) |
| Applicable.NoConstraintIgnoresWorld | bukkit/src/main/java/com/leonardobishop/quests/bukkit/util/TaskUtils.java:151-160 | without the WORLD constraint the player's world never affects the result |
| Applicable.PendingOfQuestWorldFree | bukkit/src/main/java/com/leonardobishop/quests/bukkit/util/TaskUtils.java:157-160 | without the WORLD constraint, one quest's selection does not depend on the world |
| Inventory.Counted | bukkit/src/main/java/com/leonardobishop/quests/bukkit/util/TaskUtils.java:322-327 | each slot's count is its stack's amount when the quest item accepts the stack, and 0 otherwise |
| Inventory.GetAmountsPerSlot | bukkit/src/main/java/com/leonardobishop/quests/bukkit/util/TaskUtils.java:319-330 | a fresh int[37] whose slots 0..35 hold the counts and whose index 36 holds their int-arithmetic sum |
| Inventory.CountedTotalExact | bukkit/src/main/java/com/leonardobishop/quests/bukkit/util/TaskUtils.java:326 | with stack amounts up to 127, the total at index 36 does not wrap and is the true number of matching items |
| Inventory.SumBounds | bukkit/src/main/java/com/leonardobishop/quests/bukkit/util/TaskUtils.java:326 | a sum of amounts between 0 and a bound lies between 0 and bound times count |
| Inventory.Sweep | bukkit/src/main/java/com/leonardobishop/quests/bukkit/util/TaskUtils.java:332-345 | the slots after `removeItemsInSlots`, as a function of the flags, the old contents and the count; its properties are `SweepAt`, `SweepKeeps` and `SweepRemovesRequested` |
| Inventory.SweepKeeps | bukkit/src/main/java/com/leonardobishop/quests/bukkit/util/TaskUtils.java:332-345 | removal leaves slots flagged 0 untouched, never empties or fills a slot or changes a stack's kind, and never leaves a negative amount in a slot it changes |
| Inventory.SweepAt | bukkit/src/main/java/com/leonardobishop/quests/bukkit/util/TaskUtils.java:333-343 | one visit: an unflagged or empty slot is skipped; a flagged stack keeps max(0, amount - remaining), and removal stops once the remainder is at most 0 |
| Inventory.RemoveItemsInSlots | bukkit/src/main/java/com/leonardobishop/quests/bukkit/util/TaskUtils.java:332-345 | the first 36 slots end as the sweep of their old contents, and every slot after them is unchanged |
| Inventory.TakeFromSlot | bukkit/src/main/java/com/leonardobishop/quests/bukkit/util/TaskUtils.java:337-342 | one stack is set to max(0, amount - remaining), the remainder drops by the old amount, and no other slot changes |
| Inventory.ContentsAgree | bukkit/src/main/java/com/leonardobishop/quests/bukkit/util/TaskUtils.java:332-345 | slot-by-slot agreement is agreement of the inventory contents |
| Inventory.SweepRemovesRequested | bukkit/src/main/java/com/leonardobishop/quests/bukkit/util/TaskUtils.java:332-345 | with no negative amounts and a non-negative request, exactly min(request, items in flagged slots) items are removed |
| Inventory.FlaggedTotalNonNegative | bukkit/src/main/java/com/leonardobishop/quests/bukkit/util/TaskUtils.java:332-345 | the items in flagged slots are between 0 and all the items |
| Inventory.CountedFlagsMatchingStacks | bukkit/src/main/java/com/leonardobishop/quests/bukkit/util/TaskUtils.java:319-345 | flagging by the counts flags exactly the non-empty accepted stacks, and their items total the counted sum |
| Inventory.CountedFlaggedTotal | bukkit/src/main/java/com/leonardobishop/quests/bukkit/util/TaskUtils.java:319-345 | the items in the slots a count flags are the counted sum |
| Inventory.FlaggedTotalSnoc | bukkit/src/main/java/com/leonardobishop/quests/bukkit/util/TaskUtils.java:332-345 | the flagged total can be taken from the last slot backwards |
| Validators.ModeAccepts | bukkit/src/main/java/com/leonardobishop/quests/bukkit/util/TaskUtils.java:485-506 | `MaterialListConfigValidatorMode.isValid`: ANY accepts every material, BLOCK the blocks, ITEM the items; used by `MaterialEntryFails` and `BlockModeExample` |
| Validators.UseRequiredConfigValidator | bukkit/src/main/java/com/leonardobishop/quests/bukkit/util/TaskUtils.java:355-369 | the required validator; its behaviour is `Check`, stated by `RequiredRule` and `RequiredWithoutPathsThrows` |
| Validators.UseItemStackConfigValidator | bukkit/src/main/java/com/leonardobishop/quests/bukkit/util/TaskUtils.java:378-429 | the item-stack validator; its behaviour is `Check`, stated by `ItemStackRule` and `AbsentIsSilent` |
| Validators.UseIntegerConfigValidator | bukkit/src/main/java/com/leonardobishop/quests/bukkit/util/TaskUtils.java:438-456 | the integer validator; its behaviour is `Check`, stated by `TypeRule` |
| Validators.UseBooleanConfigValidator | bukkit/src/main/java/com/leonardobishop/quests/bukkit/util/TaskUtils.java:465-483 | the boolean validator; its behaviour is `Check`, stated by `TypeRule` |
| Validators.UseMaterialListConfigValidator | bukkit/src/main/java/com/leonardobishop/quests/bukkit/util/TaskUtils.java:524-554 | the material-list validator; its behaviour is `Check`, stated by `ListOutcomeWithoutThrow`, `ListOutcomeAtThrow`, `ListRule` and `BlockModeExample` |
| Validators.UseDyeColorConfigValidator | bukkit/src/main/java/com/leonardobishop/quests/bukkit/util/TaskUtils.java:572-602 | the dye-colour list validator; its behaviour is `Check`, stated by `ListOutcomeWithoutThrow` and `ListRule` |
| Validators.UseEntityListConfigValidator | bukkit/src/main/java/com/leonardobishop/quests/bukkit/util/TaskUtils.java:620-650 | the entity list validator; its behaviour is `Check`, stated by `ListOutcomeWithoutThrow` and `ListRule` |
| Validators.UseEnchantmentListConfigValidator | bukkit/src/main/java/com/leonardobishop/quests/bukkit/util/TaskUtils.java:668-696 | the enchantment list validator; its behaviour is `Check`, stated by `ListOutcomeWithoutThrow` and `ListRule` |
| Validators.UseAcceptedValuesConfigValidator | bukkit/src/main/java/com/leonardobishop/quests/bukkit/util/TaskUtils.java:706-730 | the accepted-values validator; its behaviour is `Check`, stated by `AcceptedValuesRule` and `AcceptedListingShowsAll` |
| Validators.Check | bukkit/src/main/java/com/leonardobishop/quests/bukkit/util/TaskUtils.java:355-730 | what a validator run appends and throws: only ArrayIndexOutOfBoundsException can escape, and only from the required validator without paths or from the material-list validator |
| Validators.FirstPresent | bukkit/src/main/java/com/leonardobishop/quests/bukkit/util/TaskUtils.java:357-362 | the path checked is the first one holding a value; every earlier path is null, and no path is checked when all are null |
| Validators.Elements | bukkit/src/main/java/com/leonardobishop/quests/bukkit/util/TaskUtils.java:530-539 | a list validator checks `String.valueOf` of each list element, in order, and a single value as its one `String.valueOf` rendering |
| Validators.Validate | bukkit/src/main/java/com/leonardobishop/quests/bukkit/util/TaskUtils.java:355-729 | running a validator appends exactly `Check`'s problems to the caller's list and throws exactly `Check`'s exception, if any; problems appended before a throw stay in the list |
| Validators.AddProblemsAt | bukkit/src/main/java/com/leonardobishop/quests/bukkit/util/TaskUtils.java:378-729 | what each kind of validator appends and throws once it has found a value (`OutcomeAt`) |
| Validators.AddListProblems | bukkit/src/main/java/com/leonardobishop/quests/bukkit/util/TaskUtils.java:540-550 | the element loop as written (`ListOutcome`): one warning per failing element, in element order, until `split(":")[0]` throws on an entry made only of colons |
| Validators.CheckElement | bukkit/src/main/java/com/leonardobishop/quests/bukkit/util/TaskUtils.java:541-544 | the lookup of one list element as written (`ElementCheck`): for a material list, `split(":")[0]` throws on an entry made only of colons and otherwise the entry fails when its material is unknown or refused by the mode; for the colour, entity and enchantment lists, the entry fails when the name is unknown |
| Validators.ListAccepted | bukkit/src/main/java/com/leonardobishop/quests/bukkit/util/TaskUtils.java:716-720 | the extended description is "The accepted values are:" followed by one "<br> - " bullet per accepted value, in order (`AcceptedListing`) |
| Validators.ListOutcome | bukkit/src/main/java/com/leonardobishop/quests/bukkit/util/TaskUtils.java:540-550 | the element loop as written; an exception it ends with is always ArrayIndexOutOfBoundsException, from a material list |
| Validators.ElementCheckAgrees | bukkit/src/main/java/com/leonardobishop/quests/bukkit/util/TaskUtils.java:541-544 | the lookup as written throws exactly on the colon-only entries of a material list, and otherwise decides as the intended check |
| Validators.ListOutcomeThrownStays | bukkit/src/main/java/com/leonardobishop/quests/bukkit/util/TaskUtils.java:540-550 | once an element has thrown, no later element is looked at |
| Validators.ListOutcomeWithoutThrow | bukkit/src/main/java/com/leonardobishop/quests/bukkit/util/TaskUtils.java:540-550 | with no colon-only entry, the loop as written returns normally and appends exactly the intended list problems (`ListProblems`) |
| Validators.ListOutcomeAtThrow | bukkit/src/main/java/com/leonardobishop/quests/bukkit/util/TaskUtils.java:540-550 | at the first colon-only entry the loop throws ArrayIndexOutOfBoundsException, leaving the warnings for the entries before it |
| Validators.ColonAfterUnknownExample | bukkit/src/main/java/com/leonardobishop/quests/bukkit/util/TaskUtils.java:540-550 | a material list ["BAD", ":"] with BAD unknown ends with the warning for BAD and ArrayIndexOutOfBoundsException |
| Validators.LaterPathsIgnored | bukkit/src/main/java/com/leonardobishop/quests/bukkit/util/TaskUtils.java:380-427 | every validator ignores the paths after the first one holding a value: configurations agreeing up to it get the same verdict |
| Validators.RequiredRule | bukkit/src/main/java/com/leonardobishop/quests/bukkit/util/TaskUtils.java:355-368 | the required validator reports exactly one ERROR (TASK_MISSING_FIELD about `paths[0]`) iff every path is null, and nothing otherwise |
| Validators.RequiredWithoutPathsThrows | bukkit/src/main/java/com/leonardobishop/quests/bukkit/util/TaskUtils.java:364-367 | the required validator with no paths throws ArrayIndexOutOfBoundsException |
| Validators.AbsentIsSilent | bukkit/src/main/java/com/leonardobishop/quests/bukkit/util/TaskUtils.java:378-729 | every other validator reports nothing and throws nothing when all its paths are null |
| Validators.TypeRule | bukkit/src/main/java/com/leonardobishop/quests/bukkit/util/TaskUtils.java:438-483 | the integer and boolean validators report at most one problem: an ERROR about the path found, exactly when its value has the wrong type |
| Validators.ItemStackRule | bukkit/src/main/java/com/leonardobishop/quests/bukkit/util/TaskUtils.java:378-429 | see the item-stack rule below the table |
| Validators.ListRule | bukkit/src/main/java/com/leonardobishop/quests/bukkit/util/TaskUtils.java:524-696 | see the list rule below the table |
| Validators.ListWarnings | bukkit/src/main/java/com/leonardobishop/quests/bukkit/util/TaskUtils.java:540-550 | list problems are WARNINGs about the path, never more than the elements |
| Validators.ListNamesFailing | bukkit/src/main/java/com/leonardobishop/quests/bukkit/util/TaskUtils.java:588-598 | an element is named by a warning iff it is listed and fails |
| Validators.ListCounts | bukkit/src/main/java/com/leonardobishop/quests/bukkit/util/TaskUtils.java:634-646 | no warnings iff no element fails; one per element iff all fail |
| Validators.EmptyListIsSilent | bukkit/src/main/java/com/leonardobishop/quests/bukkit/util/TaskUtils.java:530-551 | a present empty list reports nothing and still stops the search for a path |
| Validators.ScalarIsOneElementList | bukkit/src/main/java/com/leonardobishop/quests/bukkit/util/TaskUtils.java:530-539 | a single value is checked exactly as a one-element list of it |
| Validators.BlockModeExample | bukkit/src/main/java/com/leonardobishop/quests/bukkit/util/TaskUtils.java:485-550 | in BLOCK mode, ["DIAMOND_SWORD", "STONE"] gets exactly one warning, naming DIAMOND_SWORD |
| Validators.AcceptedValuesRule | bukkit/src/main/java/com/leonardobishop/quests/bukkit/util/TaskUtils.java:706-729 | exactly one WARNING (NOT_ACCEPTED_VALUE about the path, extended by the listing) iff the rendered value is not accepted, and none otherwise |
| Validators.BulletsPrefix | bukkit/src/main/java/com/leonardobishop/quests/bukkit/util/TaskUtils.java:716-718 | the listing of the first k accepted values is a prefix of the whole listing |
| Validators.AcceptedListingShowsAll | bukkit/src/main/java/com/leonardobishop/quests/bukkit/util/TaskUtils.java:716-720 | the listing shows each accepted value after its own "<br> - ", in the order given, each bullet right after the previous one |
| Validators.ColonEntryThrowsAsWritten | bukkit/src/main/java/com/leonardobishop/quests/bukkit/util/TaskUtils.java:542-543 | as written, the material-list check throws on ":" and "::" |
| Validators.MaterialEntryAsWrittenAgrees | bukkit/src/main/java/com/leonardobishop/quests/bukkit/util/TaskUtils.java:540-549 | the check as written throws exactly on entries made only of colons, and otherwise agrees with the intended check |

Properties too long for a table cell:

- **Block entry rule** (`Matchers.BlockEntryRule`). With no colon and no task `data`, an entry matches iff it names the block's material. With no colon and Integer `data`, the block's data must also equal `data`. With no colon and a non-Integer `data`, the entry throws ClassCastException. `NAME:k` with a parsable `k` matches iff NAME is the block's material and the block's data is k. An unparsable `k` throws NumberFormatException.
- **Selection rule** (`Applicable.PendingMembers`). `getApplicableTasks` returns a pending task iff all of the following hold:
  - its quest is registered and started;
  - the task belongs to the quest and has the requested type;
  - when the WORLD constraint is given, the task passes the world check;
  - the task's progress record is not completed.
  
  The entry carries that quest's and task's progress records.
- **Item-stack rule** (`Validators.ItemStackRule`). The item-stack validator reports at most one WARNING. A section with `quest-item` passes iff that item is registered. Otherwise a section passes iff its `item` (or, without `item`, its `type`) is a valid material. A plain value passes iff it names a material.
- **List rule** (`Validators.ListRule`), about `ListProblems`: what a list validator appends when no entry makes it throw, with the intended material check. A list validator reports WARNINGs about the path. An element is named by a warning iff it is listed and fails its lookup. There are no warnings iff no element fails, and one per element iff all fail.

## Left out

- **Debug tracing.** The `type.debug` calls in the matchers only emit trace lines.
- **`getDecimalTaskProgress`** (lines 117-125) is left out because it works on floating-point numbers.
- **Other helpers.** `getConfigQuestItem` builds item stacks through server constructors and the plugin's item registry. `getConfigBoolean` is a thin wrapper over the task's typed configuration getter.
- **The `validateWorld(Player, Task)` overload.** It only reads the player's world name, which is a string input here. The same holds for the world `getApplicableTasks` reads from the player.
- **Server APIs.** Bukkit registries and server calls are fields of `Platform`:
  - `Material.getMaterial`, `isBlock` and `isItem`;
  - the names of the DyeColor and EntityType constants;
  - `Enchantment.getByName`, the quest-item registry and `isValidMaterial`;
  - `Chat.legacyColor`, the character case folding used by `equalsIgnoreCase`, and a section's `toString`.
  
  Their real implementations are not part of this model. Neither is the wording of `ConfigProblemDescriptions`: a description is its kind plus its arguments.
- **Other numeric types.** Long and Double configuration values are not modelled. In the code, the `(Integer)` casts of `matchBlock`, `getIntegerTaskProgress` and the integer validator reject such a value as they reject any non-Integer. The list, accepted-values and item-stack validators instead render it with `String.valueOf`, and the rendering of a Long or Double is not part of this model.
- Applicable.GetApplicableTasks: requires every task it looks up to have a progress record already (`Tracked`), because `getQuestProgress` and `getTaskProgress` create a missing record on demand and that creation is not modelled. `hasStartedQuest` is reduced to the record's started flag.
- JavaLang.ParseInt: accepts only ASCII digits, while `Integer.parseInt` also accepts other Unicode decimal digits.
- **Inventory layout.** The player's inventory is an array whose first 36 entries are the storage slots. Each slot is assumed to hold its own stack object (`DistinctStacks`). A quest item's comparison of a stack is a predicate on the stack's kind.
- **Postconditions on lemmas.** The matcher functions and the validator factories have no postconditions of their own; their properties are the lemmas named in their rows.

## Findings

| source | as written | input that shows it | evidently intended | confidence | as-written member | corrected member |
|---|---|---|---|---|---|---|
| bukkit/src/main/java/com/leonardobishop/quests/bukkit/util/TaskUtils.java:542-543 | `materialName.split(":")` drops trailing empty pieces, so `split[0]` on an entry made only of colons throws ArrayIndexOutOfBoundsException out of the validator | a material list containing ":" (or "::") | report the entry as an unknown material, judging the text before the first colon (as `matchBlock` does with `split(":", 2)`) | medium; not executed | Validators.ListOutcome (used by Validators.Validate; shown by Validators.ColonAfterUnknownExample, Validators.ListOutcomeAtThrow and Validators.ColonEntryThrowsAsWritten) | Validators.MaterialEntryFails and Validators.ListProblems (Validators.ListRule proves every failing entry is reported as a WARNING; Validators.ListOutcomeWithoutThrow and Validators.MaterialEntryAsWrittenAgrees prove the written validator agrees with it on every list without a colon-only entry) |
