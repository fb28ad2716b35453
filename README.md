# libddwaf request-inspection core, modelled in Dafny

This project models the core of libddwaf, Datadog's in-app web application
firewall library. Its main parts are:

- **Manifest** (`manifest.dfy`). It maps address names such as
  `server.request.query` to numeric target ids. It supports `insert`, `find` and
  `remove_unused`, and a memoised `get_root_addresses`.
- **Object store** (`object_store.dfy`). It holds the request data the caller
  has passed in so far, keyed by target id. It also records which targets the
  latest call brought.
- **Conditions and rules** (`condition.dfy`, `rule.dfy`). A condition applies
  one operator to the leaves of its targets. The leaves are transformed first.
  The operator comes from the condition's own processor or from a dynamic
  processor named by its data id. A rule is a conjunction of conditions, and it
  produces an event when they all match.
- **Exclusion filters** (`exclusion.dfy`). Rule filters exclude whole rules, and
  input filters hide store objects from particular rules. A filter applies when
  its conditions match, or when it already matched on an earlier call of the
  same context.
- **Collections** (`collection.dfy`). Rules of the same `type` tag form a
  collection. Rules with actions are *priority* rules, and they are evaluated in
  a first pass. Each call produces at most one event per collection. A status
  cache remembers across calls which rules have matched.
- **Context** (`context.dfy`). This is the per-request object, with `insert`,
  `filter_rules`, `filter_inputs` and `match`. It keeps the status cache and the
  two filter caches, and each method is proved against the specification
  functions above.
- **Ruleset and ruleset_info** (`ruleset.dfy`, `ruleset_info.dfy`). These are
  the rule container and the loaded/failed/errors counters reported to the
  caller.
- **Ruleset parsers** (`parser_v1.dfy`, `parser_v2.dfy`):
  - `parseCondition`, `parseRule` and `parse` of format 1.
  - `parse_filters` of format 2, which reads the exclusion filters.

Configuration values are modelled as a `Value` tree (`values.dfy`). A map is a
list of key/value entries, and lookup by key takes the first entry with that key
(`parameter.dfy`). Operators and transformers are abstract functions, passed in
as `Operators` and a transformer lookup. The deadline is a boolean `expired`
flag.

## Model

| member | source | states |
|---|---|---|
| Manifests.InsertAddress | tests/manifest_test.cpp:16-61 | the inserted address is mapped to the returned id; a known address leaves the manifest as it was; a new one gets an id no other address has, and the manifest stays injective |
| Manifests.FindAddress | tests/manifest_test.cpp:16-33 | `find`: the id of an address; its meaning is stated by `FindInEmpty`, `FindAfterInsert`, `InsertKeepsOthers` and `FindAfterRemoveUnused` |
| Manifests.FindInEmpty | tests/manifest_test.cpp:9-14 | an empty manifest finds no address |
| Manifests.FindAfterInsert | tests/manifest_test.cpp:16-33 | `find` after `insert` returns the id that `insert` returned |
| Manifests.InsertIdempotent | tests/manifest_test.cpp:35-61 | inserting an address twice returns the same id and changes nothing the second time |
| Manifests.InsertKeepsOthers | tests/manifest_test.cpp:35-61 | inserting one address does not change what any other address finds |
| Manifests.RemoveUnusedTargets | tests/manifest_test.cpp:63-107 | `remove_unused` only removes addresses and keeps the manifest injective |
| Manifests.FindAfterRemoveUnused | tests/manifest_test.cpp:63-107 | after `remove_unused(live)` an address is found exactly when its id is live, and then with the same id |
| Manifests.RemoveUnusedAllLive | tests/manifest_test.cpp:68-96 | when every id is live, `remove_unused` changes nothing |
| Manifests.RemoveUnusedNothingLive | tests/manifest_test.cpp:98-106 | with no live id, `remove_unused` empties the manifest |
| Manifests.Manifest.constructor | tests/manifest_test.cpp:9-14 | a new manifest is empty and has no cached root list |
| Manifests.Manifest.Insert | tests/manifest_test.cpp:16-61 | the method behaves as `InsertAddress`; a known address keeps the cached root list |
| Manifests.Manifest.RemoveUnused | tests/manifest_test.cpp:63-107 | the method behaves as `RemoveUnusedTargets` and drops the cached root list |
| Manifests.Manifest.GetRootAddresses | tests/manifest_test.cpp:109-133 | returns every address exactly once, as many as the manifest holds; a second call returns the cached list |
| ObjectStores.StoreEntries | tests/context_test.cpp:283-367 | the store after a batch, key by key in order; its meaning is stated by `StoreEntriesKeys`, `StoreEntriesFrame` and `StoreEntriesLastWins` |
| ObjectStores.StoreEntriesKeys | tests/context_test.cpp:1903-2150 | after a batch, the store holds its old targets plus every known address of the batch |
| ObjectStores.StoreEntriesFrame | tests/context_test.cpp:283-367 | a target not named by the batch keeps its old object |
| ObjectStores.StoreEntriesLastWins | tests/context_test.cpp:283-367 | a target named several times in one batch holds the last object given for it |
| ObjectStores.ObjectStore.constructor | src/context.hpp:25-30 | a new store is empty and has no latest targets |
| ObjectStores.ObjectStore.Insert | tests/context_test.cpp:18 | insert succeeds exactly for a non-empty map; on success the objects are stored and the latest targets are those of the batch; on failure nothing changes |
| Conditions.ConstructorDefaults | src/condition.hpp:37-44 | a condition built without data id or source has an empty data id and reads values |
| Conditions.GetProcessor | src/condition.hpp:71-72 | a non-empty data id naming a dynamic processor selects it; otherwise the condition's own processor is used |
| Conditions.Match | src/condition.hpp:53-56 | `condition::match` over the targets and their visible leaves; its meaning is stated by `MatchSound`, `MatchComplete`, `ExpiredNeverMatches` and `ExcludedObjectsInvisible` |
| Conditions.MatchCondition | src/condition.hpp:53-56 | the loop over targets and leaves computes `Match` |
| Conditions.ExpiredTargets | src/condition.hpp:64-69 | with the deadline passed, matching targets times out exactly when some target has a visible leaf, and otherwise reports no match |
| Conditions.ExpiredNeverMatches | src/condition.hpp:53-56 | with the deadline passed, a condition never reports a match: it times out exactly when it has a processor and a visible leaf |
| Conditions.LiveTargetsComplete | src/condition.hpp:64-69 | before the deadline, matching targets always finishes |
| Conditions.LiveLeavesComplete | src/condition.hpp:64-69 | before the deadline, matching the leaves of one target always finishes |
| Conditions.LeavesSound | src/condition.hpp:64-69 | a reported match is the match of some leaf of the target |
| Conditions.TargetsSound | src/condition.hpp:64-69 | a reported match comes from some leaf of some target |
| Conditions.MatchSound | src/condition.hpp:53-56 | a condition matches only with a processor selected, and then on a leaf of one of its targets |
| Conditions.LeavesComplete | src/condition.hpp:64-69 | before the deadline, a matching leaf makes the target match |
| Conditions.TargetsComplete | src/condition.hpp:64-69 | before the deadline, a matching leaf of any target makes the targets match |
| Conditions.MatchComplete | src/condition.hpp:53-56 | before the deadline, a matching leaf of any target makes the condition match |
| Conditions.ExcludedTargetsHidden | src/condition.hpp:53-56 | objects in the excluded set contribute nothing: the result is as if they were absent from the store |
| Conditions.NothingVisible | tests/context_test.cpp:1473-1515 | a condition whose every target is excluded does not match, even after the deadline |
| Conditions.ExcludedObjectsInvisible | tests/context_test.cpp:1473-1515 | a condition gives the same result with an excluded object as with that object removed from the store |
| Conditions.SingleStringMatch | tests/context_test.cpp:90-122 | a string at the target's root that the operator matches makes the condition match |
| Conditions.MatchAll | tests/context_test.cpp:90-122 | the conditions of a rule evaluated in order; its meaning is stated by `MatchAllIff`, `MatchAllRecords` and `MatchAllLive` |
| Conditions.MatchAllIff | tests/context_test.cpp:90-122 | the conditions of a rule all match exactly when every condition matches, in order |
| Conditions.MatchAllRecords | tests/context_test.cpp:180-195 | a match of all the conditions has one record per condition, each being that condition's own match |
| Conditions.MatchAllLive | tests/context_test.cpp:56-88 | before the deadline, evaluating a rule's conditions always finishes |
| Rules.EvalRule | tests/context_test.cpp:90-122 | a rule's evaluation into an event; its meaning is stated by `RuleFiresIff`, `EventCarriesRule`, `RuleLive` and `ExcludedRuleSilent` |
| Rules.RuleFiresIff | tests/context_test.cpp:90-122 | a rule produces an event exactly when it has conditions and every one of them matches |
| Rules.EventCarriesRule | tests/context_test.cpp:180-195 | an event carries the rule's id, name, type, category and actions, and one match record per condition |
| Rules.RuleLive | tests/context_test.cpp:56-88 | before the deadline, a rule's evaluation always finishes |
| Rules.ExcludedRuleSilent | tests/context_test.cpp:1473-1515 | a rule whose first condition sees only excluded objects produces no event |
| Rulesets.RuleIds | tests/context_test.cpp:124-196 | the id set holds exactly the ids of the rule list |
| Rulesets.Ruleset.constructor | tests/context_test.cpp:124-196 | a new ruleset has no rules, no filters and no dynamic processors |
| Rulesets.Ruleset.InsertRule | src/parser/parser_v1.cpp:155 | a rule is appended unless a rule with its id is already present |
| Rulesets.Ruleset.AddRuleFilter | tests/context_test.cpp:1098-1170 | a rule filter is added under its id, and an existing id keeps its first filter |
| Rulesets.Ruleset.AddInputFilter | tests/context_test.cpp:1777-1901 | an input filter is added under its id, and an existing id keeps its first filter |
| RulesetInfos.WithFailed | src/ruleset_info.hpp:30-36 | `failed` goes up by one and nothing else changes |
| RulesetInfos.WithLoaded | src/ruleset_info.hpp:37-43 | `loaded` goes up by one and nothing else changes |
| RulesetInfos.WithError | src/ruleset_info.hpp:45 | the rule id is appended under its error; other errors and both counters are unchanged |
| RulesetInfos.InfoRecord.constructor | src/ruleset_info.hpp:19-28 | the record starts with the given counters and no errors |
| RulesetInfos.RulesetInfo.constructor | src/ruleset_info.hpp:19-28 | a present record is reset to zero loaded, zero failed and no errors |
| RulesetInfos.RulesetInfo.AddFailed | src/ruleset_info.hpp:30-36 | a present record becomes `WithFailed` of its old value |
| RulesetInfos.RulesetInfo.AddLoaded | src/ruleset_info.hpp:37-43 | a present record becomes `WithLoaded` of its old value |
| RulesetInfos.RulesetInfo.InsertError | src/ruleset_info.hpp:45 | a present record becomes `WithError` of its old value |
| Values.FindKeyMeaning | src/parser/parser_v1.cpp:33-34 | a key lookup returns the value of an entry with that key, and finds nothing exactly when no entry has the key |
| Parameters.At | src/parser/parser_v1.cpp:33-34 | a required key is reported missing exactly when absent; when present, the read succeeds exactly when the value has the requested type |
| Parameters.AtOr | src/parser/parser_v1.cpp:121 | an optional key yields its default when absent and a required read otherwise |
| ParserV1.SplitAddress | src/parser/parser_v1.cpp:86-94 | the root and key path of an address; its meaning is stated by `SplitAddressRoundTrip` |
| ParserV1.SplitAddressRoundTrip | src/parser/parser_v1.cpp:86-101 | an address is split at its first `:` when text follows it; root and key are then non-empty, the root has no `:`, and joining them gives the address back; otherwise the whole address is the root |
| ParserV1.InputTargetMeaning | src/parser/parser_v1.cpp:78-103 | an input gives a target exactly when it is a non-empty string; the empty string is the empty-address error; the target's root is the manifest id of the split name; a failure leaves the manifest alone |
| ParserV1.TargetsRegistered | src/parser/parser_v1.cpp:96-98 | parsing inputs only adds addresses, and every target parsed is registered in the resulting manifest |
| ParserV1.ConditionTargetsRegistered | src/parser/parser_v1.cpp:78-103 | every target of a parsed input list is registered in the manifest that results |
| ParserV1.PhrasesMeaning | src/parser/parser_v1.cpp:38-56 | a phrase list is accepted exactly when every item is a string; each pattern keeps its text and its length truncated to 32 bits; otherwise the list-item error results |
| ParserV1.ProcessorOperation | src/parser/parser_v1.cpp:38-75 | the unknown-processor error results exactly for an operation outside the four supported ones; a built processor has the requested operation |
| ParserV1.NegativeMinLengthRejected | src/parser/parser_v1.cpp:56-64 | `match_regex` is rejected for a negative `min_length` exactly when `regex` is a string, `options` is absent or a map, `case_sensitive` is absent or a bool and `min_length` is a negative integer, for any parameters |
| ParserV1.ParsePhraseList | src/parser/parser_v1.cpp:41-52 | the loop over the list computes `PhrasesFrom` |
| ParserV1.ParseProcessor | src/parser/parser_v1.cpp:36-75 | the operation dispatch computes `ProcessorOf` |
| ParserV1.ConditionOf | src/parser/parser_v1.cpp:30-107 | `parseCondition` on values; its meaning is stated by `ConditionOfMeaning` |
| ParserV1.ConditionOfMeaning | src/parser/parser_v1.cpp:30-107 | a parsed condition has one registered target per input, the rule's transformers, a processor for the named operation, no data id, and reads values; the manifest only grows |
| ParserV1.ParseCondition | src/parser/parser_v1.cpp:30-107 | the method's result and manifest update are those of `ConditionOf` |
| ParserV1.TransformersMeaning | src/parser/parser_v1.cpp:120-129 | the transformer list is accepted exactly when every item is a known name, and each id is that name's id, in order |
| ParserV1.TagsMeaning | src/parser/parser_v1.cpp:139-146 | tags are accepted exactly when each key's first value is a string; each tag then holds that first value, and the key set is the set of entry keys |
| ParserV1.MissingTypeRejected | src/parser/parser_v1.cpp:148-150 | well-formed tags contain `type` exactly when an entry named `type` exists |
| ParserV1.RuleOf | src/parser/parser_v1.cpp:109-161 | `parseRule` on values; its meaning is stated by `DuplicateRejected`, `RuleOfEscapes`, `RuleOfAfterId`, `RuleOfLoaded` and `RuleKeeps` |
| ParserV1.DuplicateRejected | src/parser/parser_v1.cpp:112-117 | a rule whose id is already loaded is rejected as a duplicate, and the manifest is left alone |
| ParserV1.RuleOfEscapes | src/parser/parser_v1.cpp:112-117 | an entry escapes `parseRule` exactly when it has no string id; any other failure is recorded under that id |
| ParserV1.RuleOfAfterId | src/parser/parser_v1.cpp:119-160 | once an id is read, the rule is either loaded with that id or rejected under it |
| ParserV1.RuleOfLoaded | src/parser/parser_v1.cpp:119-156 | a loaded rule has a new id, a `type` tag, the entry's name, no actions, and only known transformers |
| ParserV1.RuleKeeps | src/parser/parser_v1.cpp:109-161 | parsing a rule never removes or renumbers an address of the manifest |
| ParserV1.RuleBodyKeeps | src/parser/parser_v1.cpp:119-160 | parsing a rule body never removes or renumbers an address of the manifest |
| ParserV1.ConditionsKeep | src/parser/parser_v1.cpp:131-137 | parsing a condition list never removes or renumbers an address of the manifest |
| ParserV1.ParseTransformers | src/parser/parser_v1.cpp:120-129 | the loop over transformers computes `TransformersFrom` |
| ParserV1.ParseConditions | src/parser/parser_v1.cpp:131-137 | the loop over conditions computes `ConditionsFrom` and the manifest it leaves |
| ParserV1.ParseTags | src/parser/parser_v1.cpp:139-146 | the loop over tags computes `TagsFrom` |
| ParserV1.BuildRule | src/parser/parser_v1.cpp:148-153 | the rule is built as `RuleFrom` describes, with the `type` check |
| ParserV1.ParseRuleBody | src/parser/parser_v1.cpp:119-153 | the body parse returns `RuleBodyOf` and leaves its manifest |
| ParserV1.AddRule | src/parser/parser_v1.cpp:119-160 | a parsed body is appended and counted as loaded; a failure is recorded under the rule id; the manifest is the body's |
| ParserV1.ParseRule | src/parser/parser_v1.cpp:109-161 | the method's outcome, manifest, rule list and counters are those of `RuleOf` and `Record`; an escaping error leaves the counters alone |
| ParserV1.LoadEntry | src/parser/parser_v1.cpp:170-178 | a non-map entry and an escaping error count as failed; anything else is recorded as `parseRule` decided |
| ParserV1.LoadFrom | src/parser/parser_v1.cpp:170-178 | the loop of `parse` on values; its meaning is stated by `LoadFromStep` and `LoadFromMeaning` |
| ParserV1.LoadFromStep | src/parser/parser_v1.cpp:170-178 | loading entries handles the first entry and then continues from its results |
| ParserV1.LoadFromMeaning | src/parser/parser_v1.cpp:170-178 | loading only appends rules, keeps ids unique, counts every appended rule as loaded, adds to `failed` exactly one per entry that is not a map or has no string id, and only adds addresses |
| ParserV1.ParseSpec | src/parser/parser_v1.cpp:165-186 | `parse` on values; its meaning is stated by `ParseSpecMeaning` |
| ParserV1.ParseSpecMeaning | src/parser/parser_v1.cpp:165-186 | `parse` fails exactly when `events` is missing or not a list, or when no rule is loaded; on success the rule list is non-empty; ids stay unique; `failed` grows by exactly the number of entries that are not maps or have no string id |
| ParserV1.Parse | src/parser/parser_v1.cpp:165-186 | the method's result, manifest, rules and counters are those of `ParseSpec` |
| ParserV2.StringsOf | tests/parser_v2_rule_filters.cpp:291-316 | a list converts to strings exactly when every item is a string, keeping order and text |
| ParserV2.RuleTargetOf | tests/parser_v2_rule_filters.cpp:55-137 | one `rules_target` item; its meaning is stated by `RuleTargetKinds` |
| ParserV2.RuleTargetKinds | tests/parser_v2_rule_filters.cpp:55-137 | a non-empty `rule_id` makes an id target and drops the tags; a tag target has an empty rule id and exactly the given tags |
| ParserV2.RuleTargetsInOrder | tests/parser_v2_rule_filters.cpp:139-176 | the targets of a filter are its `rules_target` items, parsed one by one and in order |
| ParserV2.FilterEntry | tests/parser_v2_input_filters.cpp:9-65 | one entry of the filter list; its meaning is stated by `EntryWithoutIdDropped`, `EntryKindSeparate`, `RuleFilterShape` and `InputOnlyFilter` |
| ParserV2.ParseFilters | tests/parser_v2_rule_filters.cpp:9-316 | `parse_filters`; its meaning is stated by `FiltersKeepFirst`, `DuplicateIdKeptOnce` and `SingleIdTarget` |
| ParserV2.EntryWithoutIdDropped | tests/parser_v2_rule_filters.cpp:24-37 | an entry without a string `id` adds no filter |
| ParserV2.EntryWithOnlyIdDropped | tests/parser_v2_rule_filters.cpp:9-22 | an entry with only an `id` adds no filter |
| ParserV2.FiltersKeepFirst | tests/parser_v2_rule_filters.cpp:39-53 | parsing only adds filters: one already present keeps its definition, and no id names both a rule filter and an input filter |
| ParserV2.DuplicateIdKeptOnce | tests/parser_v2_input_filters.cpp:24-40 | of two entries with the same id, the second is dropped once the first gave a filter |
| ParserV2.EntryKindSeparate | tests/parser_v2_input_filters.cpp:42-65 | an entry with `inputs` adds only input filters, and one without adds only rule filters |
| ParserV2.RuleFilterShape | tests/parser_v2_rule_filters.cpp:268-316 | a rule filter has one condition per `conditions` item and one target per `rules_target` item, in order; without `rules_target` it has no targets but has conditions |
| ParserV2.InputOnlyFilter | tests/parser_v2_input_filters.cpp:42-65 | an input filter given only `inputs` has no conditions, no targets and one hidden input per item |
| ParserV2.SingleIdTarget | tests/parser_v2_rule_filters.cpp:55-80 | `[{id: 1, rules_target: [{rule_id: 2939}]}]` gives exactly one unconditional rule filter naming rule 2939 |
| Exclusions.UnconditionalTriggers | tests/context_test.cpp:1098-1170 | a filter without conditions always applies |
| Exclusions.FilterRulesSpec | tests/context_test.cpp:921-1471 | `filter_rules`: the filter cache and excluded rules after a call; its meaning is stated by `FilterRulesExcludes`, `FilterRulesTimeout` and `FilterRulesAccumulate` |
| Exclusions.FilterRulesExcludes | tests/context_test.cpp:921-1096 | a rule is excluded exactly when it is a target of some filter that matched now or on an earlier call |
| Exclusions.FilterRulesTimeout | tests/context_test.cpp:982-1036 | `filter_rules` times out exactly when the deadline has passed and there is a filter to evaluate |
| Exclusions.FilterRulesAccumulate | tests/context_test.cpp:1098-1471 | across calls, with filters only added, the filter cache and the excluded rules only grow |
| Exclusions.FilterInputsSpec | tests/context_test.cpp:1473-2150 | `filter_inputs`: the filter cache and hidden objects after a call; its meaning is stated by `FilterInputsHides`, `FilterInputsEntries` and `FilterInputsAccumulate` |
| Exclusions.FilterInputsHides | tests/context_test.cpp:1473-1901 | an object is hidden from a rule exactly when the rule is not already excluded, the object is stored, and some matching filter targets both |
| Exclusions.FilterInputsEntries | tests/context_test.cpp:1517-1562 | each entry of the result names a non-excluded rule and a non-empty set of stored objects |
| Exclusions.FilterInputsAccumulate | tests/context_test.cpp:1564-1659 | across calls, with filters and objects only added, the cache and each rule's hidden objects only grow |
| Contexts.ExcludedInputsAdd | tests/context_test.cpp:1777-1901 | applying one more input filter merges its objects into the entries of its targets that are not excluded |
| Contexts.ExcludedInputsTriggeredInFilters | tests/context_test.cpp:1777-1901 | cached ids of filters no longer present contribute nothing |
| Contexts.EvaluatePass | tests/context_test.cpp:198-281 | the loop over one pass of the rules computes `RunPass` |
| Contexts.Context.constructor | src/context.hpp:25-30 | a new context has an empty store, and empty status and filter caches (so it is on its first run) |
| Contexts.Context.IsFirstRun | src/context.hpp:46 | a context is on its first run while its status cache is empty |
| Contexts.Context.Insert | tests/context_test.cpp:18 | the context's insert is the store's insert: it succeeds exactly for a non-empty map; on success the stored objects are the batch applied to the old ones and the latest targets are those of the batch; on failure objects and latest targets are unchanged |
| Contexts.Context.FilterRules | tests/context_test.cpp:921-1471 | the method's result and cache are those of `FilterRulesSpec`; a timeout leaves the cache alone |
| Contexts.Context.FilterInputs | tests/context_test.cpp:1473-2150 | the method's result and cache are those of `FilterInputsSpec`; a timeout leaves the cache alone |
| Contexts.Context.Match | tests/context_test.cpp:124-919 | the method's events and status cache are those of `MatchSpec` (whose completeness for rules with and without actions is proved in `PriorityRuleWins` and `RegularRuleFires`); a timeout leaves the status cache alone |
| Collections.Eligible | tests/context_test.cpp:369-667 | which rules may still run: a priority rule not yet matched in a collection without an event in this call, or a rule without actions in a collection with no match; its effect is stated by `ClosedCollectionNeedsActions` and `PriorityRuleWins` |
| Collections.Step | src/context.hpp:41-44 | the handling of one rule in a pass; its effect on the call is stated by `StepInv` through the collection lemmas |
| Collections.RunPass | src/context.hpp:41-44 | one pass over the rules; its meaning is stated by `PassTimeout` and `PassSilent` |
| Collections.MatchSpec | tests/context_test.cpp:124-919 | a `match` call: the priority pass then the regular pass; its meaning is stated by `MatchTimeout`, `OneEventPerCollection`, `StatusCacheMeaning`, `PriorityRuleWins` and `RegularRuleFires` |
| Collections.PassTimeout | tests/context_test.cpp:23-54 | a pass times out exactly when the deadline has passed and there is a rule to evaluate |
| Collections.MatchTimeout | tests/context_test.cpp:44-53 | `match` times out exactly when the deadline has passed and there is a rule |
| Collections.OneEventPerCollection | tests/context_test.cpp:124-196 | one call produces at most one event per collection |
| Collections.ExcludedRulesSilent | tests/context_test.cpp:921-980 | a rule excluded by a rule filter never produces an event |
| Collections.PassSilent | tests/context_test.cpp:1038-1096 | a rule that cannot fire adds no event in a pass |
| Collections.SilentRuleNoEvent | tests/context_test.cpp:1038-1096 | a rule that cannot fire produces no event from `match` |
| Collections.HiddenInputsSilenceRule | tests/context_test.cpp:1473-1515 | a rule whose first condition's targets are all hidden from it produces no event |
| Collections.StatusCacheMeaning | src/context.hpp:52-54 | the status cache only grows towards matched; a rule becomes matched in a call exactly when that call produced an event for it; every entry a call writes belongs to a rule that was not excluded and was evaluated, and it is true exactly when that rule fired, so an excluded rule's entry stays as it was (absent stays absent); a rule that may run (not excluded, not matched before, with actions or in a collection without a match) and whose collection gets no event in the call is recorded as evaluated without a match |
| Collections.ClosedCollectionNeedsActions | tests/context_test.cpp:369-474 | once a rule of a collection has matched, later events of that collection all come from priority rules |
| Collections.PriorityEventKept | tests/context_test.cpp:475-562 | a priority event of a collection stays among the events as more are appended |
| Collections.PriorityStepFires | tests/context_test.cpp:198-281 | an eligible priority rule that matches adds a priority event for its collection |
| Collections.PriorityPassFires | tests/context_test.cpp:198-281 | a matching priority rule not yet matched yields a priority event for its collection in the first pass |
| Collections.PriorityRuleWins | tests/context_test.cpp:563-667 | if a priority rule of a collection matches and has not matched before, `match` reports an event of that collection carrying actions |
| Collections.RegularRuleFires | tests/context_test.cpp:124-196 | a rule without actions that is the first of its collection to fire, in a collection with no earlier match, gives its event, which is the only event of its collection in the call, and it is recorded as matched |
| Collections.TwoCollectionsFire | tests/context_test.cpp:669-725 | two such rules of different collections both give their own events in the same call |

## Left out

- The object store source (`object_store.hpp`) is not part of this model. `ObjectStores.ObjectStore.Insert` follows the store's documented behaviour: it fails on an empty or non-map top level and leaves the state unchanged. Each top-level key replaces the stored object of its address, and a later duplicate wins.
- `parameter.hpp` is not part of this model. Looking up a key takes the first entry with that key, and a conversion fails on a value of the wrong type.
- `RulesetInfos.WithError`: the body of `insert_error` is not part of this model. It is modelled as appending the rule id to the list kept under the error message, without touching the counters.
- The internals of operators (`ip_match`, `exact_match`, `phrase_match`, `match_regex`, `is_xss`, `is_sqli`) and transformers are left out. They are abstract functions supplied through `Operators`, and a regex's options are kept as values and not compiled.
- The deadline is left out as a clock. It is the boolean `expired`, which holds for the whole call: it is checked before each rule, before each filter, and before each leaf.
- `object_limits` (depth, container size and string length limits) is left out. Traversal is unbounded.
- The obfuscator, logging (`DDWAF_WARN` and similar), `free_fn` and memory ownership are left out, because they do not affect the results modelled.
- The serialisation of events to JSON is left out. Events are returned as values.
- `context::run` and `run_collection` are left out as written. The context is modelled through `insert`, `filter_rules`, `filter_inputs` and `match`, in the form the context tests use.
- `Conditions.ExcludedObjectsInvisible`: objects excluded from a rule are identified by their store target id, not by pointer. A hidden input hides the whole object stored for its address.
- `run_on_new` is carried as a parameter of `Conditions.Match`, but rules always evaluate with it false, as in the context tests.
- Conditions in format 2 use the operator table of format 1. Format 2 resolves rule targets only as far as `(rule_id | tags)`; turning them into sets of rules is left out.
- `ParserV2.EntryWithoutIdDropped`: the logged error of an entry that has no id, or has only an id, is left out. The entry is dropped silently.
- The validator and the fuzzing builder are left out, because they are tools around the library and not part of it.
- Rules with no conditions never produce an event. The code that evaluates rules is not part of this model, and this follows its documented behaviour.
