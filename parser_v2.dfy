/**
 * Version 2 exclusion-filter loading: reads a list of filter entries into
 * rule filters (conditions plus the rules they target) and input filters
 * (conditions, targeted rules and the inputs they hide), keyed by filter id.
 * A malformed entry is dropped and loading goes on; input addresses are
 * registered in the manifest, which threads through the whole list.
 */
module ParserV2 {
  import opened Wrappers
  import opened Values
  import opened Manifests
  import opened Conditions
  import opened Parameters
  import opened ParserV1

  /** How a rule filter names the rules it applies to. */
  datatype TargetKind = ById | ByTags

  /** One entry of `rules_target`: a rule id, or tags a rule must carry. */
  datatype RuleTarget = RuleTarget(kind: TargetKind, ruleId: string, tags: map<string, string>)

  datatype RuleFilterSpec = RuleFilterSpec(conditions: seq<Condition>, targets: seq<RuleTarget>)

  /** An input filter: `filter` lists the inputs (root id and key path) it hides. */
  datatype InputFilterSpec = InputFilterSpec(conditions: seq<Condition>, targets: seq<RuleTarget>, filter: seq<Target>)

  datatype Filters = Filters(ruleFilters: map<string, RuleFilterSpec>, inputFilters: map<string, InputFilterSpec>)

  const NoFilters := Filters(map[], map[])

  /** A list whose items must all be strings. */
  function StringsOf(items: seq<Value>): (r: Result<seq<string>, LoadError>)
    ensures r.Ok? <==> forall k :: 0 <= k < |items| ==> items[k].Str?
    ensures r.Ok? ==> |r.value| == |items| && forall k :: 0 <= k < |items| ==> r.value[k] == items[k].s
  {
    if forall k :: 0 <= k < |items| ==> items[k].Str? then Ok(seq(|items|, k requires 0 <= k < |items| => items[k].s))
    else Err(BadCast)
  }

  /** An input of a condition or of an input filter: an address, registered in the manifest, and an optional key path. */
  function ObjectInputOf(v: Value, st: ManifestState): (Result<Target, LoadError>, ManifestState) {
    match AsMap(v)
    case Err(e) => (Err(e), st)
    case Ok(m) =>
      match At(m, "address", AsString)
      case Err(e) => (Err(e), st)
      case Ok(address) =>
        match AtOr(m, "key_path", AsVector, [])
        case Err(e) => (Err(e), st)
        case Ok(keyItems) =>
          match StringsOf(keyItems)
          case Err(e) => (Err(e), st)
          case Ok(keyPath) =>
            var (st1, id) := InsertAddress(st, address);
            (Ok(Target(id, address, keyPath)), st1)
  }

  /** A filter condition: an `operator`, its `parameters` and their `inputs`; it has no transformers. */
  function ConditionV2Of(v: Value, st: ManifestState): (Result<Condition, LoadError>, ManifestState) {
    match AsMap(v)
    case Err(e) => (Err(e), st)
    case Ok(m) =>
      match At(m, "operator", AsString)
      case Err(e) => (Err(e), st)
      case Ok(operator) =>
        match At(m, "parameters", AsMap)
        case Err(e) => (Err(e), st)
        case Ok(params) =>
          match ProcessorOf(operator, params)
          case Err(e) => (Err(e), st)
          case Ok(processor) =>
            match At(params, "inputs", AsVector)
            case Err(e) => (Err(e), st)
            case Ok(inputs) =>
              var (targets, st1) := CollectFrom(inputs, 0, [], st, ObjectInputOf);
              if targets.Err? then (Err(targets.error), st1)
              else (Ok(Condition(targets.value, [], Some(processor))), st1)
  }

  /** A `rules_target` entry: a non-empty `rule_id` wins over `tags`; otherwise the tags must be non-empty. */
  function RuleTargetOf(v: Value): Result<RuleTarget, LoadError> {
    match AsMap(v)
    case Err(e) => Err(e)
    case Ok(m) =>
      match AtOr(m, "rule_id", AsString, "")
      case Err(e) => Err(e)
      case Ok(ruleId) =>
        if ruleId != "" then Ok(RuleTarget(ById, ruleId, map[]))
        else
          match AtOr(m, "tags", AsMap, [])
          case Err(e) => Err(e)
          case Ok(tagEntries) =>
            if tagEntries == [] then Err(Parsing("empty rules_target"))
            else
              match TagsFrom(tagEntries, 0, map[])
              case Err(e) => Err(e)
              case Ok(tags) => Ok(RuleTarget(ByTags, "", tags))
  }

  /** `RuleTargetOf` as a step that leaves the manifest alone. */
  function RuleTargetStep(v: Value, st: ManifestState): (Result<RuleTarget, LoadError>, ManifestState) {
    (RuleTargetOf(v), st)
  }

  /**
   * A target with a non-empty `rule_id` names that rule and drops any tags; a
   * target with only tags names rules by those tags and has an empty rule id.
   */
  lemma RuleTargetKinds(v: Value)
    ensures var r := RuleTargetOf(v);
            && (v.Map? && FindKey(v.entries, "rule_id").Some? && FindKey(v.entries, "rule_id").value.Str?
                && FindKey(v.entries, "rule_id").value.s != ""
                ==> r == Ok(RuleTarget(ById, FindKey(v.entries, "rule_id").value.s, map[])))
            && (r.Ok? && r.value.kind == ByTags ==>
                  && r.value.ruleId == ""
                  && v.Map? && FindKey(v.entries, "tags").Some?
                  && TagsOfPrefix(FindKey(v.entries, "tags").value.entries,
                                  |FindKey(v.entries, "tags").value.entries|, r.value.tags))
  {
    var r := RuleTargetOf(v);
    if r.Ok? && r.value.kind == ByTags {
      var entries := FindKey(v.entries, "tags").value.entries;
      assert entries[..0] == [];
      TagsMeaning(entries, 0, map[]);
    }
  }

  /** The targets of a filter keep the order of its `rules_target` list. */
  lemma {:induction false} RuleTargetsInOrder(items: seq<Value>, i: nat, acc: seq<RuleTarget>, st: ManifestState)
    requires i <= |items| && |acc| == i
    ensures var (r, st1) := CollectFrom(items, i, acc, st, RuleTargetStep);
            && st1 == st
            && (r.Ok? ==> && |r.value| == |items| && r.value[..i] == acc
                          && forall k :: i <= k < |items| ==> RuleTargetOf(items[k]) == Ok(r.value[k]))
    decreases |items| - i
  {
    if i < |items| && RuleTargetOf(items[i]).Ok? {
      var acc' := acc + [RuleTargetOf(items[i]).value];
      RuleTargetsInOrder(items, i + 1, acc', st);
      var r := CollectFrom(items, i, acc, st, RuleTargetStep).0;
      if r.Ok? {
        assert r.value[..i] == r.value[..i + 1][..i];
      }
    }
  }

  /** The conditions and targets a filter entry shares with both kinds of filter. */
  function FilterPartsOf(m: seq<Entry>, st: ManifestState): (Option<(seq<Condition>, seq<RuleTarget>)>, ManifestState) {
    match AtOr(m, "conditions", AsVector, [])
    case Err(_) => (None, st)
    case Ok(condItems) =>
      var (conditions, st1) := CollectFrom(condItems, 0, [], st, ConditionV2Of);
      if conditions.Err? then (None, st1)
      else
        match AtOr(m, "rules_target", AsVector, [])
        case Err(_) => (None, st1)
        case Ok(targetItems) =>
          var (targets, _) := CollectFrom(targetItems, 0, [], st1, RuleTargetStep);
          if targets.Err? then (None, st1)
          else (Some((conditions.value, targets.value)), st1)
  }

  /** A rule filter needs at least one condition or one target. */
  function RuleFilterOf(m: seq<Entry>, st: ManifestState): (Option<RuleFilterSpec>, ManifestState) {
    var (parts, st1) := FilterPartsOf(m, st);
    if parts.None? || (parts.value.0 == [] && parts.value.1 == []) then (None, st1)
    else (Some(RuleFilterSpec(parts.value.0, parts.value.1)), st1)
  }

  function InputFilterOf(m: seq<Entry>, st: ManifestState): (Option<InputFilterSpec>, ManifestState) {
    var (parts, st1) := FilterPartsOf(m, st);
    if parts.None? then (None, st1)
    else
      match At(m, "inputs", AsVector)
      case Err(_) => (None, st1)
      case Ok(inputs) =>
        var (objects, st2) := CollectFrom(inputs, 0, [], st1, ObjectInputOf);
        if objects.Err? then (None, st2)
        else (Some(InputFilterSpec(parts.value.0, parts.value.1, objects.value)), st2)
  }

  /**
   * One filter entry: dropped without a string id or with an id already
   * taken; an entry with `inputs` is an input filter, any other a rule filter.
   */
  function FilterEntry(v: Value, f: Filters, st: ManifestState): (Filters, ManifestState) {
    if !v.Map? then (f, st)
    else
      match At(v.entries, "id", AsString)
      case Err(_) => (f, st)
      case Ok(id) =>
        if id in f.ruleFilters || id in f.inputFilters then (f, st)
        else if FindKey(v.entries, "inputs").Some? then
          var (r, st1) := InputFilterOf(v.entries, st);
          (if r.Some? then f.(inputFilters := f.inputFilters[id := r.value]) else f, st1)
        else
          var (r, st1) := RuleFilterOf(v.entries, st);
          (if r.Some? then f.(ruleFilters := f.ruleFilters[id := r.value]) else f, st1)
  }

  function FiltersFrom(items: seq<Value>, i: nat, f: Filters, st: ManifestState): (Filters, ManifestState)
    requires i <= |items|
    decreases |items| - i
  {
    if i == |items| then (f, st)
    else
      var (f1, st1) := FilterEntry(items[i], f, st);
      FiltersFrom(items, i + 1, f1, st1)
  }

  /** `parse_filters`: every entry of the list in turn, from no filters. */
  function ParseFilters(items: seq<Value>, st: ManifestState): (Filters, ManifestState) {
    FiltersFrom(items, 0, NoFilters, st)
  }

  /** An entry that is not a map or has no string `id` adds no filter. */
  lemma EntryWithoutIdDropped(v: Value, f: Filters, st: ManifestState)
    requires !v.Map? || FindKey(v.entries, "id").None? || !FindKey(v.entries, "id").value.Str?
    ensures FilterEntry(v, f, st) == (f, st)
  {
  }

  /** An entry with only an `id` (no conditions, targets or inputs) adds no filter. */
  lemma EntryWithOnlyIdDropped(id: string, f: Filters, st: ManifestState)
    ensures FilterEntry(Map([Entry("id", Str(id))]), f, st).0 == f
  {
    var m := [Entry("id", Str(id))];
    FindKeyMeaning(m, "inputs");
    FindKeyMeaning(m, "conditions");
    FindKeyMeaning(m, "rules_target");
  }

  /** Rule-filter and input-filter ids never overlap. */
  ghost predicate Disjoint(f: Filters) {
    forall id :: id in f.ruleFilters ==> id !in f.inputFilters
  }

  /** `f2` keeps every filter of `f1`, unchanged. */
  ghost predicate Keeps2(f1: Filters, f2: Filters) {
    && (forall id :: id in f1.ruleFilters ==> id in f2.ruleFilters && f2.ruleFilters[id] == f1.ruleFilters[id])
    && (forall id :: id in f1.inputFilters ==> id in f2.inputFilters && f2.inputFilters[id] == f1.inputFilters[id])
  }

  /**
   * Filters are only ever added: a filter already present keeps its
   * definition whatever later entries share its id, so the first entry with
   * an id is the one kept, and no id names both a rule and an input filter.
   */
  lemma {:induction false} FiltersKeepFirst(items: seq<Value>, i: nat, f: Filters, st: ManifestState)
    requires i <= |items| && Disjoint(f)
    ensures var (f1, _) := FiltersFrom(items, i, f, st);
            Keeps2(f, f1) && Disjoint(f1)
    decreases |items| - i
  {
    if i < |items| {
      var (f1, st1) := FilterEntry(items[i], f, st);
      assert Keeps2(f, f1) && Disjoint(f1);
      FiltersKeepFirst(items, i + 1, f1, st1);
      var (f2, _) := FiltersFrom(items, i + 1, f1, st1);
      assert Keeps2(f, f2);
    }
  }

  /**
   * Of two entries with the same id, once the first has given a filter the
   * second is dropped: the result is what the first entry alone gave.
   */
  lemma DuplicateIdKeptOnce(a: Value, b: Value, st: ManifestState, id: string)
    requires b.Map? && FindKey(b.entries, "id") == Some(Str(id))
    ensures var (f, _) := FilterEntry(a, NoFilters, st);
            id in f.ruleFilters || id in f.inputFilters ==> ParseFilters([a, b], st).0 == f
  {
    var (f, st1) := FilterEntry(a, NoFilters, st);
    var items := [a, b];
    assert items[0] == a && items[1] == b;
    var (f2, st2) := FilterEntry(b, f, st1);
    assert FiltersFrom(items, 2, f2, st2) == (f2, st2);
    assert ParseFilters(items, st) == FiltersFrom(items, 1, f, st1) == (f2, st2);
  }

  /** An entry without `inputs` never adds an input filter; one with `inputs` never adds a rule filter. */
  lemma EntryKindSeparate(v: Value, f: Filters, st: ManifestState)
    ensures var (f1, _) := FilterEntry(v, f, st);
            && (v.Map? && FindKey(v.entries, "inputs").None? ==> f1.inputFilters == f.inputFilters)
            && (v.Map? && FindKey(v.entries, "inputs").Some? ==> f1.ruleFilters == f.ruleFilters)
  {
  }

  /**
   * A rule filter keeps all of its conditions and its targets in declaration
   * order; without `rules_target` it has no target and so applies globally.
   */
  lemma RuleFilterShape(m: seq<Entry>, st: ManifestState)
    ensures var (r, _) := RuleFilterOf(m, st);
            r.Some? ==>
              var condItems := if FindKey(m, "conditions").Some? then FindKey(m, "conditions").value.items else [];
              var targetItems := if FindKey(m, "rules_target").Some? then FindKey(m, "rules_target").value.items else [];
              && |r.value.conditions| == |condItems|
              && |r.value.targets| == |targetItems|
              && (forall k :: 0 <= k < |targetItems| ==> RuleTargetOf(targetItems[k]) == Ok(r.value.targets[k]))
              && (FindKey(m, "rules_target").None? ==> r.value.targets == [] && r.value.conditions != [])
  {
    var (r, _) := RuleFilterOf(m, st);
    if r.Some? {
      var condItems := AtOr(m, "conditions", AsVector, []).value;
      var (conditions, st1) := CollectFrom(condItems, 0, [], st, ConditionV2Of);
      CollectLength(condItems, 0, [], st, ConditionV2Of);
      var targetItems := AtOr(m, "rules_target", AsVector, []).value;
      RuleTargetsInOrder(targetItems, 0, [], st1);
      var targets := CollectFrom(targetItems, 0, [], st1, RuleTargetStep).0;
      assert FilterPartsOf(m, st).0 == Some((conditions.value, targets.value));
    }
  }

  /** An input filter given only `inputs` has no conditions, no targets and one hidden input per item. */
  lemma InputOnlyFilter(id: string, inputs: seq<Value>, st: ManifestState)
    requires CollectFrom(inputs, 0, [], st, ObjectInputOf).0.Ok?
    ensures var v := Map([Entry("id", Str(id)), Entry("inputs", Array(inputs))]);
            var (f, _) := FilterEntry(v, NoFilters, st);
            && f.ruleFilters == map[]
            && id in f.inputFilters
            && f.inputFilters[id].conditions == [] && f.inputFilters[id].targets == []
            && |f.inputFilters[id].filter| == |inputs|
  {
    var m := [Entry("id", Str(id)), Entry("inputs", Array(inputs))];
    assert FindKey(m, "inputs") == Some(Array(inputs)) by {
      assert m[1..] == [Entry("inputs", Array(inputs))];
    }
    FindKeyMeaning(m, "conditions");
    FindKeyMeaning(m, "rules_target");
    NoParts(m, st);
    var (objects, st2) := CollectFrom(inputs, 0, [], st, ObjectInputOf);
    assert InputFilterOf(m, st) == (Some(InputFilterSpec([], [], objects.value)), st2);
    CollectLength(inputs, 0, [], st, ObjectInputOf);
  }

  /** A map without `conditions` and `rules_target` has no conditions and no targets. */
  lemma NoParts(m: seq<Entry>, st: ManifestState)
    requires FindKey(m, "conditions").None? && FindKey(m, "rules_target").None?
    ensures FilterPartsOf(m, st) == (Some(([], [])), st)
  {
    assert CollectFrom([], 0, [], st, ConditionV2Of) == (Ok([]), st);
    assert CollectFrom([], 0, [], st, RuleTargetStep) == (Ok([]), st);
  }

  /** `[{id: 1, rules_target: [{rule_id: 2939}]}]` gives one unconditional rule filter naming rule 2939. */
  lemma SingleIdTarget(st: ManifestState)
    ensures var target := Map([Entry("rule_id", Str("2939"))]);
            var entry := Map([Entry("id", Str("1")), Entry("rules_target", Array([target]))]);
            ParseFilters([entry], st).0
            == Filters(map["1" := RuleFilterSpec([], [RuleTarget(ById, "2939", map[])])], map[])
  {
    var target := Map([Entry("rule_id", Str("2939"))]);
    var m := [Entry("id", Str("1")), Entry("rules_target", Array([target]))];
    assert FindKey(m, "rules_target") == Some(Array([target])) by {
      assert m[1..] == [Entry("rules_target", Array([target]))];
    }
    FindKeyMeaning(m, "inputs");
    FindKeyMeaning(m, "conditions");
    var t := RuleTarget(ById, "2939", map[]);
    assert RuleTargetOf(target) == Ok(t);
    assert CollectFrom([target], 0, [], st, RuleTargetStep).0 == Ok([t]) by {
      var items := [target];
      var one: seq<RuleTarget> := [t];
      assert |items| == 1 && items[0] == target;
      assert CollectFrom(items, 1, one, st, RuleTargetStep) == (Ok(one), st);
      assert RuleTargetStep(items[0], st) == (Ok(t), st);
      assert [] + [t] == one;
    }
    assert CollectFrom([], 0, [], st, ConditionV2Of) == (Ok([]), st);
    assert FilterPartsOf(m, st).0 == Some(([], [t]));
    var spec := RuleFilterSpec([], [t]);
    assert RuleFilterOf(m, st).0 == Some(spec);
    var entry := Map(m);
    var (f, st1) := FilterEntry(entry, NoFilters, st);
    assert f == Filters(map["1" := spec], map[]);
    assert FiltersFrom([entry], 1, f, st1) == (f, st1);
  }
}
