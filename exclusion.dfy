/**
 * Exclusion filters. A rule filter removes whole rules from evaluation; an
 * input filter hides root objects from chosen rules. Both trigger when all of
 * their conditions match (a filter without conditions always triggers), and
 * a filter that triggered in an earlier call of the same context stays
 * triggered.
 */
module Exclusions {
  import opened Wrappers
  import opened Manifests
  import opened ObjectStores
  import opened Conditions

  /** Excludes the rules whose ids are in `targets`. */
  datatype RuleFilter = RuleFilter(id: string, conditions: seq<Condition>, targets: set<string>)

  /** Hides the root objects in `objects` from the rules whose ids are in `targets`. */
  datatype InputFilter = InputFilter(id: string, conditions: seq<Condition>, targets: set<string>, objects: set<TargetId>)

  /** All conditions of a filter match the store. */
  predicate Triggers(ops: Operators, conds: seq<Condition>, view: StoreView, dynamic: map<string, Processor>) {
    MatchAll(ops, conds, view, {}, dynamic, false).Done? && MatchAll(ops, conds, view, {}, dynamic, false).value.Some?
  }

  /** A filter without conditions always triggers. */
  lemma UnconditionalTriggers(ops: Operators, view: StoreView, dynamic: map<string, Processor>)
    ensures Triggers(ops, [], view, dynamic)
  {
  }

  /** The rule filters triggered so far: the earlier ones and those whose conditions match now. */
  ghost function TriggeredRuleFilters(ops: Operators, filters: map<string, RuleFilter>, view: StoreView,
                                      dynamic: map<string, Processor>, cache: set<string>): set<string>
  {
    cache + set id | id in filters && Triggers(ops, filters[id].conditions, view, dynamic)
  }

  /** The union of the target sets of the triggered rule filters. */
  function ExcludedRules(filters: map<string, RuleFilter>, triggered: set<string>): set<string> {
    set id, rid | id in triggered && id in filters && rid in filters[id].targets :: rid
  }

  /**
   * `filter_rules`: the deadline is checked before each filter, so an expired
   * deadline fails the call as soon as there is a filter; otherwise the new
   * trigger cache and the excluded rule ids.
   */
  ghost function FilterRulesSpec(ops: Operators, filters: map<string, RuleFilter>, view: StoreView,
                                 dynamic: map<string, Processor>, cache: set<string>, expired: bool): Timed<(set<string>, set<string>)>
  {
    if expired && |filters| > 0 then Timeout
    else
      var triggered := TriggeredRuleFilters(ops, filters, view, dynamic, cache);
      Done((triggered, ExcludedRules(filters, triggered)))
  }

  /** A rule is excluded exactly when a filter that triggered, now or earlier, targets it. */
  lemma FilterRulesExcludes(ops: Operators, filters: map<string, RuleFilter>, view: StoreView,
                            dynamic: map<string, Processor>, cache: set<string>, rid: string)
    ensures FilterRulesSpec(ops, filters, view, dynamic, cache, false).Done?
    ensures var excluded := FilterRulesSpec(ops, filters, view, dynamic, cache, false).value.1;
            rid in excluded <==>
              exists id :: id in filters && rid in filters[id].targets
                           && (id in cache || Triggers(ops, filters[id].conditions, view, dynamic))
  {
    var triggered := TriggeredRuleFilters(ops, filters, view, dynamic, cache);
    if exists id :: id in filters && rid in filters[id].targets
                    && (id in cache || Triggers(ops, filters[id].conditions, view, dynamic)) {
      var id :| id in filters && rid in filters[id].targets
                && (id in cache || Triggers(ops, filters[id].conditions, view, dynamic));
      assert id in triggered;
    }
  }

  /** The deadline fails `filter_rules` exactly when there is a filter to evaluate. */
  lemma FilterRulesTimeout(ops: Operators, filters: map<string, RuleFilter>, view: StoreView,
                           dynamic: map<string, Processor>, cache: set<string>, expired: bool)
    ensures FilterRulesSpec(ops, filters, view, dynamic, cache, expired).Timeout? <==> expired && filters != map[]
  {
    if filters != map[] {
      var id :| id in filters;
      assert id in filters.Keys;
    }
  }

  /** `m2` holds every filter of `m1`, unchanged. */
  ghost predicate Extends<F>(m1: map<string, F>, m2: map<string, F>) {
    forall id :: id in m1 ==> id in m2 && m2[id] == m1[id]
  }

  /**
   * Exclusions accumulate: a second call, after more data and more filters,
   * excludes every rule the first call excluded.
   */
  lemma FilterRulesAccumulate(ops: Operators, f1: map<string, RuleFilter>, f2: map<string, RuleFilter>,
                              v1: StoreView, v2: StoreView, dynamic: map<string, Processor>, cache: set<string>)
    requires Extends(f1, f2)
    ensures var (c1, ex1) := FilterRulesSpec(ops, f1, v1, dynamic, cache, false).value;
            var (c2, ex2) := FilterRulesSpec(ops, f2, v2, dynamic, c1, false).value;
            c1 <= c2 && ex1 <= ex2
  {
    var (c1, ex1) := FilterRulesSpec(ops, f1, v1, dynamic, cache, false).value;
    var (c2, ex2) := FilterRulesSpec(ops, f2, v2, dynamic, c1, false).value;
    forall rid | rid in ex1 ensures rid in ex2 {
      var id :| id in c1 && id in f1 && rid in f1[id].targets;
      assert id in c2 && id in f2 && rid in f2[id].targets;
    }
  }

  /** The input filters triggered so far. */
  ghost function TriggeredInputFilters(ops: Operators, filters: map<string, InputFilter>, view: StoreView,
                                       dynamic: map<string, Processor>, cache: set<string>): set<string>
  {
    cache + set id | id in filters && Triggers(ops, filters[id].conditions, view, dynamic)
  }

  /** The rules targeted by a triggered input filter. */
  function InputTargets(filters: map<string, InputFilter>, triggered: set<string>): set<string> {
    set id, rid | id in triggered && id in filters && rid in filters[id].targets :: rid
  }

  /** The objects present in the store that the triggered filters hide from rule `rid`. */
  function ObjectsFor(filters: map<string, InputFilter>, triggered: set<string>, objects: set<TargetId>, rid: string): set<TargetId> {
    set id, o | id in triggered && id in filters && rid in filters[id].targets && o in filters[id].objects && o in objects :: o
  }

  /** The map returned by `filter_inputs`: an entry for each rule not already excluded that has objects to hide. */
  function ExcludedInputs(filters: map<string, InputFilter>, triggered: set<string>, objects: set<TargetId>,
                          excludedRules: set<string>): map<string, set<TargetId>>
  {
    map rid | rid in InputTargets(filters, triggered) && rid !in excludedRules
                && ObjectsFor(filters, triggered, objects, rid) != {}
            :: ObjectsFor(filters, triggered, objects, rid)
  }

  /** `filter_inputs`: like `filter_rules`, the deadline is checked before each filter. */
  ghost function FilterInputsSpec(ops: Operators, filters: map<string, InputFilter>, view: StoreView,
                                  dynamic: map<string, Processor>, cache: set<string>, excludedRules: set<string>,
                                  expired: bool): Timed<(set<string>, map<string, set<TargetId>>)>
  {
    if expired && |filters| > 0 then Timeout
    else
      var triggered := TriggeredInputFilters(ops, filters, view, dynamic, cache);
      Done((triggered, ExcludedInputs(filters, triggered, view.objects.Keys, excludedRules)))
  }

  /**
   * An object is hidden from a rule exactly when the rule is not already
   * excluded, the object is in the store, and a triggered filter targets both.
   */
  lemma FilterInputsHides(ops: Operators, filters: map<string, InputFilter>, view: StoreView,
                          dynamic: map<string, Processor>, cache: set<string>, excludedRules: set<string>,
                          rid: string, o: TargetId)
    ensures FilterInputsSpec(ops, filters, view, dynamic, cache, excludedRules, false).Done?
    ensures var hidden := FilterInputsSpec(ops, filters, view, dynamic, cache, excludedRules, false).value.1;
            (rid in hidden && o in hidden[rid]) <==>
              (rid !in excludedRules && o in view.objects
               && exists id :: id in filters && rid in filters[id].targets && o in filters[id].objects
                               && (id in cache || Triggers(ops, filters[id].conditions, view, dynamic)))
  {
    var triggered := TriggeredInputFilters(ops, filters, view, dynamic, cache);
    if rid !in excludedRules && o in view.objects
       && exists id :: id in filters && rid in filters[id].targets && o in filters[id].objects
                       && (id in cache || Triggers(ops, filters[id].conditions, view, dynamic)) {
      var id :| id in filters && rid in filters[id].targets && o in filters[id].objects
                && (id in cache || Triggers(ops, filters[id].conditions, view, dynamic));
      assert id in triggered;
      assert rid in InputTargets(filters, triggered);
      assert o in ObjectsFor(filters, triggered, view.objects.Keys, rid);
    }
  }

  /** Rules passed in as excluded get no entry, and no entry is empty. */
  lemma FilterInputsEntries(ops: Operators, filters: map<string, InputFilter>, view: StoreView,
                            dynamic: map<string, Processor>, cache: set<string>, excludedRules: set<string>)
    ensures var hidden := FilterInputsSpec(ops, filters, view, dynamic, cache, excludedRules, false).value.1;
            forall rid :: rid in hidden ==> rid !in excludedRules && hidden[rid] != {} && hidden[rid] <= view.objects.Keys
  {
  }

  /**
   * Input exclusions accumulate: after more data and more filters, a second
   * call hides from each rule every object the first call hid from it.
   */
  lemma FilterInputsAccumulate(ops: Operators, f1: map<string, InputFilter>, f2: map<string, InputFilter>,
                               v1: StoreView, v2: StoreView, dynamic: map<string, Processor>, cache: set<string>,
                               excludedRules: set<string>)
    requires Extends(f1, f2) && v1.objects.Keys <= v2.objects.Keys
    ensures var (c1, h1) := FilterInputsSpec(ops, f1, v1, dynamic, cache, excludedRules, false).value;
            var (c2, h2) := FilterInputsSpec(ops, f2, v2, dynamic, c1, excludedRules, false).value;
            c1 <= c2 && forall rid :: rid in h1 ==> rid in h2 && h1[rid] <= h2[rid]
  {
    var (c1, h1) := FilterInputsSpec(ops, f1, v1, dynamic, cache, excludedRules, false).value;
    var (c2, h2) := FilterInputsSpec(ops, f2, v2, dynamic, c1, excludedRules, false).value;
    forall rid, o | rid in h1 && o in h1[rid] ensures rid in h2 && o in h2[rid] {
      var id :| id in c1 && id in f1 && rid in f1[id].targets && o in f1[id].objects && o in v1.objects.Keys;
      assert id in c2 && id in f2 && rid in f2[id].targets && o in f2[id].objects && o in v2.objects.Keys;
      assert rid in InputTargets(f2, c2);
      assert o in ObjectsFor(f2, c2, v2.objects.Keys, rid);
    }
  }
}
