/**
 * The per-transaction context: it owns an object store built from the
 * ruleset's manifest and the status cache, and reads the ruleset without
 * changing it. Data inserted in one call stays visible to later calls.
 */
module Contexts {
  import opened Wrappers
  import opened Values
  import opened Manifests
  import opened ObjectStores
  import opened Conditions
  import opened Rules
  import opened Exclusions
  import opened Rulesets
  import opened Collections

  /** One pass of the collection policy, rule by rule. */
  method EvaluatePass(env: Env, p0: Progress, rules: seq<Rule>, priorityPass: bool) returns (r: Timed<Progress>)
    ensures r == RunPass(env, p0, rules, priorityPass)
  {
    var p := p0;
    var i := 0;
    while i < |rules|
      invariant 0 <= i <= |rules|
      invariant RunPass(env, p0, rules[..i], priorityPass) == Done(p)
    {
      assert rules[..i + 1][..i] == rules[..i];
      if env.expired {
        PassTimeout(env, p0, rules, priorityPass);
        return Timeout;
      }
      var rule := rules[i];
      if rule.IsPriority() == priorityPass && rule.id !in env.excludedRules && Eligible(p, rule) {
        var res := EvalRule(env.ops, rule, env.view, ObjectsExcludedFor(env, rule.id), env.dynamic, env.expired);
        match res {
          case Timeout =>
            RuleLive(env.ops, rule, env.view, ObjectsExcludedFor(env, rule.id), env.dynamic);
            assert false;
          case Done(None) =>
            p := p.(status := p.status[rule.id := false]);
          case Done(Some(e)) =>
            p := Progress(p.status[rule.id := true], p.closed + {rule.Type()}, p.fired + {rule.Type()}, p.events + [e]);
        }
      }
      i := i + 1;
    }
    assert rules[..i] == rules;
    return Done(p);
  }

  /**
   * Adds `objects` to the entry of every rule in `rids`; nothing changes when
   * there is no object to add.
   */
  function MergeObjects(m: map<string, set<TargetId>>, rids: set<string>, objects: set<TargetId>): map<string, set<TargetId>> {
    if objects == {} then m
    else map rid | rid in m.Keys + rids :: (if rid in m then m[rid] else {}) + (if rid in rids then objects else {})
  }

  /** One more triggered filter adds its present objects to each rule it targets. */
  lemma ObjectsForAdd(filters: map<string, InputFilter>, triggered: set<string>, id: string,
                      objects: set<TargetId>, rid: string)
    requires id in filters
    ensures ObjectsFor(filters, triggered + {id}, objects, rid)
            == ObjectsFor(filters, triggered, objects, rid)
               + (if rid in filters[id].targets then filters[id].objects * objects else {})
  {
    var f := filters[id];
    var lhs := ObjectsFor(filters, triggered + {id}, objects, rid);
    var rhs := ObjectsFor(filters, triggered, objects, rid) + (if rid in f.targets then f.objects * objects else {});
    forall o | o in lhs ensures o in rhs {
      var id' :| id' in triggered + {id} && id' in filters && rid in filters[id'].targets
                 && o in filters[id'].objects && o in objects;
      if id' != id {
        assert o in ObjectsFor(filters, triggered, objects, rid);
      }
    }
    forall o | o in rhs ensures o in lhs {
      if o !in ObjectsFor(filters, triggered, objects, rid) {
        assert id in triggered + {id} && rid in f.targets && o in f.objects && o in objects;
      }
    }
  }

  /** One more triggered filter adds its targets to the targeted rules. */
  lemma InputTargetsAdd(filters: map<string, InputFilter>, triggered: set<string>, id: string)
    requires id in filters
    ensures InputTargets(filters, triggered + {id}) == InputTargets(filters, triggered) + filters[id].targets
  {
    var lhs := InputTargets(filters, triggered + {id});
    forall rid | rid in lhs ensures rid in InputTargets(filters, triggered) + filters[id].targets {
      var id' :| id' in triggered + {id} && id' in filters && rid in filters[id'].targets;
      if id' != id {
        assert rid in InputTargets(filters, triggered);
      }
    }
    forall rid | rid in filters[id].targets ensures rid in lhs {
      assert id in triggered + {id};
    }
  }

  /** Rule `rid`'s entry after one more triggered input filter. */
  lemma ExcludedInputsAddAt(filters: map<string, InputFilter>, triggered: set<string>, id: string,
                            objects: set<TargetId>, excludedRules: set<string>, rid: string)
    requires id in filters
    ensures var after := ExcludedInputs(filters, triggered + {id}, objects, excludedRules);
            var merged := MergeObjects(ExcludedInputs(filters, triggered, objects, excludedRules),
                                       filters[id].targets - excludedRules, filters[id].objects * objects);
            (rid in after <==> rid in merged) && (rid in after ==> after[rid] == merged[rid])
  {
    var f := filters[id];
    var before := ExcludedInputs(filters, triggered, objects, excludedRules);
    var after := ExcludedInputs(filters, triggered + {id}, objects, excludedRules);
    var add := f.objects * objects;
    var hidden := ObjectsFor(filters, triggered, objects, rid);
    var hidden' := ObjectsFor(filters, triggered + {id}, objects, rid);
    ObjectsForAdd(filters, triggered, id, objects, rid);
    ObjectsForTargeted(filters, triggered, objects, rid);
    InputTargetsAdd(filters, triggered, id);
    assert rid in before <==> rid !in excludedRules && hidden != {};
    assert rid in after <==> rid !in excludedRules && hidden' != {};
    if add == {} {
      assert hidden' == hidden;
    } else {
      assert rid in after ==> after[rid] == hidden + (if rid in f.targets - excludedRules then add else {});
    }
  }

  /** Only a rule some triggered filter targets has objects hidden from it. */
  lemma ObjectsForTargeted(filters: map<string, InputFilter>, triggered: set<string>,
                           objects: set<TargetId>, rid: string)
    ensures ObjectsFor(filters, triggered, objects, rid) != {} ==> rid in InputTargets(filters, triggered)
  {
    var hidden := ObjectsFor(filters, triggered, objects, rid);
    if hidden != {} {
      var o :| o in hidden;
      var id :| id in triggered && id in filters && rid in filters[id].targets && o in filters[id].objects && o in objects;
      assert rid in InputTargets(filters, triggered);
    }
  }

  /** Processing one more triggered input filter merges its present objects into its target rules' entries. */
  lemma ExcludedInputsAdd(filters: map<string, InputFilter>, triggered: set<string>, id: string,
                          objects: set<TargetId>, excludedRules: set<string>)
    requires id in filters
    ensures ExcludedInputs(filters, triggered + {id}, objects, excludedRules)
            == MergeObjects(ExcludedInputs(filters, triggered, objects, excludedRules),
                            filters[id].targets - excludedRules, filters[id].objects * objects)
  {
    var after := ExcludedInputs(filters, triggered + {id}, objects, excludedRules);
    var merged := MergeObjects(ExcludedInputs(filters, triggered, objects, excludedRules),
                               filters[id].targets - excludedRules, filters[id].objects * objects);
    forall rid ensures (rid in after <==> rid in merged) && (rid in after ==> after[rid] == merged[rid]) {
      ExcludedInputsAddAt(filters, triggered, id, objects, excludedRules, rid);
    }
  }

  /** The entries of `filter_inputs` after considering filter `id`, whether or not it fires. */
  lemma ExcludedInputsStep(filters: map<string, InputFilter>, cache: set<string>, done: set<string>, id: string,
                           fires: bool, objects: set<TargetId>, excludedRules: set<string>)
    requires id in filters && (fires || id !in cache)
    ensures var f := filters[id];
            var before := ExcludedInputs(filters, cache * done, objects, excludedRules);
            ExcludedInputs(filters, (if fires then cache + {id} else cache) * (done + {id}), objects, excludedRules)
            == if fires then MergeObjects(before, f.targets - excludedRules, f.objects * objects) else before
  {
    if fires {
      ExcludedInputsAdd(filters, cache * done, id, objects, excludedRules);
      assert (cache + {id}) * (done + {id}) == cache * done + {id};
    } else {
      assert cache * (done + {id}) == cache * done;
    }
  }

  class Context {
    const ruleset: Ruleset
    /** The operators and transformers the conditions use. */
    const ops: Operators
    const store: ObjectStore
    /** Rule id to true (matched) or false (evaluated without matching); absent means not evaluated. */
    var statusCache: map<string, bool>
    /** The rule filters that have triggered in this context. */
    var ruleFilterCache: set<string>
    /** The input filters that have triggered in this context. */
    var inputFilterCache: set<string>

    ghost predicate Valid()
      reads this, ruleset, store
    {
      store.manifest == ruleset.manifest && ruleset.Valid()
    }

    /** A fresh context owns a fresh, empty store over the ruleset's manifest. */
    constructor (ruleset: Ruleset, ops: Operators)
      requires ruleset.Valid()
      ensures Valid() && this.ruleset == ruleset && this.ops == ops
      ensures fresh(store) && store.objects == map[] && store.latest == {}
      ensures statusCache == map[] && ruleFilterCache == {} && inputFilterCache == {}
    {
      this.ruleset := ruleset;
      this.ops := ops;
      store := new ObjectStore(ruleset.manifest);
      statusCache := map[];
      ruleFilterCache := {};
      inputFilterCache := {};
    }

    function IsFirstRun(): bool
      reads this
    {
      statusCache == map[]
    }

    /** `insert`: hands the value to the store, which refuses a root that is not a non-empty map. */
    method Insert(root: Value) returns (ok: bool)
      requires Valid()
      modifies store
      ensures Valid()
      ensures ok <==> root.Map? && |root.entries| > 0
      ensures store.objects == if ok then StoreEntries(old(store.objects), ruleset.manifest.state, root.entries)
                               else old(store.objects)
      ensures store.latest == if ok then BatchTargets(ruleset.manifest.state, root.entries)
                              else old(store.latest)
    {
      ok := store.Insert(root);
    }

    /** `filter_rules`: the ids of the rules excluded by the rule filters, accumulated across calls. */
    method FilterRules(expired: bool) returns (r: Timed<set<string>>)
      requires Valid()
      modifies this`ruleFilterCache
      ensures Valid()
      ensures var spec := FilterRulesSpec(ops, ruleset.ruleFilters, store.View(), ruleset.dynamicProcessors,
                                          old(ruleFilterCache), expired);
              && (r.Timeout? <==> spec.Timeout?)
              && (r.Timeout? ==> ruleFilterCache == old(ruleFilterCache))
              && (r.Done? ==> ruleFilterCache == spec.value.0 && r.value == spec.value.1)
    {
      var filters := ruleset.ruleFilters;
      var view := store.View();
      var remaining := filters.Keys;
      var cache := ruleFilterCache;
      var excluded: set<string> := {};
      ghost var done: set<string> := {};
      while remaining != {}
        invariant remaining <= filters.Keys && done == filters.Keys - remaining
        invariant ruleFilterCache == old(ruleFilterCache)
        invariant cache == ruleFilterCache + set id | id in done && Triggers(ops, filters[id].conditions, view, ruleset.dynamicProcessors)
        invariant excluded == set id, rid | id in done && id in cache && id in filters && rid in filters[id].targets :: rid
        invariant expired ==> done == {}
        decreases remaining
      {
        var id :| id in remaining;
        if expired {
          assert |filters| == |filters.Keys| > 0;
          return Timeout;
        }
        var f := filters[id];
        if id in cache || Triggers(ops, f.conditions, view, ruleset.dynamicProcessors) {
          cache := cache + {id};
          excluded := excluded + f.targets;
        }
        remaining := remaining - {id};
        done := done + {id};
      }
      assert |filters| == |filters.Keys|;
      ruleFilterCache := cache;
      return Done(excluded);
    }

    /** `filter_inputs`: for each rule not excluded, the objects hidden from it, accumulated across calls. */
    method FilterInputs(excludedRules: set<string>, expired: bool) returns (r: Timed<map<string, set<TargetId>>>)
      requires Valid()
      modifies this`inputFilterCache
      ensures Valid()
      ensures var spec := FilterInputsSpec(ops, ruleset.inputFilters, store.View(), ruleset.dynamicProcessors,
                                           old(inputFilterCache), excludedRules, expired);
              && (r.Timeout? <==> spec.Timeout?)
              && (r.Timeout? ==> inputFilterCache == old(inputFilterCache))
              && (r.Done? ==> inputFilterCache == spec.value.0 && r.value == spec.value.1)
    {
      var filters := ruleset.inputFilters;
      var view := store.View();
      var remaining := filters.Keys;
      var cache := inputFilterCache;
      var hidden: map<string, set<TargetId>> := map[];
      ghost var done: set<string> := {};
      while remaining != {}
        invariant remaining <= filters.Keys && done == filters.Keys - remaining
        invariant inputFilterCache == old(inputFilterCache)
        invariant cache == inputFilterCache + set id | id in done && Triggers(ops, filters[id].conditions, view, ruleset.dynamicProcessors)
        invariant hidden == ExcludedInputs(filters, cache * done, view.objects.Keys, excludedRules)
        invariant expired ==> done == {}
        decreases remaining
      {
        var id :| id in remaining;
        if expired {
          assert |filters| == |filters.Keys| > 0;
          return Timeout;
        }
        var f := filters[id];
        var fires := id in cache || Triggers(ops, f.conditions, view, ruleset.dynamicProcessors);
        ExcludedInputsStep(filters, cache, done, id, fires, view.objects.Keys, excludedRules);
        if fires {
          cache := cache + {id};
          hidden := MergeObjects(hidden, f.targets - excludedRules, f.objects * view.objects.Keys);
        }
        remaining := remaining - {id};
        done := done + {id};
      }
      assert |filters| == |filters.Keys|;
      assert cache * done == cache * filters.Keys;
      ExcludedInputsTriggeredInFilters(filters, cache, view.objects.Keys, excludedRules);
      inputFilterCache := cache;
      return Done(hidden);
    }

    /** The environment of a match call as this context sees it. */
    ghost function MatchEnv(excludedRules: set<string>, excludedObjects: map<string, set<TargetId>>, expired: bool): Env
      reads this, store, ruleset
    {
      Env(ops, store.View(), ruleset.dynamicProcessors, excludedRules, excludedObjects, expired)
    }

    /**
     * `match`: evaluates the rules not excluded under the collection policy,
     * records the outcomes in the status cache and returns the events; a
     * timeout discards the call's work.
     */
    method Match(excludedRules: set<string>, excludedObjects: map<string, set<TargetId>>, expired: bool)
      returns (r: Timed<seq<Event>>)
      requires Valid()
      modifies this`statusCache
      ensures Valid()
      ensures var spec := MatchSpec(MatchEnv(excludedRules, excludedObjects, expired), ruleset.rules, old(statusCache));
              && (r.Timeout? <==> spec.Timeout?)
              && (r.Timeout? ==> statusCache == old(statusCache))
              && (r.Done? ==> statusCache == spec.value.0 && r.value == spec.value.1)
    {
      var env := Env(ops, store.View(), ruleset.dynamicProcessors, excludedRules, excludedObjects, expired);
      var rules := ruleset.rules;
      var first := EvaluatePass(env, InitialProgress(rules, statusCache), rules, true);
      if first.Timeout? {
        return Timeout;
      }
      var second := EvaluatePass(env, first.value, rules, false);
      if second.Timeout? {
        return Timeout;
      }
      statusCache := second.value.status;
      return Done(second.value.events);
    }
  }

  /** Filters outside the map never contribute, so the trigger cache can be cut down to the map's ids. */
  lemma ExcludedInputsTriggeredInFilters(filters: map<string, InputFilter>, triggered: set<string>,
                                         objects: set<TargetId>, excludedRules: set<string>)
    ensures ExcludedInputs(filters, triggered * filters.Keys, objects, excludedRules)
            == ExcludedInputs(filters, triggered, objects, excludedRules)
  {
    forall rid ensures ObjectsFor(filters, triggered * filters.Keys, objects, rid) == ObjectsFor(filters, triggered, objects, rid) {
    }
    assert InputTargets(filters, triggered * filters.Keys) == InputTargets(filters, triggered);
  }
}
