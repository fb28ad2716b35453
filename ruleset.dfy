/**
 * The ruleset a context evaluates: the manifest, the rules in insertion order
 * with unique ids, the rule and input filters keyed by filter id, and the
 * processors supplied under data ids.
 */
module Rulesets {
  import opened Wrappers
  import opened Manifests
  import opened Conditions
  import opened Rules
  import opened Exclusions

  /** The ids of a list of rules. */
  function RuleIds(rules: seq<Rule>): (ids: set<string>)
    ensures forall i :: 0 <= i < |rules| ==> rules[i].id in ids
    ensures forall id :: id in ids ==> exists i :: 0 <= i < |rules| && rules[i].id == id
  {
    set i | 0 <= i < |rules| :: rules[i].id
  }

  class Ruleset {
    const manifest: Manifest
    var rules: seq<Rule>
    var ruleFilters: map<string, RuleFilter>
    var inputFilters: map<string, InputFilter>
    var dynamicProcessors: map<string, Processor>

    ghost predicate Valid()
      reads this
    {
      UniqueIds(rules)
    }

    constructor (manifest: Manifest)
      ensures Valid() && this.manifest == manifest
      ensures rules == [] && ruleFilters == map[] && inputFilters == map[] && dynamicProcessors == map[]
    {
      this.manifest := manifest;
      rules := [];
      ruleFilters := map[];
      inputFilters := map[];
      dynamicProcessors := map[];
    }

    function HasRule(id: string): bool
      reads this
    {
      id in RuleIds(rules)
    }

    /** `insert_rule`: a rule whose id is already present is not inserted. */
    method InsertRule(r: Rule)
      requires Valid()
      modifies this`rules
      ensures Valid()
      ensures rules == if r.id in RuleIds(old(rules)) then old(rules) else old(rules) + [r]
    {
      if r.id !in RuleIds(rules) {
        rules := rules + [r];
      }
    }

    /** Adds a rule filter under its id; an id already present keeps its filter. */
    method AddRuleFilter(f: RuleFilter)
      modifies this`ruleFilters
      ensures ruleFilters == if f.id in old(ruleFilters) then old(ruleFilters) else old(ruleFilters)[f.id := f]
    {
      if f.id !in ruleFilters {
        ruleFilters := ruleFilters[f.id := f];
      }
    }

    /** Adds an input filter under its id; an id already present keeps its filter. */
    method AddInputFilter(f: InputFilter)
      modifies this`inputFilters
      ensures inputFilters == if f.id in old(inputFilters) then old(inputFilters) else old(inputFilters)[f.id := f]
    {
      if f.id !in inputFilters {
        inputFilters := inputFilters[f.id := f];
      }
    }
  }
}
