/**
 * Rules: a named, tagged conjunction of conditions with a list of actions,
 * and the event a rule produces when all of its conditions match.
 */
module Rules {
  import opened Wrappers
  import opened Manifests
  import opened ObjectStores
  import opened Conditions

  datatype Rule = Rule(
    id: string,
    name: string,
    tags: map<string, string>,
    conditions: seq<Condition>,
    actions: seq<string>)
  {
    /** The `type` tag, which names the rule's collection. */
    function Type(): string {
      if "type" in tags then tags["type"] else ""
    }

    function Category(): string {
      if "category" in tags then tags["category"] else ""
    }

    /** A rule with at least one action has priority within its collection. */
    predicate IsPriority() {
      actions != []
    }
  }

  /** The result of one rule's successful evaluation. */
  datatype Event = Event(
    ruleId: string,
    ruleName: string,
    ruleType: string,
    ruleCategory: string,
    actions: seq<string>,
    matches: seq<MatchRecord>)

  /** No two rules of the list share an id. */
  ghost predicate UniqueIds(rules: seq<Rule>) {
    forall i, j :: 0 <= i < j < |rules| ==> rules[i].id != rules[j].id
  }

  /**
   * Evaluates a rule against the store: an event when every condition matched,
   * nothing when one did not (or the rule has no condition), or a timeout.
   */
  function EvalRule(ops: Operators, r: Rule, view: StoreView, excluded: set<TargetId>,
                    dynamic: map<string, Processor>, expired: bool): Timed<Option<Event>>
  {
    if r.conditions == [] then Done(None)
    else
      match MatchAll(ops, r.conditions, view, excluded, dynamic, expired)
      case Timeout => Timeout
      case Done(None) => Done(None)
      case Done(Some(recs)) => Done(Some(Event(r.id, r.name, r.Type(), r.Category(), r.actions, recs)))
  }

  /** A rule fires exactly when it has conditions and every one of them matched. */
  lemma RuleFiresIff(ops: Operators, r: Rule, view: StoreView, excluded: set<TargetId>,
                     dynamic: map<string, Processor>, expired: bool)
    ensures (EvalRule(ops, r, view, excluded, dynamic, expired).Done?
             && EvalRule(ops, r, view, excluded, dynamic, expired).value.Some?)
            <==> (r.conditions != []
                  && forall i :: 0 <= i < |r.conditions| ==> MatchedAt(ops, r.conditions, view, excluded, dynamic, expired, i))
  {
    MatchAllIff(ops, r.conditions, view, excluded, dynamic, expired);
  }

  /** An event carries the rule's id, name, type, category and actions, and one record per condition. */
  lemma EventCarriesRule(ops: Operators, r: Rule, view: StoreView, excluded: set<TargetId>,
                         dynamic: map<string, Processor>, expired: bool, e: Event)
    requires EvalRule(ops, r, view, excluded, dynamic, expired) == Done(Some(e))
    ensures e.ruleId == r.id && e.ruleName == r.name && e.ruleType == r.Type()
            && e.ruleCategory == r.Category() && e.actions == r.actions
    ensures |e.matches| == |r.conditions|
    ensures forall i :: 0 <= i < |r.conditions| ==>
              Match(ops, r.conditions[i], view, excluded, false, dynamic, expired) == Done(Some(e.matches[i]))
  {
    MatchAllRecords(ops, r.conditions, view, excluded, dynamic, expired, e.matches);
  }

  /** Before the deadline a rule never times out. */
  lemma RuleLive(ops: Operators, r: Rule, view: StoreView, excluded: set<TargetId>, dynamic: map<string, Processor>)
    ensures EvalRule(ops, r, view, excluded, dynamic, false).Done?
  {
    MatchAllLive(ops, r.conditions, view, excluded, dynamic);
  }

  /** A rule whose first condition's objects are all excluded never fires. */
  lemma ExcludedRuleSilent(ops: Operators, r: Rule, view: StoreView, excluded: set<TargetId>,
                           dynamic: map<string, Processor>, expired: bool)
    requires r.conditions != []
    requires forall t :: t in r.conditions[0].targets ==> t.root in excluded
    ensures EvalRule(ops, r, view, excluded, dynamic, expired) == Done(None)
  {
    var c := r.conditions[0];
    if GetProcessor(c, dynamic).Some? {
      NothingVisible(ops, c, GetProcessor(c, dynamic).value, c.targets, view, excluded, expired);
    }
  }
}
