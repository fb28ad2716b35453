/**
 * The collection policy of a match call. Rules sharing a `type` tag form a
 * collection; rules with actions have priority. Priority rules are evaluated
 * first, then the others, and the context's status cache (rule id to
 * matched / ran without matching) carries the outcome across calls.
 */
module Collections {
  import opened Wrappers
  import opened Manifests
  import opened ObjectStores
  import opened Conditions
  import opened Rules

  /** What one match call evaluates against. */
  datatype Env = Env(
    ops: Operators,
    view: StoreView,
    dynamic: map<string, Processor>,
    excludedRules: set<string>,
    excludedObjects: map<string, set<TargetId>>,
    expired: bool)

  /** The objects hidden from rule `id` in this call. */
  function ObjectsExcludedFor(env: Env, id: string): set<TargetId> {
    if id in env.excludedObjects then env.excludedObjects[id] else {}
  }

  /**
   * The state of a call in progress: the status cache, the collections closed
   * to rules without actions, the collections that produced an event in this
   * call, and the events so far.
   */
  datatype Progress = Progress(status: map<string, bool>, closed: set<string>, fired: set<string>, events: seq<Event>)

  /** Rule `id` has matched according to the status cache. */
  predicate HasMatched(status: map<string, bool>, id: string) {
    id in status && status[id]
  }

  /** The collections in which some rule has already matched. */
  function ClosedTypes(rules: seq<Rule>, status: map<string, bool>): set<string> {
    set i | 0 <= i < |rules| && HasMatched(status, rules[i].id) :: rules[i].Type()
  }

  /**
   * A priority rule runs unless it has matched before or its collection already
   * produced an event in this call; any other rule runs only while no rule of
   * its collection has matched.
   */
  predicate Eligible(p: Progress, r: Rule) {
    if r.IsPriority() then !HasMatched(p.status, r.id) && r.Type() !in p.fired
    else r.Type() !in p.closed
  }

  /** The handling of one rule in the priority pass or in the regular pass. */
  function Step(env: Env, p: Progress, r: Rule, priorityPass: bool): Timed<Progress> {
    if env.expired then Timeout
    else if r.IsPriority() != priorityPass || r.id in env.excludedRules || !Eligible(p, r) then Done(p)
    else
      match EvalRule(env.ops, r, env.view, ObjectsExcludedFor(env, r.id), env.dynamic, env.expired)
      case Timeout => Timeout
      case Done(None) => Done(p.(status := p.status[r.id := false]))
      case Done(Some(e)) =>
        Done(Progress(p.status[r.id := true], p.closed + {r.Type()}, p.fired + {r.Type()}, p.events + [e]))
  }

  /** One pass over the rules in order. */
  function RunPass(env: Env, p: Progress, rules: seq<Rule>, priorityPass: bool): Timed<Progress>
    decreases |rules|
  {
    if rules == [] then Done(p)
    else
      match RunPass(env, p, rules[..|rules| - 1], priorityPass)
      case Timeout => Timeout
      case Done(q) => Step(env, q, rules[|rules| - 1], priorityPass)
  }

  function InitialProgress(rules: seq<Rule>, status: map<string, bool>): Progress {
    Progress(status, ClosedTypes(rules, status), {}, [])
  }

  /** A match call: the priority pass, then the regular pass; the new status cache and the events. */
  function MatchSpec(env: Env, rules: seq<Rule>, status: map<string, bool>): Timed<(map<string, bool>, seq<Event>)> {
    match RunPass(env, InitialProgress(rules, status), rules, true)
    case Timeout => Timeout
    case Done(p1) =>
      match RunPass(env, p1, rules, false)
      case Timeout => Timeout
      case Done(p2) => Done((p2.status, p2.events))
  }

  // ---------------------------------------------------------------- timeouts

  lemma {:induction false} PassTimeout(env: Env, p: Progress, rules: seq<Rule>, priorityPass: bool)
    ensures RunPass(env, p, rules, priorityPass).Timeout? <==> env.expired && rules != []
    decreases |rules|
  {
    if rules != [] {
      var init := rules[..|rules| - 1];
      PassTimeout(env, p, init, priorityPass);
      var r := rules[|rules| - 1];
      if !env.expired {
        RuleLive(env.ops, r, env.view, ObjectsExcludedFor(env, r.id), env.dynamic);
      }
    }
  }

  /** A match call times out exactly when the deadline has expired and there is a rule. */
  lemma MatchTimeout(env: Env, rules: seq<Rule>, status: map<string, bool>)
    ensures MatchSpec(env, rules, status).Timeout? <==> env.expired && rules != []
  {
    var p0 := InitialProgress(rules, status);
    PassTimeout(env, p0, rules, true);
    if RunPass(env, p0, rules, true).Done? {
      PassTimeout(env, RunPass(env, p0, rules, true).value, rules, false);
    }
  }

  // ---------------------------------------------------------- the invariant

  /** `e` carries the identity, collection and actions of rule `r`. */
  predicate SourceOf(r: Rule, e: Event) {
    e.ruleId == r.id && e.ruleType == r.Type() && e.actions == r.actions
  }

  /**
   * Event `e` comes from a rule that may have fired by now: in the priority
   * pass, a priority rule among the first `n`; in the regular pass, any
   * priority rule or one of the first `n`.
   */
  ghost predicate HasSource(rules: seq<Rule>, e: Event, n: int, priorityPass: bool) {
    exists j :: 0 <= j < |rules| && SourceOf(rules[j], e) && Handled(rules, j, n, priorityPass)
  }

  /**
   * Rule `j` has been handled once a pass has reached position `n`: in the
   * priority pass, a priority rule before `n`; in the regular pass, any
   * priority rule or any rule before `n`.
   */
  predicate Handled(rules: seq<Rule>, j: int, n: int, priorityPass: bool)
    requires 0 <= j < |rules|
  {
    if priorityPass then j < n && rules[j].IsPriority() else rules[j].IsPriority() || j < n
  }

  ghost predicate Sourced(rules: seq<Rule>, events: seq<Event>, n: int, priorityPass: bool) {
    forall i :: 0 <= i < |events| ==> HasSource(rules, events[i], n, priorityPass)
  }

  ghost predicate HasEventOfType(events: seq<Event>, t: string) {
    exists i :: 0 <= i < |events| && events[i].ruleType == t
  }

  ghost predicate HasEventOf(events: seq<Event>, id: string) {
    exists i :: 0 <= i < |events| && events[i].ruleId == id
  }

  /** A rule's status rose to "matched" in this call. */
  predicate NewlyMatched(status0: map<string, bool>, status: map<string, bool>, id: string) {
    HasMatched(status, id) && !HasMatched(status0, id)
  }

  /** No status is lost and no match is forgotten. */
  ghost predicate Grows(status0: map<string, bool>, status: map<string, bool>) {
    forall id :: id in status0 ==> id in status && (status0[id] ==> status[id])
  }

  /** No two events of the list belong to the same collection. */
  ghost predicate TypesDistinct(events: seq<Event>) {
    forall i, j :: 0 <= i < j < |events| ==> events[i].ruleType != events[j].ruleType
  }

  /** What the events of a call in progress satisfy, given the collections closed when it started. */
  ghost predicate EventsInv(env: Env, closed0: set<string>, p: Progress) {
    && TypesDistinct(p.events)
    && (forall i :: 0 <= i < |p.events| ==> p.events[i].ruleType in p.fired)
    && (forall t :: t in p.fired ==> HasEventOfType(p.events, t))
    && p.closed == closed0 + p.fired
    && (forall i :: 0 <= i < |p.events| ==> p.events[i].ruleId !in env.excludedRules)
    && (forall i :: 0 <= i < |p.events| ==> p.events[i].actions == [] ==> p.events[i].ruleType !in closed0)
  }

  /** What the status cache of a call in progress satisfies, given the cache when it started. */
  ghost predicate StatusInv(status0: map<string, bool>, p: Progress) {
    && Grows(status0, p.status)
    && (forall i :: 0 <= i < |p.events| ==> NewlyMatched(status0, p.status, p.events[i].ruleId))
    && (forall id :: NewlyMatched(status0, p.status, id) ==> HasEventOf(p.events, id))
  }

  /**
   * Some rule carrying `id` is not excluded and gives, on the data of the
   * call, an event when `matched` and no event when not.
   */
  ghost predicate EvaluatedAs(env: Env, rules: seq<Rule>, id: string, matched: bool) {
    exists j :: 0 <= j < |rules| && rules[j].id == id && id !in env.excludedRules
                && Outcome(env, rules, j).Done? && Outcome(env, rules, j).value.Some? == matched
  }

  /**
   * Rule `j` may run in a call that starts from `status0`: it is not excluded,
   * has not matched before, and has actions or belongs to a collection in
   * which no rule has matched.
   */
  ghost predicate Open(env: Env, rules: seq<Rule>, status0: map<string, bool>, j: int)
    requires 0 <= j < |rules|
  {
    && rules[j].id !in env.excludedRules
    && !HasMatched(status0, rules[j].id)
    && (rules[j].IsPriority() || rules[j].Type() !in ClosedTypes(rules, status0))
  }

  /**
   * The status cache records evaluations: an entry written in this call
   * belongs to an evaluated rule and says whether it fired, and every handled
   * rule that may run, in a collection without an event so far, has an entry.
   */
  ghost predicate RecordInv(env: Env, rules: seq<Rule>, status0: map<string, bool>, p: Progress, n: int, priorityPass: bool) {
    && (forall id :: id in p.status && (id !in status0 || p.status[id] != status0[id]) ==>
          EvaluatedAs(env, rules, id, p.status[id]))
    && (forall j :: (0 <= j < |rules| && Handled(rules, j, n, priorityPass) && Open(env, rules, status0, j)
                     && rules[j].Type() !in p.fired) ==> rules[j].id in p.status)
  }

  ghost predicate Inv(env: Env, rules: seq<Rule>, status0: map<string, bool>, p: Progress, n: int, priorityPass: bool) {
    && EventsInv(env, ClosedTypes(rules, status0), p)
    && StatusInv(status0, p)
    && RecordInv(env, rules, status0, p, n, priorityPass)
    && Sourced(rules, p.events, n, priorityPass)
  }

  lemma InitialInv(env: Env, rules: seq<Rule>, status0: map<string, bool>)
    ensures Inv(env, rules, status0, InitialProgress(rules, status0), 0, true)
  {
  }

  lemma SourcedWiden(rules: seq<Rule>, events: seq<Event>, n: int, priorityPass: bool)
    requires Sourced(rules, events, n, priorityPass)
    ensures Sourced(rules, events, n + 1, priorityPass)
  {
    forall i | 0 <= i < |events| ensures HasSource(rules, events[i], n + 1, priorityPass) {
      var j :| 0 <= j < |rules| && SourceOf(rules[j], events[i])
               && (if priorityPass then j < n && rules[j].IsPriority() else rules[j].IsPriority() || j < n);
    }
  }

  /** No event so far was produced by rule `k`, the rule about to be handled. */
  lemma NotYetFired(rules: seq<Rule>, status0: map<string, bool>, p: Progress, k: nat, priorityPass: bool)
    requires UniqueIds(rules) && k < |rules| && rules[k].IsPriority() == priorityPass
    requires Sourced(rules, p.events, k, priorityPass)
    requires forall id :: NewlyMatched(status0, p.status, id) ==> HasEventOf(p.events, id)
    ensures forall i :: 0 <= i < |p.events| ==> p.events[i].ruleId != rules[k].id
    ensures !NewlyMatched(status0, p.status, rules[k].id)
  {
    forall i | 0 <= i < |p.events| ensures p.events[i].ruleId != rules[k].id {
      assert HasSource(rules, p.events[i], k, priorityPass);
      var j :| 0 <= j < |rules| && SourceOf(rules[j], p.events[i])
               && (if priorityPass then j < k && rules[j].IsPriority() else rules[j].IsPriority() || j < k);
      assert j != k;
    }
  }

  lemma ClosedTypesHas(rules: seq<Rule>, status: map<string, bool>, k: nat)
    requires k < |rules|
    ensures HasMatched(status, rules[k].id) ==> rules[k].Type() in ClosedTypes(rules, status)
  {
  }

  /** An eligible rule had not matched when the call started. */
  lemma EligibleNotMatched(rules: seq<Rule>, status0: map<string, bool>, p: Progress, k: nat)
    requires k < |rules| && Eligible(p, rules[k])
    requires Grows(status0, p.status) && ClosedTypes(rules, status0) <= p.closed
    ensures !HasMatched(status0, rules[k].id)
  {
    ClosedTypesHas(rules, status0, k);
  }

  /** Recording the evaluation of rule `k` keeps `RecordInv` one position further on. */
  lemma RecordStep(env: Env, rules: seq<Rule>, status0: map<string, bool>, p: Progress, q: Progress,
                   k: nat, priorityPass: bool, matched: bool)
    requires k < |rules| && rules[k].IsPriority() == priorityPass && rules[k].id !in env.excludedRules
    requires Outcome(env, rules, k).Done? && Outcome(env, rules, k).value.Some? == matched
    requires RecordInv(env, rules, status0, p, k, priorityPass)
    requires q.status == p.status[rules[k].id := matched] && p.fired <= q.fired
    ensures RecordInv(env, rules, status0, q, k + 1, priorityPass)
  {
    forall id | id in q.status && (id !in status0 || q.status[id] != status0[id])
      ensures EvaluatedAs(env, rules, id, q.status[id])
    {
      if id == rules[k].id {
        assert rules[k].id == id && Outcome(env, rules, k).value.Some? == q.status[id];
      } else {
        assert id in p.status && p.status[id] == q.status[id];
      }
    }
    forall j | (0 <= j < |rules| && Handled(rules, j, k + 1, priorityPass) && Open(env, rules, status0, j)
                && rules[j].Type() !in q.fired)
      ensures rules[j].id in q.status
    {
      if j != k {
        assert Handled(rules, j, k, priorityPass);
      }
    }
  }

  /** Passing over rule `k` without evaluating it keeps `RecordInv` one position further on. */
  lemma RecordSkip(env: Env, rules: seq<Rule>, status0: map<string, bool>, p: Progress, k: nat, priorityPass: bool)
    requires k < |rules| && RecordInv(env, rules, status0, p, k, priorityPass)
    requires p.closed == ClosedTypes(rules, status0) + p.fired && Grows(status0, p.status)
    requires rules[k].IsPriority() != priorityPass || rules[k].id in env.excludedRules || !Eligible(p, rules[k])
    ensures RecordInv(env, rules, status0, p, k + 1, priorityPass)
  {
    forall j | (0 <= j < |rules| && Handled(rules, j, k + 1, priorityPass) && Open(env, rules, status0, j)
                && rules[j].Type() !in p.fired)
      ensures rules[j].id in p.status
    {
      if j != k {
        assert Handled(rules, j, k, priorityPass);
      }
    }
  }

  lemma EventsInvIgnoresStatus(env: Env, closed0: set<string>, p: Progress, status: map<string, bool>)
    requires EventsInv(env, closed0, p)
    ensures EventsInv(env, closed0, p.(status := status))
  {
  }

  lemma StepNoMatch(env: Env, rules: seq<Rule>, status0: map<string, bool>, p: Progress, k: nat, priorityPass: bool)
    requires UniqueIds(rules) && k < |rules| && rules[k].IsPriority() == priorityPass && Eligible(p, rules[k])
    requires !env.expired && rules[k].id !in env.excludedRules && Outcome(env, rules, k) == Done(None)
    requires Inv(env, rules, status0, p, k, priorityPass)
    ensures Inv(env, rules, status0, p.(status := p.status[rules[k].id := false]), k + 1, priorityPass)
  {
    var r := rules[k];
    var q := p.(status := p.status[r.id := false]);
    RecordStep(env, rules, status0, p, q, k, priorityPass, false);
    NotYetFired(rules, status0, p, k, priorityPass);
    EligibleNotMatched(rules, status0, p, k);
    SourcedWiden(rules, p.events, k, priorityPass);
    StatusNoMatch(status0, p, r.id);
    EventsInvIgnoresStatus(env, ClosedTypes(rules, status0), p, q.status);
  }

  /** Recording a rule that has not fired, and had not matched before, keeps `StatusInv`. */
  lemma StatusNoMatch(status0: map<string, bool>, p: Progress, id: string)
    requires StatusInv(status0, p) && !HasMatched(status0, id)
    requires forall i :: 0 <= i < |p.events| ==> p.events[i].ruleId != id
    ensures StatusInv(status0, p.(status := p.status[id := false]))
  {
    var q := p.(status := p.status[id := false]);
    forall id' | NewlyMatched(status0, q.status, id') ensures HasEventOf(q.events, id') {
      assert id' != id && NewlyMatched(status0, p.status, id');
    }
  }

  lemma FireEvents(env: Env, closed0: set<string>, p: Progress, r: Rule, e: Event)
    requires EventsInv(env, closed0, p)
    requires r.id !in env.excludedRules && Eligible(p, r) && SourceOf(r, e)
    ensures EventsInv(env, closed0, Progress(p.status[r.id := true], p.closed + {r.Type()}, p.fired + {r.Type()}, p.events + [e]))
  {
    var q := Progress(p.status[r.id := true], p.closed + {r.Type()}, p.fired + {r.Type()}, p.events + [e]);
    assert r.Type() !in p.fired;
    assert q.closed == closed0 + q.fired;
    forall i | 0 <= i < |q.events|
      ensures q.events[i].ruleType in q.fired && q.events[i].ruleId !in env.excludedRules
      ensures q.events[i].actions == [] ==> q.events[i].ruleType !in closed0
    {
      if i < |p.events| {
        assert q.events[i] == p.events[i];
      }
    }
    forall i, j | 0 <= i < j < |q.events| ensures q.events[i].ruleType != q.events[j].ruleType {
      assert q.events[i] == p.events[i];
      if j < |p.events| {
        assert q.events[j] == p.events[j];
      }
    }
    forall t | t in q.fired ensures HasEventOfType(q.events, t) {
      if t == r.Type() {
        assert q.events[|p.events|].ruleType == t;
      } else {
        var i :| 0 <= i < |p.events| && p.events[i].ruleType == t;
        assert q.events[i] == p.events[i];
      }
    }
  }

  lemma FireStatus(status0: map<string, bool>, p: Progress, r: Rule, e: Event)
    requires StatusInv(status0, p)
    requires !HasMatched(status0, r.id) && e.ruleId == r.id
    ensures StatusInv(status0, Progress(p.status[r.id := true], p.closed + {r.Type()}, p.fired + {r.Type()}, p.events + [e]))
  {
    var q := Progress(p.status[r.id := true], p.closed + {r.Type()}, p.fired + {r.Type()}, p.events + [e]);
    forall id | NewlyMatched(status0, q.status, id) ensures HasEventOf(q.events, id) {
      if id == r.id {
        assert q.events[|p.events|].ruleId == id;
      } else {
        assert NewlyMatched(status0, p.status, id);
        assert HasEventOf(p.events, id);
        var i :| 0 <= i < |p.events| && p.events[i].ruleId == id;
        assert q.events[i] == p.events[i];
      }
    }
  }

  lemma FireSourced(rules: seq<Rule>, events: seq<Event>, k: nat, priorityPass: bool, e: Event)
    requires k < |rules| && rules[k].IsPriority() == priorityPass && SourceOf(rules[k], e)
    requires Sourced(rules, events, k, priorityPass)
    ensures Sourced(rules, events + [e], k + 1, priorityPass)
  {
    SourcedWiden(rules, events, k, priorityPass);
    forall i | 0 <= i < |events| + 1 ensures HasSource(rules, (events + [e])[i], k + 1, priorityPass) {
      if i == |events| {
        assert (events + [e])[i] == e;
        assert SourceOf(rules[k], e);
      } else {
        assert (events + [e])[i] == events[i];
      }
    }
  }

  lemma StepFire(env: Env, rules: seq<Rule>, status0: map<string, bool>, p: Progress, k: nat, priorityPass: bool, e: Event)
    requires UniqueIds(rules) && k < |rules| && rules[k].IsPriority() == priorityPass && Eligible(p, rules[k])
    requires rules[k].id !in env.excludedRules
    requires !env.expired && Outcome(env, rules, k) == Done(Some(e))
    requires Inv(env, rules, status0, p, k, priorityPass)
    ensures Inv(env, rules, status0,
                Progress(p.status[rules[k].id := true], p.closed + {rules[k].Type()}, p.fired + {rules[k].Type()}, p.events + [e]),
                k + 1, priorityPass)
  {
    var r := rules[k];
    RecordStep(env, rules, status0, p,
               Progress(p.status[r.id := true], p.closed + {r.Type()}, p.fired + {r.Type()}, p.events + [e]),
               k, priorityPass, true);
    EventCarriesRule(env.ops, r, env.view, ObjectsExcludedFor(env, r.id), env.dynamic, env.expired, e);
    EligibleNotMatched(rules, status0, p, k);
    FireEvents(env, ClosedTypes(rules, status0), p, r, e);
    FireStatus(status0, p, r, e);
    FireSourced(rules, p.events, k, priorityPass, e);
  }

  /** `Step` keeps the invariant and only appends events. */
  lemma StepInv(env: Env, rules: seq<Rule>, status0: map<string, bool>, p: Progress, k: nat, priorityPass: bool)
    requires UniqueIds(rules) && k < |rules| && Inv(env, rules, status0, p, k, priorityPass)
    requires Step(env, p, rules[k], priorityPass).Done?
    ensures Inv(env, rules, status0, Step(env, p, rules[k], priorityPass).value, k + 1, priorityPass)
    ensures p.events <= Step(env, p, rules[k], priorityPass).value.events
  {
    var r := rules[k];
    if r.IsPriority() != priorityPass || r.id in env.excludedRules || !Eligible(p, r) {
      SourcedWiden(rules, p.events, k, priorityPass);
      RecordSkip(env, rules, status0, p, k, priorityPass);
    } else {
      match EvalRule(env.ops, r, env.view, ObjectsExcludedFor(env, r.id), env.dynamic, env.expired)
      case Timeout =>
      case Done(None) => StepNoMatch(env, rules, status0, p, k, priorityPass);
      case Done(Some(e)) => StepFire(env, rules, status0, p, k, priorityPass, e);
    }
  }

  /** A pass over the first `n` rules keeps the invariant and only appends events. */
  lemma {:induction false} PassInv(env: Env, rules: seq<Rule>, status0: map<string, bool>, p: Progress, n: nat, priorityPass: bool)
    requires UniqueIds(rules) && n <= |rules| && Inv(env, rules, status0, p, 0, priorityPass)
    requires RunPass(env, p, rules[..n], priorityPass).Done?
    ensures Inv(env, rules, status0, RunPass(env, p, rules[..n], priorityPass).value, n, priorityPass)
    ensures p.events <= RunPass(env, p, rules[..n], priorityPass).value.events
    decreases n
  {
    if n > 0 {
      assert rules[..n][..n - 1] == rules[..n - 1];
      assert rules[..n][n - 1] == rules[n - 1];
      PassInv(env, rules, status0, p, n - 1, priorityPass);
      StepInv(env, rules, status0, RunPass(env, p, rules[..n - 1], priorityPass).value, n - 1, priorityPass);
    }
  }

  /** After the priority pass every event comes from a priority rule, which is where the regular pass starts. */
  lemma SwitchPass(env: Env, rules: seq<Rule>, status0: map<string, bool>, p: Progress)
    requires Inv(env, rules, status0, p, |rules|, true)
    ensures Inv(env, rules, status0, p, 0, false)
    ensures forall i :: 0 <= i < |p.events| ==> p.events[i].actions != []
  {
    forall i | 0 <= i < |p.events| ensures HasSource(rules, p.events[i], 0, false) && p.events[i].actions != [] {
      assert HasSource(rules, p.events[i], |rules|, true);
      var j :| 0 <= j < |rules| && SourceOf(rules[j], p.events[i]) && j < |rules| && rules[j].IsPriority();
    }
  }

  /** The invariant of a whole call, over its result. */
  lemma MatchInv(env: Env, rules: seq<Rule>, status: map<string, bool>)
    requires UniqueIds(rules) && MatchSpec(env, rules, status).Done?
    ensures var p1 := RunPass(env, InitialProgress(rules, status), rules, true).value;
            && RunPass(env, p1, rules, false).Done?
            && Inv(env, rules, status, RunPass(env, p1, rules, false).value, |rules|, false)
            && (forall i :: 0 <= i < |p1.events| ==> p1.events[i].actions != [])
            && p1.events <= RunPass(env, p1, rules, false).value.events
  {
    var p0 := InitialProgress(rules, status);
    assert rules[..|rules|] == rules;
    InitialInv(env, rules, status);
    PassInv(env, rules, status, p0, |rules|, true);
    var p1 := RunPass(env, p0, rules, true).value;
    SwitchPass(env, rules, status, p1);
    PassInv(env, rules, status, p1, |rules|, false);
  }

  // --------------------------------------------------------- the properties

  /** Within one call a collection yields at most one event. */
  lemma OneEventPerCollection(env: Env, rules: seq<Rule>, status: map<string, bool>)
    requires UniqueIds(rules) && MatchSpec(env, rules, status).Done?
    ensures TypesDistinct(MatchSpec(env, rules, status).value.1)
  {
    MatchInv(env, rules, status);
  }

  /** Rules passed in as excluded never produce an event. */
  lemma ExcludedRulesSilent(env: Env, rules: seq<Rule>, status: map<string, bool>)
    requires UniqueIds(rules) && MatchSpec(env, rules, status).Done?
    ensures forall e :: e in MatchSpec(env, rules, status).value.1 ==> e.ruleId !in env.excludedRules
  {
    MatchInv(env, rules, status);
  }

  /** No rule carrying `id` fires on the data of this call. */
  ghost predicate NeverFires(env: Env, rules: seq<Rule>, id: string) {
    forall j :: 0 <= j < |rules| && rules[j].id == id ==>
      var r := EvalRule(env.ops, rules[j], env.view, ObjectsExcludedFor(env, id), env.dynamic, env.expired);
      r.Done? ==> r.value.None?
  }

  lemma {:induction false} PassSilent(env: Env, p: Progress, rules: seq<Rule>, priorityPass: bool, id: string)
    requires NeverFires(env, rules, id)
    requires forall e :: e in p.events ==> e.ruleId != id
    requires RunPass(env, p, rules, priorityPass).Done?
    ensures forall e :: e in RunPass(env, p, rules, priorityPass).value.events ==> e.ruleId != id
    decreases |rules|
  {
    if rules != [] {
      var init := rules[..|rules| - 1];
      var r := rules[|rules| - 1];
      assert forall j :: 0 <= j < |init| ==> init[j] == rules[j];
      PassSilent(env, p, init, priorityPass, id);
      var q := RunPass(env, p, init, priorityPass).value;
      if !(r.IsPriority() != priorityPass || r.id in env.excludedRules || !Eligible(q, r)) {
        var res := EvalRule(env.ops, r, env.view, ObjectsExcludedFor(env, r.id), env.dynamic, env.expired);
        if res.Done? && res.value.Some? {
          EventCarriesRule(env.ops, r, env.view, ObjectsExcludedFor(env, r.id), env.dynamic, env.expired, res.value.value);
        }
      }
    }
  }

  /** A rule that does not fire on the data of this call, with its exclusions, produces no event. */
  lemma SilentRuleNoEvent(env: Env, rules: seq<Rule>, status: map<string, bool>, id: string)
    requires NeverFires(env, rules, id) && MatchSpec(env, rules, status).Done?
    ensures forall e :: e in MatchSpec(env, rules, status).value.1 ==> e.ruleId != id
  {
    var p0 := InitialProgress(rules, status);
    PassSilent(env, p0, rules, true, id);
    PassSilent(env, RunPass(env, p0, rules, true).value, rules, false, id);
  }

  /**
   * Input exclusion: a rule whose first condition only reads objects that the
   * call hides from it produces no event.
   */
  lemma HiddenInputsSilenceRule(env: Env, rules: seq<Rule>, status: map<string, bool>, id: string)
    requires MatchSpec(env, rules, status).Done?
    requires forall j :: 0 <= j < |rules| && rules[j].id == id ==>
               rules[j].conditions != [] && forall t :: t in rules[j].conditions[0].targets ==> t.root in ObjectsExcludedFor(env, id)
    ensures forall e :: e in MatchSpec(env, rules, status).value.1 ==> e.ruleId != id
  {
    forall j | 0 <= j < |rules| && rules[j].id == id
      ensures var r := EvalRule(env.ops, rules[j], env.view, ObjectsExcludedFor(env, id), env.dynamic, env.expired);
              r.Done? ==> r.value.None?
    {
      ExcludedRuleSilent(env.ops, rules[j], env.view, ObjectsExcludedFor(env, id), env.dynamic, env.expired);
    }
    SilentRuleNoEvent(env, rules, status, id);
  }

  /** At the end of a call, the rules recorded as matched in this call are those of the events. */
  lemma MatchedAtEnd(status0: map<string, bool>, p: Progress)
    requires StatusInv(status0, p)
    ensures Grows(status0, p.status)
    ensures forall id :: NewlyMatched(status0, p.status, id) <==> exists e :: e in p.events && e.ruleId == id
  {
    var evs := p.events;
    forall id ensures NewlyMatched(status0, p.status, id) <==> exists e :: e in evs && e.ruleId == id {
      if exists e :: e in evs && e.ruleId == id {
        var e :| e in evs && e.ruleId == id;
        var i :| 0 <= i < |evs| && evs[i] == e;
      }
      if NewlyMatched(status0, p.status, id) {
        var i :| 0 <= i < |evs| && evs[i].ruleId == id;
        assert evs[i] in evs;
      }
    }
  }

  /** At the end of a call, the entries written in this call are the evaluations of the rules that could run. */
  lemma RecordedAtEnd(env: Env, rules: seq<Rule>, status0: map<string, bool>, p: Progress)
    requires UniqueIds(rules) && Inv(env, rules, status0, p, |rules|, false)
    ensures forall id :: id in p.status && (id !in status0 || p.status[id] != status0[id]) ==>
              EvaluatedAs(env, rules, id, p.status[id])
    ensures forall id :: id in p.status && (id !in status0 || p.status[id] != status0[id]) ==>
              EvaluatedAs(env, rules, id, p.status[id])
    ensures forall id :: id in env.excludedRules ==>
              (id in p.status <==> id in status0) && (id in status0 ==> p.status[id] == status0[id])
    ensures forall j :: (0 <= j < |rules| && Open(env, rules, status0, j)
                         && forall e :: e in p.events ==> e.ruleType != rules[j].Type()) ==>
              rules[j].id in p.status && !p.status[rules[j].id]
  {
    var evs := p.events;
    forall j | (0 <= j < |rules| && Open(env, rules, status0, j)
                && forall e :: e in evs ==> e.ruleType != rules[j].Type())
      ensures rules[j].id in p.status && !p.status[rules[j].id]
    {
      assert Handled(rules, j, |rules|, false);
      forall i | 0 <= i < |evs| ensures evs[i].ruleType != rules[j].Type() && evs[i].ruleId != rules[j].id {
        assert evs[i] in evs;
        assert HasSource(rules, evs[i], |rules|, false);
        var j' :| 0 <= j' < |rules| && SourceOf(rules[j'], evs[i]) && Handled(rules, j', |rules|, false);
        assert rules[j'].id != rules[j].id;
      }
      assert !HasEventOfType(evs, rules[j].Type());
      assert !HasEventOf(evs, rules[j].id);
    }
  }

  /**
   * The status cache: nothing recorded is lost, and a rule is recorded as
   * matched in this call exactly when it produced one of the events. Every
   * entry written in this call belongs to a rule that is not excluded and
   * was evaluated, and it says whether that rule fired, so excluded rules
   * keep their entries as they were. Conversely, a rule that may run and
   * whose collection gets no event is recorded as evaluated without a match.
   */
  lemma StatusCacheMeaning(env: Env, rules: seq<Rule>, status: map<string, bool>)
    requires UniqueIds(rules) && MatchSpec(env, rules, status).Done?
    ensures var (status2, evs) := MatchSpec(env, rules, status).value;
            && Grows(status, status2)
            && (forall id :: NewlyMatched(status, status2, id) <==> exists e :: e in evs && e.ruleId == id)
            && (forall id :: id in status2 && (id !in status || status2[id] != status[id]) ==>
                  EvaluatedAs(env, rules, id, status2[id]))
            && (forall id :: id in env.excludedRules ==>
                  (id in status2 <==> id in status) && (id in status ==> status2[id] == status[id]))
            && (forall j :: (0 <= j < |rules| && Open(env, rules, status, j)
                             && forall e :: e in evs ==> e.ruleType != rules[j].Type()) ==>
                  rules[j].id in status2 && !status2[rules[j].id])
  {
    MatchInv(env, rules, status);
    var p1 := RunPass(env, InitialProgress(rules, status), rules, true).value;
    MatchedAtEnd(status, RunPass(env, p1, rules, false).value);
    RecordedAtEnd(env, rules, status, RunPass(env, p1, rules, false).value);
  }

  /**
   * Once a rule of a collection has matched, rules of that collection without
   * actions produce no further event: every event of a closed collection
   * comes from a rule with actions.
   */
  lemma ClosedCollectionNeedsActions(env: Env, rules: seq<Rule>, status: map<string, bool>, k: nat)
    requires UniqueIds(rules) && MatchSpec(env, rules, status).Done?
    requires k < |rules| && HasMatched(status, rules[k].id)
    ensures forall e :: e in MatchSpec(env, rules, status).value.1 && e.ruleType == rules[k].Type() ==> e.actions != []
  {
    MatchInv(env, rules, status);
    assert rules[k].Type() in ClosedTypes(rules, status);
    var evs := MatchSpec(env, rules, status).value.1;
    forall e | e in evs && e.ruleType == rules[k].Type() ensures e.actions != [] {
      var i :| 0 <= i < |evs| && evs[i] == e;
    }
  }

  /** Some event of collection `t` comes from a rule with actions. */
  ghost predicate HasPriorityEvent(events: seq<Event>, t: string) {
    exists i :: 0 <= i < |events| && events[i].ruleType == t && events[i].actions != []
  }

  lemma PriorityEventKept(events: seq<Event>, more: seq<Event>, t: string)
    requires HasPriorityEvent(events, t) && events <= more
    ensures HasPriorityEvent(more, t)
  {
    var i :| 0 <= i < |events| && events[i].ruleType == t && events[i].actions != [];
    assert more[i] == events[i];
  }

  /** Handling rule `k` in the priority pass leaves an event from a rule with actions in its collection. */
  lemma PriorityStepFires(env: Env, rules: seq<Rule>, status: map<string, bool>, p: Progress, k: nat)
    requires UniqueIds(rules) && k < |rules| && !env.expired && Inv(env, rules, status, p, k, true)
    requires rules[k].IsPriority() && rules[k].id !in env.excludedRules && !HasMatched(status, rules[k].id)
    requires EvalRule(env.ops, rules[k], env.view, ObjectsExcludedFor(env, rules[k].id), env.dynamic, false).Done?
    requires EvalRule(env.ops, rules[k], env.view, ObjectsExcludedFor(env, rules[k].id), env.dynamic, false).value.Some?
    ensures Step(env, p, rules[k], true).Done?
    ensures HasPriorityEvent(Step(env, p, rules[k], true).value.events, rules[k].Type())
  {
    var r := rules[k];
    if r.Type() in p.fired {
      assert HasEventOfType(p.events, r.Type());
      var i :| 0 <= i < |p.events| && p.events[i].ruleType == r.Type();
      assert HasSource(rules, p.events[i], k, true);
      StepInv(env, rules, status, p, k, true);
      assert HasPriorityEvent(p.events, r.Type());
      PriorityEventKept(p.events, Step(env, p, r, true).value.events, r.Type());
    } else {
      NotYetFired(rules, status, p, k, true);
      var e := EvalRule(env.ops, r, env.view, ObjectsExcludedFor(env, r.id), env.dynamic, false).value.value;
      EventCarriesRule(env.ops, r, env.view, ObjectsExcludedFor(env, r.id), env.dynamic, false, e);
      var q := Step(env, p, r, true).value;
      assert q.events == p.events + [e];
      assert q.events[|p.events|] == e;
    }
  }

  /** The priority pass over the first `n` rules: rule `k`'s collection has an event from a rule with actions. */
  lemma {:induction false} PriorityPassFires(env: Env, rules: seq<Rule>, status: map<string, bool>, n: nat, k: nat)
    requires UniqueIds(rules) && k < n <= |rules| && !env.expired
    requires rules[k].IsPriority() && rules[k].id !in env.excludedRules && !HasMatched(status, rules[k].id)
    requires EvalRule(env.ops, rules[k], env.view, ObjectsExcludedFor(env, rules[k].id), env.dynamic, false).Done?
    requires EvalRule(env.ops, rules[k], env.view, ObjectsExcludedFor(env, rules[k].id), env.dynamic, false).value.Some?
    ensures RunPass(env, InitialProgress(rules, status), rules[..n], true).Done?
    ensures HasPriorityEvent(RunPass(env, InitialProgress(rules, status), rules[..n], true).value.events, rules[k].Type())
    decreases n
  {
    var p0 := InitialProgress(rules, status);
    InitialInv(env, rules, status);
    assert rules[..n][..n - 1] == rules[..n - 1];
    assert rules[..n][n - 1] == rules[n - 1];
    PassTimeout(env, p0, rules[..n - 1], true);
    var p := RunPass(env, p0, rules[..n - 1], true).value;
    PassInv(env, rules, status, p0, n - 1, true);
    if k < n - 1 {
      PriorityPassFires(env, rules, status, n - 1, k);
      PassTimeout(env, p0, rules[..n], true);
      StepInv(env, rules, status, p, n - 1, true);
      PriorityEventKept(p.events, Step(env, p, rules[n - 1], true).value.events, rules[k].Type());
    } else {
      PriorityStepFires(env, rules, status, p, k);
    }
  }

  /**
   * Priority wins: a rule with actions that has not matched before and fires on
   * the data gives its collection an event from a rule with actions, whatever
   * the order of the rules and whether a rule without actions of the same
   * collection matched in this call or an earlier one.
   */
  lemma PriorityRuleWins(env: Env, rules: seq<Rule>, status: map<string, bool>, k: nat)
    requires UniqueIds(rules) && k < |rules| && !env.expired
    requires rules[k].IsPriority() && rules[k].id !in env.excludedRules && !HasMatched(status, rules[k].id)
    requires EvalRule(env.ops, rules[k], env.view, ObjectsExcludedFor(env, rules[k].id), env.dynamic, false).Done?
    requires EvalRule(env.ops, rules[k], env.view, ObjectsExcludedFor(env, rules[k].id), env.dynamic, false).value.Some?
    ensures MatchSpec(env, rules, status).Done?
    ensures exists e :: e in MatchSpec(env, rules, status).value.1 && e.ruleType == rules[k].Type() && e.actions != []
  {
    MatchTimeout(env, rules, status);
    assert rules[..|rules|] == rules;
    PriorityPassFires(env, rules, status, |rules|, k);
    MatchInv(env, rules, status);
    var p1 := RunPass(env, InitialProgress(rules, status), rules, true).value;
    var evs := MatchSpec(env, rules, status).value.1;
    PriorityEventKept(p1.events, evs, rules[k].Type());
    var i :| 0 <= i < |evs| && evs[i].ruleType == rules[k].Type() && evs[i].actions != [];
    assert evs[i] in evs;
  }

  // ---------------------------------------------- rules without actions

  /** What rule `j` gives on the data of a call that has not expired. */
  function Outcome(env: Env, rules: seq<Rule>, j: nat): Timed<Option<Event>>
    requires j < |rules|
  {
    EvalRule(env.ops, rules[j], env.view, ObjectsExcludedFor(env, rules[j].id), env.dynamic, false)
  }

  /**
   * Rule `k` has no actions, is not excluded, its collection has no match in
   * the status cache, it fires on the data, and it is the first rule of its
   * collection to do so: no priority rule of the collection and no earlier
   * rule without actions of the collection fires.
   */
  ghost predicate FirstToFire(env: Env, rules: seq<Rule>, status: map<string, bool>, k: nat) {
    && k < |rules|
    && !rules[k].IsPriority() && rules[k].id !in env.excludedRules
    && rules[k].Type() !in ClosedTypes(rules, status)
    && Outcome(env, rules, k).Done? && Outcome(env, rules, k).value.Some?
    && forall j :: (0 <= j < |rules| && rules[j].Type() == rules[k].Type() && rules[j].id !in env.excludedRules
                    && (rules[j].IsPriority() || j < k)) ==> Outcome(env, rules, j) == Done(None)
  }

  /** Over the first `n` rules, the priority pass leaves collection `t` closed only if it was. */
  lemma {:induction false} PriorityPassQuiet(env: Env, rules: seq<Rule>, p: Progress, t: string, n: nat)
    requires !env.expired && n <= |rules| && t !in p.closed
    requires forall j :: (0 <= j < |rules| && rules[j].Type() == t && rules[j].id !in env.excludedRules
                          && rules[j].IsPriority()) ==> Outcome(env, rules, j) == Done(None)
    ensures RunPass(env, p, rules[..n], true).Done?
    ensures t !in RunPass(env, p, rules[..n], true).value.closed
    decreases n
  {
    if n > 0 {
      PriorityPassQuiet(env, rules, p, t, n - 1);
      assert rules[..n][..n - 1] == rules[..n - 1];
      assert rules[..n][n - 1] == rules[n - 1];
      RuleLive(env.ops, rules[n - 1], env.view, ObjectsExcludedFor(env, rules[n - 1].id), env.dynamic);
    }
  }

  /**
   * Over the first `n` rules, the regular pass keeps collection `t` open up to
   * rule `k`, and from rule `k` on the events hold `e`, rule `k`'s event.
   */
  lemma {:induction false} RegularPassFires(env: Env, rules: seq<Rule>, status: map<string, bool>, p: Progress,
                                            k: nat, e: Event, n: nat)
    requires !env.expired && n <= |rules| && FirstToFire(env, rules, status, k)
    requires Outcome(env, rules, k) == Done(Some(e)) && rules[k].Type() !in p.closed
    ensures RunPass(env, p, rules[..n], false).Done?
    ensures n <= k ==> rules[k].Type() !in RunPass(env, p, rules[..n], false).value.closed
    ensures k < n ==> e in RunPass(env, p, rules[..n], false).value.events
    decreases n
  {
    if n > 0 {
      RegularPassFires(env, rules, status, p, k, e, n - 1);
      assert rules[..n][..n - 1] == rules[..n - 1];
      assert rules[..n][n - 1] == rules[n - 1];
      RuleLive(env.ops, rules[n - 1], env.view, ObjectsExcludedFor(env, rules[n - 1].id), env.dynamic);
      var q := RunPass(env, p, rules[..n - 1], false).value;
      if n - 1 == k {
        assert Step(env, q, rules[k], false) == Done(Progress(q.status[rules[k].id := true], q.closed + {rules[k].Type()},
                                                              q.fired + {rules[k].Type()}, q.events + [e]));
      }
    }
  }

  /**
   * A rule without actions that is the first of its collection to fire, in a
   * collection with no match yet, gives the call's only event of that
   * collection, and the status cache records it as matched.
   */
  lemma RegularRuleFires(env: Env, rules: seq<Rule>, status: map<string, bool>, k: nat)
    requires UniqueIds(rules) && !env.expired && FirstToFire(env, rules, status, k)
    ensures MatchSpec(env, rules, status).Done?
    ensures var e := Outcome(env, rules, k).value.value;
            var (status2, evs) := MatchSpec(env, rules, status).value;
            && e.ruleId == rules[k].id && e.ruleType == rules[k].Type()
            && e in evs
            && (forall e' :: e' in evs && e'.ruleType == rules[k].Type() ==> e' == e)
            && HasMatched(status2, rules[k].id)
  {
    var t := rules[k].Type();
    var e := Outcome(env, rules, k).value.value;
    EventCarriesRule(env.ops, rules[k], env.view, ObjectsExcludedFor(env, rules[k].id), env.dynamic, false, e);
    var p0 := InitialProgress(rules, status);
    assert rules[..|rules|] == rules;
    PriorityPassQuiet(env, rules, p0, t, |rules|);
    var p1 := RunPass(env, p0, rules, true).value;
    RegularPassFires(env, rules, status, p1, k, e, |rules|);
    var (status2, evs) := MatchSpec(env, rules, status).value;
    OneEventPerCollection(env, rules, status);
    StatusCacheMeaning(env, rules, status);
    var i :| 0 <= i < |evs| && evs[i] == e;
    assert NewlyMatched(status, status2, rules[k].id) by {
      assert e in evs && e.ruleId == rules[k].id;
    }
    forall e' | e' in evs && e'.ruleType == t
      ensures e' == e
    {
      var i' :| 0 <= i' < |evs| && evs[i'] == e';
      assert i' == i;
    }
  }

  /**
   * Collections are independent: two rules without actions of different
   * collections, each the first of its collection to fire, both give an event
   * in the same call.
   */
  lemma TwoCollectionsFire(env: Env, rules: seq<Rule>, status: map<string, bool>, k1: nat, k2: nat)
    requires UniqueIds(rules) && !env.expired
    requires FirstToFire(env, rules, status, k1) && FirstToFire(env, rules, status, k2)
    requires rules[k1].Type() != rules[k2].Type()
    ensures MatchSpec(env, rules, status).Done?
    ensures var evs := MatchSpec(env, rules, status).value.1;
            && Outcome(env, rules, k1).value.value in evs
            && Outcome(env, rules, k2).value.value in evs
            && Outcome(env, rules, k1).value.value != Outcome(env, rules, k2).value.value
  {
    RegularRuleFires(env, rules, status, k1);
    RegularRuleFires(env, rules, status, k2);
  }
}
