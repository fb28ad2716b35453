/**
 * Conditions: one operator applied to the leaves of an ordered list of
 * targets. A condition reports the first leaf the operator matches, no match,
 * or a timeout when the deadline has expired before a leaf is visited.
 */
module Conditions {
  import opened Wrappers
  import opened Values
  import opened Manifests
  import opened ObjectStores

  /** Identifier of a value transformer (lower-casing, URL decoding, ...). */
  type TransformerId = nat

  /** A binding to a value: the manifest root id, the address name and a key path, possibly empty. */
  datatype Target = Target(root: TargetId, name: string, keyPath: seq<string>)

  /** The operator a condition applies; its matching logic is abstract (see `Operators`). */
  datatype Processor =
    | IpMatch(ips: seq<string>)
    | ExactMatch(values: seq<string>)
    | PhraseMatch(patterns: seq<string>, lengths: seq<nat>)
    | MatchRegex(regex: string, minLength: nat, caseSensitive: bool)
    | IsXss
    | IsSqli

  function OperatorName(p: Processor): string {
    match p
    case IpMatch(_) => "ip_match"
    case ExactMatch(_) => "exact_match"
    case PhraseMatch(_, _) => "phrase_match"
    case MatchRegex(_, _, _) => "match_regex"
    case IsXss => "is_xss"
    case IsSqli => "is_sqli"
  }

  /** The operator parameter reported in a match: the regex source, empty for the others. */
  function OperatorValue(p: Processor): string {
    if p.MatchRegex? then p.regex else ""
  }

  /**
   * The collaborators whose code is not part of this model: the operators'
   * matching (the matched substring, if any) and the value transformers.
   */
  datatype Operators = Operators(
    apply: (Processor, string) -> Option<string>,
    transform: (TransformerId, string) -> string)

  /** The details of one successful condition. */
  datatype MatchRecord = MatchRecord(
    resolved: string,
    matched: string,
    operatorName: string,
    operatorValue: string,
    source: string,
    keyPath: seq<string>)

  /**
   * A condition. The processor is optional because a condition may rely on a
   * processor supplied at evaluation time under its data id.
   */
  datatype Condition = Condition(
    targets: seq<Target>,
    transformers: seq<TransformerId>,
    processor: Option<Processor>,
    dataId: string := "",
    source: DataSource := Values)

  /** Building a condition keeps its targets as given and defaults to values with no data id. */
  lemma ConstructorDefaults(targets: seq<Target>, transformers: seq<TransformerId>, processor: Option<Processor>)
    ensures var c := Condition(targets, transformers, processor);
            c.targets == targets && c.transformers == transformers && c.processor == processor
            && c.dataId == "" && c.source == Values
  {
  }

  /** The processor used in a call: the one supplied under the data id, else the bound one. */
  function GetProcessor(c: Condition, dynamic: map<string, Processor>): (r: Option<Processor>)
    ensures c.dataId != "" && c.dataId in dynamic ==> r == Some(dynamic[c.dataId])
    ensures c.dataId == "" || c.dataId !in dynamic ==> r == c.processor
  {
    if c.dataId != "" && c.dataId in dynamic then Some(dynamic[c.dataId]) else c.processor
  }

  /** Applies the transformers in order. */
  function Transform(ops: Operators, ts: seq<TransformerId>, s: string): string
    decreases |ts|
  {
    if ts == [] then s else Transform(ops, ts[1..], ops.transform(ts[0], s))
  }

  /**
   * The leaves of one target visible in a call: none when only new data is
   * wanted and the target is not new, when the store holds nothing for it, or
   * when its object is excluded.
   */
  function VisibleLeaves(view: StoreView, t: Target, excluded: set<TargetId>, runOnNew: bool, source: DataSource): seq<Leaf> {
    if runOnNew && t.root !in view.latest then []
    else if t.root !in view.objects || t.root in excluded then []
    else TargetLeaves(view.objects[t.root], t.keyPath, source)
  }

  /** The match record of one leaf, when the operator accepts its transformed text. */
  function MatchLeaf(ops: Operators, c: Condition, p: Processor, t: Target, leaf: Leaf): Option<MatchRecord> {
    var resolved := Transform(ops, c.transformers, leaf.text);
    match ops.apply(p, resolved)
    case None => None
    case Some(m) => Some(MatchRecord(resolved, m, OperatorName(p), OperatorValue(p), t.name, leaf.path))
  }

  /** Visits the leaves in order; each visit first checks the deadline. */
  function MatchLeaves(ops: Operators, c: Condition, p: Processor, t: Target, leaves: seq<Leaf>, expired: bool): Timed<Option<MatchRecord>>
    decreases |leaves|
  {
    if leaves == [] then Done(None)
    else if expired then Timeout
    else
      match MatchLeaf(ops, c, p, t, leaves[0])
      case Some(r) => Done(Some(r))
      case None => MatchLeaves(ops, c, p, t, leaves[1..], expired)
  }

  /** Visits the targets in order; the first match or timeout ends the search. */
  function MatchTargets(ops: Operators, c: Condition, p: Processor, targets: seq<Target>, view: StoreView,
                        excluded: set<TargetId>, runOnNew: bool, expired: bool): Timed<Option<MatchRecord>>
    decreases |targets|
  {
    if targets == [] then Done(None)
    else
      var r := MatchLeaves(ops, c, p, targets[0], VisibleLeaves(view, targets[0], excluded, runOnNew, c.source), expired);
      if r == Done(None) then MatchTargets(ops, c, p, targets[1..], view, excluded, runOnNew, expired) else r
  }

  /** `condition::match`: no processor means no match. */
  function Match(ops: Operators, c: Condition, view: StoreView, excluded: set<TargetId>, runOnNew: bool,
                 dynamic: map<string, Processor>, expired: bool): Timed<Option<MatchRecord>>
  {
    match GetProcessor(c, dynamic)
    case None => Done(None)
    case Some(p) => MatchTargets(ops, c, p, c.targets, view, excluded, runOnNew, expired)
  }

  /** The leaf loop of `match` and `match_target`, walking the targets and their leaves. */
  method MatchCondition(ops: Operators, c: Condition, view: StoreView, excluded: set<TargetId>, runOnNew: bool,
                        dynamic: map<string, Processor>, expired: bool) returns (r: Timed<Option<MatchRecord>>)
    ensures r == Match(ops, c, view, excluded, runOnNew, dynamic, expired)
  {
    var proc := GetProcessor(c, dynamic);
    if proc.None? {
      return Done(None);
    }
    var p := proc.value;
    var i := 0;
    while i < |c.targets|
      invariant 0 <= i <= |c.targets|
      invariant Match(ops, c, view, excluded, runOnNew, dynamic, expired)
                == MatchTargets(ops, c, p, c.targets[i..], view, excluded, runOnNew, expired)
    {
      var t := c.targets[i];
      assert c.targets[i..][0] == t && c.targets[i..][1..] == c.targets[i + 1..];
      var leaves := VisibleLeaves(view, t, excluded, runOnNew, c.source);
      var j := 0;
      while j < |leaves|
        invariant 0 <= j <= |leaves|
        invariant MatchLeaves(ops, c, p, t, leaves, expired) == MatchLeaves(ops, c, p, t, leaves[j..], expired)
      {
        assert leaves[j..][0] == leaves[j] && leaves[j..][1..] == leaves[j + 1..];
        if expired {
          return Timeout;
        }
        var rec := MatchLeaf(ops, c, p, t, leaves[j]);
        if rec.Some? {
          return Done(rec);
        }
        j := j + 1;
      }
      i := i + 1;
    }
    return Done(None);
  }

  /** Some target of `targets` has a visible leaf. */
  ghost predicate AnyVisible(targets: seq<Target>, view: StoreView, excluded: set<TargetId>, runOnNew: bool, source: DataSource) {
    exists i :: 0 <= i < |targets| && VisibleLeaves(view, targets[i], excluded, runOnNew, source) != []
  }

  /** With the deadline expired the targets never match: they time out exactly when a leaf is visible. */
  lemma {:induction false} ExpiredTargets(ops: Operators, c: Condition, p: Processor, targets: seq<Target>, view: StoreView,
                                          excluded: set<TargetId>, runOnNew: bool)
    ensures MatchTargets(ops, c, p, targets, view, excluded, runOnNew, true)
            == if AnyVisible(targets, view, excluded, runOnNew, c.source) then Timeout else Done(None)
    decreases |targets|
  {
    if targets != [] {
      ExpiredTargets(ops, c, p, targets[1..], view, excluded, runOnNew);
      if VisibleLeaves(view, targets[0], excluded, runOnNew, c.source) == [] {
        if AnyVisible(targets, view, excluded, runOnNew, c.source) {
          var i :| 0 <= i < |targets| && VisibleLeaves(view, targets[i], excluded, runOnNew, c.source) != [];
          assert targets[1..][i - 1] == targets[i];
        }
        if AnyVisible(targets[1..], view, excluded, runOnNew, c.source) {
          var i :| 0 <= i < |targets[1..]| && VisibleLeaves(view, targets[1..][i], excluded, runOnNew, c.source) != [];
          assert targets[i + 1] == targets[1..][i];
        }
      }
    }
  }

  /** An expired deadline makes a condition with data to inspect time out, even when the data would match. */
  lemma ExpiredNeverMatches(ops: Operators, c: Condition, view: StoreView, excluded: set<TargetId>, runOnNew: bool,
                            dynamic: map<string, Processor>)
    ensures Match(ops, c, view, excluded, runOnNew, dynamic, true)
            == if GetProcessor(c, dynamic).Some? && AnyVisible(c.targets, view, excluded, runOnNew, c.source)
               then Timeout else Done(None)
  {
    if GetProcessor(c, dynamic).Some? {
      ExpiredTargets(ops, c, GetProcessor(c, dynamic).value, c.targets, view, excluded, runOnNew);
    }
  }

  /** Before the deadline a condition never times out. */
  lemma {:induction false} LiveTargetsComplete(ops: Operators, c: Condition, p: Processor, targets: seq<Target>, view: StoreView,
                                               excluded: set<TargetId>, runOnNew: bool)
    ensures MatchTargets(ops, c, p, targets, view, excluded, runOnNew, false).Done?
    decreases |targets|
  {
    if targets != [] {
      LiveLeavesComplete(ops, c, p, targets[0], VisibleLeaves(view, targets[0], excluded, runOnNew, c.source));
      LiveTargetsComplete(ops, c, p, targets[1..], view, excluded, runOnNew);
    }
  }

  lemma {:induction false} LiveLeavesComplete(ops: Operators, c: Condition, p: Processor, t: Target, leaves: seq<Leaf>)
    ensures MatchLeaves(ops, c, p, t, leaves, false).Done?
    decreases |leaves|
  {
    if leaves != [] {
      LiveLeavesComplete(ops, c, p, t, leaves[1..]);
    }
  }

  /** The record of leaf `k` of target `i`, when the operator accepts it. */
  ghost predicate LeafMatchesAt(ops: Operators, c: Condition, p: Processor, targets: seq<Target>, view: StoreView,
                                excluded: set<TargetId>, runOnNew: bool, i: int, k: int, rec: MatchRecord) {
    && 0 <= i < |targets|
    && 0 <= k < |VisibleLeaves(view, targets[i], excluded, runOnNew, c.source)|
    && MatchLeaf(ops, c, p, targets[i], VisibleLeaves(view, targets[i], excluded, runOnNew, c.source)[k]) == Some(rec)
  }

  lemma {:induction false} LeavesSound(ops: Operators, c: Condition, p: Processor, t: Target, leaves: seq<Leaf>, expired: bool, rec: MatchRecord)
    requires MatchLeaves(ops, c, p, t, leaves, expired) == Done(Some(rec))
    ensures exists k :: 0 <= k < |leaves| && MatchLeaf(ops, c, p, t, leaves[k]) == Some(rec)
    decreases |leaves|
  {
    if MatchLeaf(ops, c, p, t, leaves[0]) != Some(rec) {
      LeavesSound(ops, c, p, t, leaves[1..], expired, rec);
      var k :| 0 <= k < |leaves[1..]| && MatchLeaf(ops, c, p, t, leaves[1..][k]) == Some(rec);
      assert leaves[k + 1] == leaves[1..][k];
    }
  }

  /** A reported match comes from a visible leaf of one of the targets that the operator accepted. */
  lemma {:induction false} TargetsSound(ops: Operators, c: Condition, p: Processor, targets: seq<Target>, view: StoreView,
                                        excluded: set<TargetId>, runOnNew: bool, expired: bool, rec: MatchRecord)
    requires MatchTargets(ops, c, p, targets, view, excluded, runOnNew, expired) == Done(Some(rec))
    ensures exists i, k :: LeafMatchesAt(ops, c, p, targets, view, excluded, runOnNew, i, k, rec)
    decreases |targets|
  {
    var leaves := VisibleLeaves(view, targets[0], excluded, runOnNew, c.source);
    if MatchLeaves(ops, c, p, targets[0], leaves, expired) == Done(Some(rec)) {
      LeavesSound(ops, c, p, targets[0], leaves, expired, rec);
      var k :| 0 <= k < |leaves| && MatchLeaf(ops, c, p, targets[0], leaves[k]) == Some(rec);
      assert LeafMatchesAt(ops, c, p, targets, view, excluded, runOnNew, 0, k, rec);
    } else {
      TargetsSound(ops, c, p, targets[1..], view, excluded, runOnNew, expired, rec);
      var i, k :| LeafMatchesAt(ops, c, p, targets[1..], view, excluded, runOnNew, i, k, rec);
      assert targets[1..][i] == targets[i + 1];
      assert LeafMatchesAt(ops, c, p, targets, view, excluded, runOnNew, i + 1, k, rec);
    }
  }

  /**
   * A match record names the target's address as its source, holds the
   * transformed leaf text as its resolved value, and holds what the operator
   * reported as matched.
   */
  lemma MatchSound(ops: Operators, c: Condition, view: StoreView, excluded: set<TargetId>, runOnNew: bool,
                   dynamic: map<string, Processor>, expired: bool, rec: MatchRecord)
    requires Match(ops, c, view, excluded, runOnNew, dynamic, expired) == Done(Some(rec))
    ensures GetProcessor(c, dynamic).Some?
    ensures var p := GetProcessor(c, dynamic).value;
            exists i, k :: LeafMatchesAt(ops, c, p, c.targets, view, excluded, runOnNew, i, k, rec)
    ensures var p := GetProcessor(c, dynamic).value;
            && ops.apply(p, rec.resolved) == Some(rec.matched)
            && rec.operatorName == OperatorName(p) && rec.operatorValue == OperatorValue(p)
            && exists i :: 0 <= i < |c.targets| && rec.source == c.targets[i].name
  {
    var p := GetProcessor(c, dynamic).value;
    TargetsSound(ops, c, p, c.targets, view, excluded, runOnNew, expired, rec);
    var i, k :| LeafMatchesAt(ops, c, p, c.targets, view, excluded, runOnNew, i, k, rec);
    assert rec.source == c.targets[i].name;
  }

  lemma {:induction false} LeavesComplete(ops: Operators, c: Condition, p: Processor, t: Target, leaves: seq<Leaf>, k: nat)
    requires k < |leaves| && MatchLeaf(ops, c, p, t, leaves[k]).Some?
    ensures MatchLeaves(ops, c, p, t, leaves, false).Done?
    ensures MatchLeaves(ops, c, p, t, leaves, false).value.Some?
    decreases |leaves|
  {
    if k > 0 && MatchLeaf(ops, c, p, t, leaves[0]).None? {
      assert leaves[1..][k - 1] == leaves[k];
      LeavesComplete(ops, c, p, t, leaves[1..], k - 1);
    }
  }

  lemma {:induction false} TargetsComplete(ops: Operators, c: Condition, p: Processor, targets: seq<Target>, view: StoreView,
                                           excluded: set<TargetId>, runOnNew: bool, i: nat, k: nat, rec: MatchRecord)
    requires LeafMatchesAt(ops, c, p, targets, view, excluded, runOnNew, i, k, rec)
    ensures MatchTargets(ops, c, p, targets, view, excluded, runOnNew, false).Done?
    ensures MatchTargets(ops, c, p, targets, view, excluded, runOnNew, false).value.Some?
    decreases |targets|
  {
    var leaves := VisibleLeaves(view, targets[0], excluded, runOnNew, c.source);
    LiveLeavesComplete(ops, c, p, targets[0], leaves);
    if i == 0 {
      LeavesComplete(ops, c, p, targets[0], leaves, k);
    } else if MatchLeaves(ops, c, p, targets[0], leaves, false) == Done(None) {
      assert targets[1..][i - 1] == targets[i];
      assert LeafMatchesAt(ops, c, p, targets[1..], view, excluded, runOnNew, i - 1, k, rec);
      TargetsComplete(ops, c, p, targets[1..], view, excluded, runOnNew, i - 1, k, rec);
    }
  }

  /** Before the deadline, a visible leaf that the operator accepts makes the condition match. */
  lemma MatchComplete(ops: Operators, c: Condition, view: StoreView, excluded: set<TargetId>, runOnNew: bool,
                      dynamic: map<string, Processor>, p: Processor, i: nat, k: nat, rec: MatchRecord)
    requires GetProcessor(c, dynamic) == Some(p)
    requires LeafMatchesAt(ops, c, p, c.targets, view, excluded, runOnNew, i, k, rec)
    ensures Match(ops, c, view, excluded, runOnNew, dynamic, false).Done?
    ensures Match(ops, c, view, excluded, runOnNew, dynamic, false).value.Some?
  {
    TargetsComplete(ops, c, p, c.targets, view, excluded, runOnNew, i, k, rec);
  }

  lemma {:induction false} ExcludedTargetsHidden(ops: Operators, c: Condition, p: Processor, targets: seq<Target>, view: StoreView,
                                                 excluded: set<TargetId>, runOnNew: bool, expired: bool)
    ensures MatchTargets(ops, c, p, targets, view, excluded, runOnNew, expired)
            == MatchTargets(ops, c, p, targets, StoreView(view.objects - excluded, view.latest), {}, runOnNew, expired)
    decreases |targets|
  {
    if targets != [] {
      assert VisibleLeaves(view, targets[0], excluded, runOnNew, c.source)
          == VisibleLeaves(StoreView(view.objects - excluded, view.latest), targets[0], {}, runOnNew, c.source);
      ExcludedTargetsHidden(ops, c, p, targets[1..], view, excluded, runOnNew, expired);
    }
  }

  /** Targets whose objects are all excluded give no match, whatever the deadline. */
  lemma {:induction false} NothingVisible(ops: Operators, c: Condition, p: Processor, targets: seq<Target>, view: StoreView,
                                          excluded: set<TargetId>, expired: bool)
    requires forall t :: t in targets ==> t.root in excluded
    ensures MatchTargets(ops, c, p, targets, view, excluded, false, expired) == Done(None)
    decreases |targets|
  {
    if targets != [] {
      assert targets[0] in targets;
      assert forall t :: t in targets[1..] ==> t in targets;
      NothingVisible(ops, c, p, targets[1..], view, excluded, expired);
    }
  }

  /** Excluding objects is the same as evaluating over a store that does not hold them. */
  lemma ExcludedObjectsInvisible(ops: Operators, c: Condition, view: StoreView, excluded: set<TargetId>, runOnNew: bool,
                                 dynamic: map<string, Processor>, expired: bool)
    ensures Match(ops, c, view, excluded, runOnNew, dynamic, expired)
            == Match(ops, c, StoreView(view.objects - excluded, view.latest), {}, runOnNew, dynamic, expired)
  {
    if GetProcessor(c, dynamic).Some? {
      ExcludedTargetsHidden(ops, c, GetProcessor(c, dynamic).value, c.targets, view, excluded, runOnNew, expired);
    }
  }

  /** A string stored under the root of a single-target condition with no key path or transformer gives one record about that string. */
  lemma SingleStringMatch(ops: Operators, c: Condition, view: StoreView, dynamic: map<string, Processor>, p: Processor, s: string, m: string)
    requires |c.targets| == 1 && c.targets[0].keyPath == [] && c.transformers == [] && c.source == Values
    requires GetProcessor(c, dynamic) == Some(p)
    requires c.targets[0].root in view.objects && view.objects[c.targets[0].root] == Str(s)
    requires ops.apply(p, s) == Some(m)
    ensures Match(ops, c, view, {}, false, dynamic, false)
            == Done(Some(MatchRecord(s, m, OperatorName(p), OperatorValue(p), c.targets[0].name, [])))
  {
    var t := c.targets[0];
    assert VisibleLeaves(view, t, {}, false, c.source) == [Leaf(s, [])];
    assert c.targets[1..] == [];
  }

  /**
   * The conjunction of a list of conditions, evaluated in order and stopping
   * at the first that does not match: the records of all of them, no match,
   * or a timeout.
   */
  function MatchAll(ops: Operators, conds: seq<Condition>, view: StoreView, excluded: set<TargetId>,
                    dynamic: map<string, Processor>, expired: bool): Timed<Option<seq<MatchRecord>>>
    decreases |conds|
  {
    if conds == [] then Done(Some([]))
    else
      match Match(ops, conds[0], view, excluded, false, dynamic, expired)
      case Timeout => Timeout
      case Done(None) => Done(None)
      case Done(Some(rec)) =>
        match MatchAll(ops, conds[1..], view, excluded, dynamic, expired)
        case Timeout => Timeout
        case Done(None) => Done(None)
        case Done(Some(recs)) => Done(Some([rec] + recs))
  }

  /** The condition at index `i` matched. */
  ghost predicate MatchedAt(ops: Operators, conds: seq<Condition>, view: StoreView, excluded: set<TargetId>,
                            dynamic: map<string, Processor>, expired: bool, i: int) {
    0 <= i < |conds| && Match(ops, conds[i], view, excluded, false, dynamic, expired).Done?
    && Match(ops, conds[i], view, excluded, false, dynamic, expired).value.Some?
  }

  /** The conjunction holds exactly when every condition matched. */
  lemma {:induction false} MatchAllIff(ops: Operators, conds: seq<Condition>, view: StoreView, excluded: set<TargetId>,
                                       dynamic: map<string, Processor>, expired: bool)
    ensures (MatchAll(ops, conds, view, excluded, dynamic, expired).Done?
             && MatchAll(ops, conds, view, excluded, dynamic, expired).value.Some?)
            <==> (forall i :: 0 <= i < |conds| ==> MatchedAt(ops, conds, view, excluded, dynamic, expired, i))
    decreases |conds|
  {
    if conds != [] {
      MatchAllIff(ops, conds[1..], view, excluded, dynamic, expired);
      forall i | 1 <= i < |conds|
        ensures MatchedAt(ops, conds, view, excluded, dynamic, expired, i)
                <==> MatchedAt(ops, conds[1..], view, excluded, dynamic, expired, i - 1)
      {
        assert conds[i] == conds[1..][i - 1];
      }
      if forall i :: 0 <= i < |conds| ==> MatchedAt(ops, conds, view, excluded, dynamic, expired, i) {
        assert MatchedAt(ops, conds, view, excluded, dynamic, expired, 0);
        forall i | 0 <= i < |conds[1..]| ensures MatchedAt(ops, conds[1..], view, excluded, dynamic, expired, i) {
          assert MatchedAt(ops, conds, view, excluded, dynamic, expired, i + 1);
        }
      }
    }
  }

  /** A holding conjunction carries one record per condition, in the conditions' order. */
  lemma {:induction false} MatchAllRecords(ops: Operators, conds: seq<Condition>, view: StoreView, excluded: set<TargetId>,
                                           dynamic: map<string, Processor>, expired: bool, recs: seq<MatchRecord>)
    requires MatchAll(ops, conds, view, excluded, dynamic, expired) == Done(Some(recs))
    ensures |recs| == |conds|
    ensures forall i :: 0 <= i < |conds| ==> Match(ops, conds[i], view, excluded, false, dynamic, expired) == Done(Some(recs[i]))
    decreases |conds|
  {
    if conds != [] {
      var rest := MatchAll(ops, conds[1..], view, excluded, dynamic, expired).value.value;
      MatchAllRecords(ops, conds[1..], view, excluded, dynamic, expired, rest);
      forall i | 1 <= i < |conds| ensures Match(ops, conds[i], view, excluded, false, dynamic, expired) == Done(Some(recs[i])) {
        assert conds[i] == conds[1..][i - 1];
        assert recs[i] == rest[i - 1];
      }
    }
  }

  /** Before the deadline the conjunction never times out. */
  lemma {:induction false} MatchAllLive(ops: Operators, conds: seq<Condition>, view: StoreView, excluded: set<TargetId>,
                                        dynamic: map<string, Processor>)
    ensures MatchAll(ops, conds, view, excluded, dynamic, false).Done?
    decreases |conds|
  {
    if conds != [] {
      var c := conds[0];
      if GetProcessor(c, dynamic).Some? {
        LiveTargetsComplete(ops, c, GetProcessor(c, dynamic).value, c.targets, view, excluded, false);
      }
      MatchAllLive(ops, conds[1..], view, excluded, dynamic);
    }
  }
}
