/**
 * Version 1 rule-file loading: reads the `events` list of a rule file,
 * builds one rule per entry, registers every input address in the
 * manifest and records what was loaded and what failed.
 *
 * Each loop of the loader is specified by a function written in the same
 * order, carrying what has been built so far (`...From(items, i, acc)`), so
 * that an error stops the loop exactly where it stops the function.
 */
module ParserV1 {
  import opened Wrappers
  import opened Values
  import opened Manifests
  import opened Conditions
  import opened Rules
  import opened Rulesets
  import opened Parameters
  import opened RulesetInfos

  /** The transformer registry: the id of a transformer name, or nothing for an unknown name. */
  type TransformerLookup = string -> Option<TransformerId>

  const PhraseItemError := Parsing("phrase_match list item not a string")
  const NegativeMinLength := Parsing("min_length is a negative number")
  const EmptyAddress := Parsing("empty address")
  const DuplicateRule := Parsing("duplicate rule")
  const MissingType := Parsing("missing key 'type'")
  const NoValidRules := Parsing("no valid rules found")

  /** A length stored in an unsigned 32-bit field. */
  function Uint32(n: nat): nat {
    n % 0x1_0000_0000
  }

  // ---------------------------------------------------------------------
  // Addresses

  /** The position of the first `:` of `s`. */
  function FirstColon(s: string): (r: nat)
    requires ':' in s
    ensures r < |s| && s[r] == ':' && ':' !in s[..r]
  {
    if s[0] == ':' then 0
    else
      assert s == [s[0]] + s[1..];
      var r := 1 + FirstColon(s[1..]);
      assert s[..r] == [s[0]] + s[1..][..r - 1];
      r
  }

  /**
   * Splits an input at its first `:` when at least one character follows it:
   * the root address and a one-element key path; otherwise the whole input
   * is the root and the key path is empty.
   */
  function SplitAddress(input: string): (string, seq<string>) {
    if ':' !in input then (input, [])
    else
      var pos := FirstColon(input);
      if pos + 1 >= |input| then (input, [])
      else (input[..pos], [input[pos + 1..]])
  }

  /**
   * An input is split exactly when a `:` occurs before its last character;
   * then root, `:` and key give the input back and the root holds no `:`;
   * otherwise the root is the whole input.
   */
  lemma SplitAddressRoundTrip(input: string)
    ensures var (root, keyPath) := SplitAddress(input);
            && (keyPath != [] <==> exists i :: 0 <= i < |input| - 1 && input[i] == ':')
            && (keyPath == [] ==> root == input)
            && (keyPath != [] ==> |keyPath| == 1 && keyPath[0] != "" && ':' !in root
                                  && input == root + ":" + keyPath[0])
  {
    var (root, keyPath) := SplitAddress(input);
    if ':' in input {
      var pos := FirstColon(input);
      if pos + 1 < |input| {
        assert input == input[..pos] + [input[pos]] + input[pos + 1..];
      } else {
        forall i | 0 <= i < |input| - 1 ensures input[i] != ':' {
          assert input[i] == input[..pos][i];
        }
      }
    }
  }

  /** The target an input string describes, its root registered in the manifest. */
  function InputTarget(input: Value, st: ManifestState): (Result<Target, LoadError>, ManifestState) {
    if !input.Str? then (Err(BadCast), st)
    else if input.s == "" then (Err(EmptyAddress), st)
    else
      var (root, keyPath) := SplitAddress(input.s);
      var (st1, id) := InsertAddress(st, root);
      (Ok(Target(id, root, keyPath)), st1)
  }

  /**
   * An input yields a target exactly when it is a non-empty string; the
   * empty string is rejected as an empty address. The target is named after
   * its root, and its root id is the one the manifest now holds for that name.
   */
  lemma InputTargetMeaning(input: Value, st: ManifestState)
    ensures var (r, st1) := InputTarget(input, st);
            && (r.Ok? <==> input.Str? && input.s != "")
            && (r == Err(EmptyAddress) <==> input == Str(""))
            && (r.Ok? ==> (r.value.name, r.value.keyPath) == SplitAddress(input.s)
                          && FindAddress(st1, r.value.name) == Some(r.value.root))
            && (r.Err? ==> st1 == st)
  {
  }

  /** Runs `step` over `items` from index `i`, threading the manifest; the first error stops the run. */
  function CollectFrom<A, B>(items: seq<A>, i: nat, acc: seq<B>, st: ManifestState,
                             step: (A, ManifestState) -> (Result<B, LoadError>, ManifestState)): (Result<seq<B>, LoadError>, ManifestState)
    requires i <= |items|
    decreases |items| - i
  {
    if i == |items| then (Ok(acc), st)
    else
      var (r, st1) := step(items[i], st);
      if r.Err? then (Err(r.error), st1)
      else CollectFrom(items, i + 1, acc + [r.value], st1, step)
  }

  /** The manifest only ever gains addresses, and keeps the id of each address it held. */
  ghost predicate Keeps(st: ManifestState, st1: ManifestState) {
    forall a :: a in st.targets ==> a in st1.targets && st1.targets[a] == st.targets[a]
  }

  ghost predicate Registered(ts: seq<Target>, st: ManifestState) {
    forall k :: 0 <= k < |ts| ==> FindAddress(st, ts[k].name) == Some(ts[k].root)
  }

  /**
   * Reading inputs keeps every address the manifest held, and when it
   * succeeds each target's root id is the manifest's id for its name.
   */
  lemma {:induction false} TargetsRegistered(inputs: seq<Value>, i: nat, acc: seq<Target>, st: ManifestState)
    requires i <= |inputs| && Registered(acc, st)
    ensures var (r, st1) := CollectFrom(inputs, i, acc, st, InputTarget);
            Keeps(st, st1) && (r.Ok? ==> Registered(r.value, st1))
    decreases |inputs| - i
  {
    if i < |inputs| {
      var (r, st1) := InputTarget(inputs[i], st);
      InputTargetMeaning(inputs[i], st);
      if r.Ok? {
        assert Keeps(st, st1);
        TargetsRegistered(inputs, i + 1, acc + [r.value], st1);
      }
    }
  }

  /** The targets of a whole input list all carry the manifest's ids for their names. */
  lemma ConditionTargetsRegistered(inputs: seq<Value>, st: ManifestState)
    ensures var (r, st1) := CollectFrom(inputs, 0, [], st, InputTarget);
            Keeps(st, st1) && (r.Ok? ==> |r.value| == |inputs| && Registered(r.value, st1))
  {
    TargetsRegistered(inputs, 0, [], st);
    CollectLength(inputs, 0, [], st, InputTarget);
  }

  /** A successful run yields one result per item. */
  lemma {:induction false} CollectLength<A, B>(items: seq<A>, i: nat, acc: seq<B>, st: ManifestState,
                                               step: (A, ManifestState) -> (Result<B, LoadError>, ManifestState))
    requires i <= |items|
    ensures var (r, _) := CollectFrom(items, i, acc, st, step);
            r.Ok? ==> |r.value| == |acc| + |items| - i
    decreases |items| - i
  {
    if i < |items| {
      var (r, st1) := step(items[i], st);
      if r.Ok? {
        CollectLength(items, i + 1, acc + [r.value], st1, step);
      }
    }
  }

  // ---------------------------------------------------------------------
  // Processors

  /** The `phrase_match` list from index `i`: every item must be a string. */
  function PhrasesFrom(list: seq<Value>, i: nat, patterns: seq<string>, lengths: seq<nat>): Result<(seq<string>, seq<nat>), LoadError>
    requires i <= |list|
    decreases |list| - i
  {
    if i == |list| then Ok((patterns, lengths))
    else if !list[i].Str? then Err(PhraseItemError)
    else PhrasesFrom(list, i + 1, patterns + [list[i].s], lengths + [Uint32(|list[i].s|)])
  }

  /**
   * The list is accepted exactly when every item is a string; the patterns
   * are the items in order and each length is the item's length cut to 32 bits.
   */
  lemma {:induction false} PhrasesMeaning(list: seq<Value>, i: nat, patterns: seq<string>, lengths: seq<nat>)
    requires i <= |list| && |patterns| == |lengths| == i
    ensures var r := PhrasesFrom(list, i, patterns, lengths);
            && (r.Ok? <==> forall k :: i <= k < |list| ==> list[k].Str?)
            && (r.Err? ==> r.error == PhraseItemError)
            && (r.Ok? ==> |r.value.0| == |r.value.1| == |list|
                          && r.value.0[..i] == patterns && r.value.1[..i] == lengths
                          && forall k :: i <= k < |list| ==> (r.value.0[k] == list[k].s
                                                             && r.value.1[k] == Uint32(|list[k].s|)))
    decreases |list| - i
  {
    if i < |list| && list[i].Str? {
      var ps := patterns + [list[i].s];
      var ls := lengths + [Uint32(|list[i].s|)];
      PhrasesMeaning(list, i + 1, ps, ls);
      var r := PhrasesFrom(list, i, patterns, lengths);
      if r.Ok? {
        assert r.value.0[..i] == r.value.0[..i + 1][..i];
        assert r.value.1[..i] == r.value.1[..i + 1][..i];
      }
    }
  }

  /** The processor an `operation` names, built from its `parameters`. */
  function ProcessorOf(operation: string, params: seq<Entry>): Result<Processor, LoadError> {
    if operation == "phrase_match" then PhraseMatchOf(params)
    else if operation == "match_regex" then MatchRegexOf(params)
    else if operation == "is_xss" then Ok(IsXss)
    else if operation == "is_sqli" then Ok(IsSqli)
    else Err(Parsing("unknown processor: " + operation))
  }

  /** `phrase_match` takes its patterns from the `list` parameter. */
  function PhraseMatchOf(params: seq<Entry>): Result<Processor, LoadError> {
    match At(params, "list", AsVector)
    case Err(e) => Err(e)
    case Ok(list) =>
      match PhrasesFrom(list, 0, [], [])
      case Err(e) => Err(e)
      case Ok((patterns, lengths)) => Ok(PhraseMatch(patterns, lengths))
  }

  /** `match_regex` takes `regex` and the optional `options` map with `case_sensitive` and `min_length`. */
  function MatchRegexOf(params: seq<Entry>): Result<Processor, LoadError> {
    match At(params, "regex", AsString)
    case Err(e) => Err(e)
    case Ok(regex) =>
      match AtOr(params, "options", AsMap, [])
      case Err(e) => Err(e)
      case Ok(options) =>
        match AtOr(options, "case_sensitive", AsBool, false)
        case Err(e) => Err(e)
        case Ok(caseSensitive) =>
          match AtOr(options, "min_length", AsInt64, 0)
          case Err(e) => Err(e)
          case Ok(minLength) =>
            if minLength < 0 then Err(NegativeMinLength)
            else Ok(MatchRegex(regex, minLength, caseSensitive))
  }

  /**
   * Only `phrase_match`, `match_regex`, `is_xss` and `is_sqli` are known;
   * any other operation is rejected as an unknown processor, and a built
   * processor reports the operation it was built from.
   */
  lemma ProcessorOperation(operation: string, params: seq<Entry>)
    ensures var r := ProcessorOf(operation, params);
            && ((r == Err(Parsing("unknown processor: " + operation)))
                <==> operation !in {"phrase_match", "match_regex", "is_xss", "is_sqli"})
            && (r.Ok? ==> OperatorName(r.value) == operation)
  {
    var r := ProcessorOf(operation, params);
    if operation in {"phrase_match", "match_regex", "is_xss", "is_sqli"} && r.Err? {
      var e := r.error;
      if e.Parsing? && operation == "phrase_match" {
        PhrasesMeaning(FindKey(params, "list").value.items, 0, [], []);
      }
      assert e.Parsing? ==> e.message != "unknown processor: " + operation by {
        if e.Parsing? {
          assert e.message == "min_length is a negative number" || e.message == "phrase_match list item not a string";
          assert "unknown processor: " <= e.message ==> e.message[..19] == "unknown processor: ";
        }
      }
    }
  }

  /**
   * `match_regex` is rejected for a negative `min_length` exactly when `regex`
   * reads as a string, `options` (if present) as a map, and its
   * `case_sensitive` (if present) as a bool and `min_length` as a negative
   * integer.
   */
  lemma NegativeMinLengthRejected(params: seq<Entry>)
    ensures ProcessorOf("match_regex", params) == Err(NegativeMinLength)
            <==> && At(params, "regex", AsString).Ok?
                 && AtOr(params, "options", AsMap, []).Ok?
                 && var options := AtOr(params, "options", AsMap, []).value;
                    && AtOr(options, "case_sensitive", AsBool, false).Ok?
                    && AtOr(options, "min_length", AsInt64, 0).Ok?
                    && AtOr(options, "min_length", AsInt64, 0).value < 0
  {
  }

  /** Every item of a `phrase_match` list must be a string; one that is not rejects the list. */
  method ParsePhraseList(list: seq<Value>) returns (r: Result<(seq<string>, seq<nat>), LoadError>)
    ensures r == PhrasesFrom(list, 0, [], [])
  {
    var patterns: seq<string> := [];
    var lengths: seq<nat> := [];
    var i := 0;
    while i < |list|
      invariant 0 <= i <= |list|
      invariant PhrasesFrom(list, 0, [], []) == PhrasesFrom(list, i, patterns, lengths)
    {
      if !list[i].Str? {
        return Err(PhraseItemError);
      }
      patterns := patterns + [list[i].s];
      lengths := lengths + [Uint32(|list[i].s|)];
      i := i + 1;
    }
    return Ok((patterns, lengths));
  }

  method ParseProcessor(operation: string, params: seq<Entry>) returns (r: Result<Processor, LoadError>)
    ensures r == ProcessorOf(operation, params)
  {
    if operation == "phrase_match" {
      var list := At(params, "list", AsVector);
      if list.Err? {
        return Err(list.error);
      }
      var phrases := ParsePhraseList(list.value);
      if phrases.Err? {
        return Err(phrases.error);
      }
      return Ok(PhraseMatch(phrases.value.0, phrases.value.1));
    } else if operation == "match_regex" {
      var regex := At(params, "regex", AsString);
      if regex.Err? {
        return Err(regex.error);
      }
      var options := AtOr(params, "options", AsMap, []);
      if options.Err? {
        return Err(options.error);
      }
      var caseSensitive := AtOr(options.value, "case_sensitive", AsBool, false);
      if caseSensitive.Err? {
        return Err(caseSensitive.error);
      }
      var minLength := AtOr(options.value, "min_length", AsInt64, 0);
      if minLength.Err? {
        return Err(minLength.error);
      }
      if minLength.value < 0 {
        return Err(NegativeMinLength);
      }
      return Ok(MatchRegex(regex.value, minLength.value, caseSensitive.value));
    } else if operation == "is_xss" {
      return Ok(IsXss);
    } else if operation == "is_sqli" {
      return Ok(IsSqli);
    }
    return Err(Parsing("unknown processor: " + operation));
  }

  // ---------------------------------------------------------------------
  // Conditions

  /** `parseCondition`: the processor, then one target per input; the manifest threads through. */
  function ConditionOf(m: seq<Entry>, st: ManifestState, transformers: seq<TransformerId>): (Result<Condition, LoadError>, ManifestState) {
    match At(m, "operation", AsString)
    case Err(e) => (Err(e), st)
    case Ok(operation) =>
      match At(m, "parameters", AsMap)
      case Err(e) => (Err(e), st)
      case Ok(params) =>
        match ProcessorOf(operation, params)
        case Err(e) => (Err(e), st)
        case Ok(processor) =>
          match At(params, "inputs", AsVector)
          case Err(e) => (Err(e), st)
          case Ok(inputs) =>
            var (targets, st1) := CollectFrom(inputs, 0, [], st, InputTarget);
            if targets.Err? then (Err(targets.error), st1)
            else (Ok(Condition(targets.value, transformers, Some(processor))), st1)
  }

  /**
   * A parsed condition has one target per input, each registered in the
   * manifest under its name, the rule's transformers, a bound processor and
   * the constructor's defaults; the manifest keeps every address it held.
   */
  lemma ConditionOfMeaning(m: seq<Entry>, st: ManifestState, transformers: seq<TransformerId>)
    ensures var (r, st1) := ConditionOf(m, st, transformers);
            && Keeps(st, st1)
            && (r.Ok? ==> && |r.value.targets| == |FindKey(FindKey(m, "parameters").value.entries, "inputs").value.items|
                          && Registered(r.value.targets, st1)
                          && r.value.transformers == transformers
                          && r.value.processor.Some?
                          && OperatorName(r.value.processor.value) == FindKey(m, "operation").value.s
                          && r.value.dataId == "" && r.value.source == Values)
  {
    var operation := At(m, "operation", AsString);
    var params := At(m, "parameters", AsMap);
    if operation.Ok? && params.Ok? {
      var p := ProcessorOf(operation.value, params.value);
      var inputs := At(params.value, "inputs", AsVector);
      if p.Ok? && inputs.Ok? {
        ProcessorOperation(operation.value, params.value);
        ConditionTargetsRegistered(inputs.value, st);
        var (targets, st1) := CollectFrom(inputs.value, 0, [], st, InputTarget);
        assert ConditionOf(m, st, transformers) ==
               (if targets.Err? then (Err(targets.error), st1)
                else (Ok(Condition(targets.value, transformers, Some(p.value))), st1));
      }
    }
  }

  method ParseCondition(m: seq<Entry>, manifest: Manifest, transformers: seq<TransformerId>)
    returns (r: Result<Condition, LoadError>)
    requires manifest.Valid()
    modifies manifest
    ensures manifest.Valid()
    ensures (r, manifest.state) == ConditionOf(m, old(manifest.state), transformers)
  {
    var operation := At(m, "operation", AsString);
    if operation.Err? {
      return Err(operation.error);
    }
    var params := At(m, "parameters", AsMap);
    if params.Err? {
      return Err(params.error);
    }
    var processor := ParseProcessor(operation.value, params.value);
    if processor.Err? {
      return Err(processor.error);
    }
    var inputs := At(params.value, "inputs", AsVector);
    if inputs.Err? {
      return Err(inputs.error);
    }
    var items := inputs.value;
    ghost var st0 := manifest.state;
    var targets: seq<Target> := [];
    var i := 0;
    while i < |items|
      invariant 0 <= i <= |items| && manifest.Valid()
      invariant CollectFrom(items, 0, [], st0, InputTarget) == CollectFrom(items, i, targets, manifest.state, InputTarget)
    {
      var input := items[i];
      if !input.Str? {
        return Err(BadCast);
      }
      if input.s == "" {
        return Err(EmptyAddress);
      }
      var (root, keyPath) := SplitAddress(input.s);
      var id := manifest.Insert(root);
      targets := targets + [Target(id, root, keyPath)];
      i := i + 1;
    }
    return Ok(Condition(targets, transformers, Some(processor.value)));
  }

  // ---------------------------------------------------------------------
  // Rules

  /** The transformer ids of a rule from index `i`: each must be a known name. */
  function TransformersFrom(items: seq<Value>, i: nat, acc: seq<TransformerId>, lookup: TransformerLookup): Result<seq<TransformerId>, LoadError>
    requires i <= |items|
    decreases |items| - i
  {
    if i == |items| then Ok(acc)
    else if !items[i].Str? then Err(BadCast)
    else
      match lookup(items[i].s)
      case None => Err(Parsing("invalid transformer" + items[i].s))
      case Some(t) => TransformersFrom(items, i + 1, acc + [t], lookup)
  }

  /**
   * The transformer list is accepted exactly when every item is the name of
   * a known transformer; the ids are then those names' ids, in order.
   */
  lemma {:induction false} TransformersMeaning(items: seq<Value>, i: nat, acc: seq<TransformerId>, lookup: TransformerLookup)
    requires i <= |items| && |acc| == i
    ensures var r := TransformersFrom(items, i, acc, lookup);
            && (r.Ok? <==> forall k :: i <= k < |items| ==> items[k].Str? && lookup(items[k].s).Some?)
            && (r.Ok? ==> |r.value| == |items| && r.value[..i] == acc
                          && forall k :: i <= k < |items| ==> r.value[k] == lookup(items[k].s).value)
    decreases |items| - i
  {
    if i < |items| && items[i].Str? && lookup(items[i].s).Some? {
      var acc' := acc + [lookup(items[i].s).value];
      TransformersMeaning(items, i + 1, acc', lookup);
      var r := TransformersFrom(items, i, acc, lookup);
      if r.Ok? {
        assert r.value[..i] == r.value[..i + 1][..i];
      }
    }
  }

  /** The tag map from index `i`: a repeated key keeps its first value; each value must be a string. */
  function TagsFrom(entries: seq<Entry>, i: nat, tags: map<string, string>): Result<map<string, string>, LoadError>
    requires i <= |entries|
    decreases |entries| - i
  {
    if i == |entries| then Ok(tags)
    else if entries[i].key in tags then TagsFrom(entries, i + 1, tags)
    else if !entries[i].value.Str? then Err(InvalidType(entries[i].key))
    else TagsFrom(entries, i + 1, tags[entries[i].key := entries[i].value.s])
  }

  /** `tags` holds, for each key of `entries[..i]`, the value of its first entry. */
  ghost predicate TagsOfPrefix(entries: seq<Entry>, i: nat, tags: map<string, string>)
    requires i <= |entries|
  {
    forall key {:trigger FindKey(entries[..i], key)} ::
      && (key in tags <==> FindKey(entries[..i], key).Some?)
      && (key in tags ==> FindKey(entries[..i], key) == Some(Str(tags[key])))
  }

  /** The first entry of a longer prefix with a key is the first entry of the shorter one, if that has it. */
  lemma {:induction false} FindKeyExtend(entries: seq<Entry>, i: nat, key: string)
    requires i < |entries|
    ensures FindKey(entries[..i + 1], key)
            == if FindKey(entries[..i], key).Some? then FindKey(entries[..i], key)
               else if entries[i].key == key then Some(entries[i].value) else None
    decreases i
  {
    if i > 0 {
      var e := entries[1..];
      assert entries[..i + 1][1..] == e[..i];
      assert entries[..i][1..] == e[..i - 1];
      if entries[0].key != key {
        FindKeyExtend(e, i - 1, key);
      }
    }
  }

  /** The first entry of every key holds a string. */
  ghost predicate StringTags(entries: seq<Entry>) {
    forall key :: FindKey(entries, key).Some? ==> FindKey(entries, key).value.Str?
  }

  /**
   * The tags are accepted exactly when no first entry of a key holds a
   * non-string; each tag is then the value of the first entry with its key.
   */
  lemma TagsMeaning(entries: seq<Entry>, i: nat, tags: map<string, string>)
    requires i <= |entries| && TagsOfPrefix(entries, i, tags)
    ensures var r := TagsFrom(entries, i, tags);
            && (r.Ok? <==> StringTags(entries))
            && (r.Ok? ==> TagsOfPrefix(entries, |entries|, r.value))
  {
    TagsAccepted(entries, i, tags);
    TagsRejected(entries, i, tags);
  }

  /** Accepted tags are the first value of each key, and every first value is a string. */
  lemma {:induction false} TagsAccepted(entries: seq<Entry>, i: nat, tags: map<string, string>)
    requires i <= |entries| && TagsOfPrefix(entries, i, tags)
    ensures var r := TagsFrom(entries, i, tags);
            r.Ok? ==> StringTags(entries) && TagsOfPrefix(entries, |entries|, r.value)
    decreases |entries| - i, 1
  {
    if i == |entries| {
      assert entries[..i] == entries;
      forall key | FindKey(entries, key).Some? ensures FindKey(entries, key).value.Str? {
        assert key in tags;
      }
    } else {
      TagsAcceptedStep(entries, i, tags);
    }
  }

  /** The inductive step of `TagsAccepted`, on the entry at index `i`. */
  lemma {:induction false} TagsAcceptedStep(entries: seq<Entry>, i: nat, tags: map<string, string>)
    requires i < |entries| && TagsOfPrefix(entries, i, tags)
    ensures var r := TagsFrom(entries, i, tags);
            r.Ok? ==> StringTags(entries) && TagsOfPrefix(entries, |entries|, r.value)
    decreases |entries| - i, 0
  {
    var e := entries[i];
    if e.key in tags {
      TagsPrefixSkip(entries, i, tags);
      TagsAccepted(entries, i + 1, tags);
    } else if e.value.Str? {
      var next := tags[e.key := e.value.s];
      TagsPrefixAdd(entries, i, tags);
      TagsAccepted(entries, i + 1, next);
    }
  }

  /** Tags are rejected only when the first value of some key is not a string. */
  lemma {:induction false} TagsRejected(entries: seq<Entry>, i: nat, tags: map<string, string>)
    requires i <= |entries| && TagsOfPrefix(entries, i, tags)
    ensures TagsFrom(entries, i, tags).Err? ==> !StringTags(entries)
    decreases |entries| - i, 1
  {
    if i < |entries| {
      if entries[i].key !in tags && !entries[i].value.Str? {
        FirstNonString(entries, i, tags);
      } else {
        TagsRejectedStep(entries, i, tags);
      }
    }
  }

  /** The inductive step of `TagsRejected`, past an entry whose key is repeated or whose value is a string. */
  lemma {:induction false} TagsRejectedStep(entries: seq<Entry>, i: nat, tags: map<string, string>)
    requires i < |entries| && TagsOfPrefix(entries, i, tags)
    requires entries[i].key in tags || entries[i].value.Str?
    ensures TagsFrom(entries, i, tags).Err? ==> !StringTags(entries)
    decreases |entries| - i, 0
  {
    var e := entries[i];
    if e.key in tags {
      TagsPrefixSkip(entries, i, tags);
      TagsRejected(entries, i + 1, tags);
    } else {
      var next := tags[e.key := e.value.s];
      TagsPrefixAdd(entries, i, tags);
      TagsRejected(entries, i + 1, next);
    }
  }

  /** The first entry of a key not yet seen, holding a non-string, breaks `StringTags`. */
  lemma FirstNonString(entries: seq<Entry>, i: nat, tags: map<string, string>)
    requires i < |entries| && TagsOfPrefix(entries, i, tags)
    requires entries[i].key !in tags && !entries[i].value.Str?
    ensures !StringTags(entries)
  {
    var key := entries[i].key;
    assert FindKey(entries[..i], key).None?;
    FindKeyExtend(entries, i, key);
    FindKeyPrefix(entries, i + 1, key);
    assert FindKey(entries, key).Some? && !FindKey(entries, key).value.Str?;
  }

  /** An entry whose key is already a tag leaves `TagsOfPrefix` as it is. */
  lemma TagsPrefixSkip(entries: seq<Entry>, i: nat, tags: map<string, string>)
    requires i < |entries| && TagsOfPrefix(entries, i, tags) && entries[i].key in tags
    ensures TagsOfPrefix(entries, i + 1, tags)
  {
    forall key ensures && (key in tags <==> FindKey(entries[..i + 1], key).Some?)
                       && (key in tags ==> FindKey(entries[..i + 1], key) == Some(Str(tags[key]))) {
      FindKeyExtend(entries, i, key);
      var _ := FindKey(entries[..i], entries[i].key);
    }
  }

  /** A string entry under a new key extends `TagsOfPrefix` by that tag. */
  lemma TagsPrefixAdd(entries: seq<Entry>, i: nat, tags: map<string, string>)
    requires i < |entries| && TagsOfPrefix(entries, i, tags)
    requires entries[i].key !in tags && entries[i].value.Str?
    ensures TagsOfPrefix(entries, i + 1, tags[entries[i].key := entries[i].value.s])
  {
    var next := tags[entries[i].key := entries[i].value.s];
    forall key ensures && (key in next <==> FindKey(entries[..i + 1], key).Some?)
                       && (key in next ==> FindKey(entries[..i + 1], key) == Some(Str(next[key]))) {
      FindKeyExtend(entries, i, key);
      var _ := FindKey(entries[..i], entries[i].key);
    }
  }

  /** A key found in a prefix is found with the same value in the whole list. */
  lemma {:induction false} FindKeyPrefix(entries: seq<Entry>, i: nat, key: string)
    requires i <= |entries| && FindKey(entries[..i], key).Some?
    ensures FindKey(entries, key) == FindKey(entries[..i], key)
    decreases i
  {
    if entries[0].key != key {
      assert entries[..i][1..] == entries[1..][..i - 1];
      FindKeyPrefix(entries[1..], i - 1, key);
    }
  }

  /** What became of one entry of the `events` list. */
  datatype RuleOutcome =
    | Escaped(error: LoadError)               // no usable id: the entry only counts as failed
    | Rejected(id: string, error: LoadError)  // the error is recorded under the rule's id
    | Loaded(rule: Rule)                      // inserted into the ruleset and counted as loaded

  /** The conditions of a rule from index `i`, threading the manifest; each item must be a map. */
  function ConditionsFrom(items: seq<Value>, i: nat, acc: seq<Condition>, st: ManifestState,
                          transformers: seq<TransformerId>): (Result<seq<Condition>, LoadError>, ManifestState)
    requires i <= |items|
    decreases |items| - i
  {
    if i == |items| then (Ok(acc), st)
    else if !items[i].Map? then (Err(BadCast), st)
    else
      var (r, st1) := ConditionOf(items[i].entries, st, transformers);
      if r.Err? then (Err(r.error), st1)
      else ConditionsFrom(items, i + 1, acc + [r.value], st1, transformers)
  }

  /** Tags, the `type` tag check and the name: the rule once its conditions are read. */
  function RuleFrom(m: seq<Entry>, id: string, conditions: seq<Condition>): Result<Rule, LoadError> {
    match At(m, "tags", AsMap)
    case Err(e) => Err(e)
    case Ok(tagEntries) =>
      match TagsFrom(tagEntries, 0, map[])
      case Err(e) => Err(e)
      case Ok(tags) =>
        if "type" !in tags then Err(MissingType)
        else
          match At(m, "name", AsString)
          case Err(e) => Err(e)
          case Ok(name) => Ok(Rule(id, name, tags, conditions, []))
  }

  /** The part of `parseRule` inside its error handler: a rule, or the first error met. */
  function RuleBodyOf(m: seq<Entry>, id: string, st: ManifestState, lookup: TransformerLookup): (Result<Rule, LoadError>, ManifestState) {
    match AtOr(m, "transformers", AsVector, [])
    case Err(e) => (Err(e), st)
    case Ok(items) =>
      match TransformersFrom(items, 0, [], lookup)
      case Err(e) => (Err(e), st)
      case Ok(transformers) =>
        match At(m, "conditions", AsVector)
        case Err(e) => (Err(e), st)
        case Ok(condItems) =>
          var (conditions, st1) := ConditionsFrom(condItems, 0, [], st, transformers);
          if conditions.Err? then (Err(conditions.error), st1)
          else (RuleFrom(m, id, conditions.value), st1)
  }

  /** `parseRule`: the outcome of one rule map given the ids already loaded. */
  function RuleOf(m: seq<Entry>, st: ManifestState, existing: set<string>, lookup: TransformerLookup): (RuleOutcome, ManifestState) {
    match At(m, "id", AsString)
    case Err(e) => (Escaped(e), st)
    case Ok(id) =>
      if id in existing then (Rejected(id, DuplicateRule), st)
      else
        var (r, st1) := RuleBodyOf(m, id, st, lookup);
        (if r.Ok? then Loaded(r.value) else Rejected(id, r.error), st1)
  }

  /** A rule whose id is already loaded is rejected as a duplicate and changes nothing. */
  lemma DuplicateRejected(m: seq<Entry>, st: ManifestState, existing: set<string>, lookup: TransformerLookup, id: string)
    requires FindKey(m, "id") == Some(Str(id)) && id in existing
    ensures RuleOf(m, st, existing, lookup) == (Rejected(id, DuplicateRule), st)
  {
  }

  /** An entry escapes exactly when it has no string id; any other failure is recorded under that id. */
  lemma RuleOfEscapes(m: seq<Entry>, st: ManifestState, existing: set<string>, lookup: TransformerLookup)
    ensures var (o, _) := RuleOf(m, st, existing, lookup);
            && (o.Escaped? <==> !(FindKey(m, "id").Some? && FindKey(m, "id").value.Str?))
            && (o.Rejected? ==> FindKey(m, "id") == Some(Str(o.id)))
  {
    var id := At(m, "id", AsString);
    if id.Ok? {
      assert RuleOf(m, st, existing, lookup).0.Rejected? || RuleOf(m, st, existing, lookup).0.Loaded? by {
        RuleOfAfterId(m, st, existing, lookup, id.value);
      }
    }
  }

  /** With a string id, the outcome is a rejection under that id or a loaded rule with that id. */
  lemma RuleOfAfterId(m: seq<Entry>, st: ManifestState, existing: set<string>, lookup: TransformerLookup, id: string)
    requires At(m, "id", AsString) == Ok(id)
    ensures var (o, _) := RuleOf(m, st, existing, lookup);
            (o.Rejected? && o.id == id) || (o.Loaded? && o.rule.id == id)
  {
  }

  /**
   * A loaded rule has a new id, a `type` tag, the entry's name, no actions,
   * and transformers that are all known names.
   */
  lemma RuleOfLoaded(m: seq<Entry>, st: ManifestState, existing: set<string>, lookup: TransformerLookup)
    ensures var (o, _) := RuleOf(m, st, existing, lookup);
            o.Loaded? ==> && FindKey(m, "id") == Some(Str(o.rule.id))
                          && o.rule.id !in existing
                          && "type" in o.rule.tags
                          && FindKey(m, "name") == Some(Str(o.rule.name))
                          && o.rule.actions == []
                          && var items := if FindKey(m, "transformers").Some?
                                          then FindKey(m, "transformers").value.items else [];
                             forall k :: 0 <= k < |items| ==> items[k].Str? && lookup(items[k].s).Some?
  {
    var (o, _) := RuleOf(m, st, existing, lookup);
    if o.Loaded? {
      var id := At(m, "id", AsString).value;
      var items := AtOr(m, "transformers", AsVector, []);
      assert items.Ok?;
      TransformersMeaning(items.value, 0, [], lookup);
      var transformers := TransformersFrom(items.value, 0, [], lookup).value;
      var condItems := At(m, "conditions", AsVector).value;
      var conditions := ConditionsFrom(condItems, 0, [], st, transformers).0.value;
      assert RuleFrom(m, id, conditions) == Ok(o.rule);
    }
  }

  /** A rule is rejected for a missing `type` tag exactly when its tags, otherwise well formed, have no `type` entry. */
  lemma MissingTypeRejected(entries: seq<Entry>)
    ensures var r := TagsFrom(entries, 0, map[]);
            r.Ok? ==> ("type" in r.value <==> FindKey(entries, "type").Some?)
  {
    assert entries[..0] == [];
    TagsMeaning(entries, 0, map[]);
    assert entries[..|entries|] == entries;
  }

  /** The entry of the `events` list: a map, read as a rule. */
  function EntryOutcome(v: Value, st: ManifestState, existing: set<string>, lookup: TransformerLookup): (RuleOutcome, ManifestState) {
    match AsMap(v)
    case Err(e) => (Escaped(e), st)
    case Ok(m) => RuleOf(m, st, existing, lookup)
  }

  function RulesAfter(rules: seq<Rule>, o: RuleOutcome): seq<Rule> {
    if o.Loaded? then rules + [o.rule] else rules
  }

  /** The diagnostics after one entry: a failure, an error under the rule id, or one more loaded rule. */
  function Record(s: Summary, o: RuleOutcome): Summary {
    match o
    case Escaped(_) => WithFailed(s)
    case Rejected(id, e) => WithError(s, id, e)
    case Loaded(_) => WithLoaded(s)
  }

  /** An entry `parseRule` cannot attribute to a rule: not a map, or without a string `id`. */
  predicate Escapes(v: Value) {
    !(v.Map? && FindKey(v.entries, "id").Some? && FindKey(v.entries, "id").value.Str?)
  }

  /** The number of entries from index `i` on that escape `parseRule`. */
  function EscapeCount(events: seq<Value>, i: nat): nat
    requires i <= |events|
    decreases |events| - i
  {
    if i == |events| then 0 else (if Escapes(events[i]) then 1 else 0) + EscapeCount(events, i + 1)
  }

  /** `parse` over the `events` list: manifest, rules and diagnostics after each entry in turn. */
  function LoadFrom(events: seq<Value>, i: nat, st: ManifestState, rules: seq<Rule>, s: Summary,
                    lookup: TransformerLookup): (ManifestState, seq<Rule>, Summary)
    requires i <= |events|
    decreases |events| - i
  {
    if i == |events| then (st, rules, s)
    else
      var (o, st1) := EntryOutcome(events[i], st, RuleIds(rules), lookup);
      LoadFrom(events, i + 1, st1, RulesAfter(rules, o), Record(s, o), lookup)
  }

  /**
   * Loading only appends rules, never two with the same id (so the first
   * definition of an id is the one kept), counts each appended rule once as
   * loaded, and keeps the manifest's existing addresses.
   */
  lemma {:induction false} LoadFromMeaning(events: seq<Value>, i: nat, st: ManifestState, rules: seq<Rule>,
                                           s: Summary, lookup: TransformerLookup)
    requires i <= |events| && UniqueIds(rules)
    ensures var (st1, rules1, s1) := LoadFrom(events, i, st, rules, s, lookup);
            && rules <= rules1 && UniqueIds(rules1)
            && s1.loaded == s.loaded + |rules1| - |rules|
            && s1.failed == s.failed + EscapeCount(events, i)
            && Keeps(st, st1)
    decreases |events| - i
  {
    if i < |events| {
      var (o, st1) := EntryOutcome(events[i], st, RuleIds(rules), lookup);
      var rules' := RulesAfter(rules, o);
      if events[i].Map? {
        RuleOfLoaded(events[i].entries, st, RuleIds(rules), lookup);
        RuleKeeps(events[i].entries, st, RuleIds(rules), lookup);
        RuleOfEscapes(events[i].entries, st, RuleIds(rules), lookup);
      }
      assert Record(s, o).failed == s.failed + (if Escapes(events[i]) then 1 else 0);
      if o.Loaded? {
        forall k | 0 <= k < |rules| ensures rules'[k].id != o.rule.id {
          assert rules[k].id in RuleIds(rules);
        }
      }
      LoadFromMeaning(events, i + 1, st1, rules', Record(s, o), lookup);
    }
  }

  /** Reading a rule keeps every address the manifest held. */
  lemma RuleKeeps(m: seq<Entry>, st: ManifestState, existing: set<string>, lookup: TransformerLookup)
    ensures Keeps(st, RuleOf(m, st, existing, lookup).1)
  {
    var id := At(m, "id", AsString);
    if id.Ok? && id.value !in existing {
      RuleBodyKeeps(m, id.value, st, lookup);
    }
  }

  lemma RuleBodyKeeps(m: seq<Entry>, id: string, st: ManifestState, lookup: TransformerLookup)
    ensures Keeps(st, RuleBodyOf(m, id, st, lookup).1)
  {
    var items := AtOr(m, "transformers", AsVector, []);
    var condItems := At(m, "conditions", AsVector);
    if items.Ok? && condItems.Ok? {
      var transformers := TransformersFrom(items.value, 0, [], lookup);
      if transformers.Ok? {
        ConditionsKeep(condItems.value, 0, [], st, transformers.value);
      }
    }
  }

  /** Reading a condition list keeps every address the manifest held. */
  lemma {:induction false} ConditionsKeep(items: seq<Value>, i: nat, acc: seq<Condition>, st: ManifestState,
                                          transformers: seq<TransformerId>)
    requires i <= |items|
    ensures Keeps(st, ConditionsFrom(items, i, acc, st, transformers).1)
    decreases |items| - i
  {
    if i < |items| && items[i].Map? {
      var (r, st1) := ConditionOf(items[i].entries, st, transformers);
      ConditionOfMeaning(items[i].entries, st, transformers);
      if r.Ok? {
        ConditionsKeep(items, i + 1, acc + [r.value], st1, transformers);
      }
    }
  }

  /** The transformer list of a rule: every item must name a known transformer. */
  method ParseTransformers(items: seq<Value>, lookup: TransformerLookup) returns (r: Result<seq<TransformerId>, LoadError>)
    ensures r == TransformersFrom(items, 0, [], lookup)
  {
    var ids: seq<TransformerId> := [];
    var i := 0;
    while i < |items|
      invariant 0 <= i <= |items|
      invariant TransformersFrom(items, 0, [], lookup) == TransformersFrom(items, i, ids, lookup)
    {
      if !items[i].Str? {
        return Err(BadCast);
      }
      var id := lookup(items[i].s);
      if id.None? {
        return Err(Parsing("invalid transformer" + items[i].s));
      }
      ids := ids + [id.value];
      i := i + 1;
    }
    return Ok(ids);
  }

  /** The conditions of a rule, in order, each registering its inputs in the manifest. */
  method ParseConditions(items: seq<Value>, manifest: Manifest, transformers: seq<TransformerId>)
    returns (r: Result<seq<Condition>, LoadError>)
    requires manifest.Valid()
    modifies manifest
    ensures manifest.Valid()
    ensures (r, manifest.state) == ConditionsFrom(items, 0, [], old(manifest.state), transformers)
  {
    ghost var st0 := manifest.state;
    var conditions: seq<Condition> := [];
    var i := 0;
    while i < |items|
      invariant 0 <= i <= |items| && manifest.Valid()
      invariant ConditionsFrom(items, 0, [], st0, transformers)
                == ConditionsFrom(items, i, conditions, manifest.state, transformers)
    {
      if !items[i].Map? {
        return Err(BadCast);
      }
      var c := ParseCondition(items[i].entries, manifest, transformers);
      if c.Err? {
        return Err(c.error);
      }
      conditions := conditions + [c.value];
      i := i + 1;
    }
    return Ok(conditions);
  }

  /** The tag map of a rule; a tag whose value is not a string is rejected under its key. */
  method ParseTags(entries: seq<Entry>) returns (r: Result<map<string, string>, LoadError>)
    ensures r == TagsFrom(entries, 0, map[])
  {
    var tags: map<string, string> := map[];
    var i := 0;
    while i < |entries|
      invariant 0 <= i <= |entries|
      invariant TagsFrom(entries, 0, map[]) == TagsFrom(entries, i, tags)
    {
      var e := entries[i];
      if e.key !in tags {
        if !e.value.Str? {
          return Err(InvalidType(e.key));
        }
        tags := tags[e.key := e.value.s];
      }
      i := i + 1;
    }
    return Ok(tags);
  }

  /** Reads the tags, checks the `type` tag and reads the name. */
  method BuildRule(m: seq<Entry>, id: string, conditions: seq<Condition>) returns (r: Result<Rule, LoadError>)
    ensures r == RuleFrom(m, id, conditions)
  {
    var tagEntries := At(m, "tags", AsMap);
    if tagEntries.Err? {
      return Err(tagEntries.error);
    }
    var tags := ParseTags(tagEntries.value);
    if tags.Err? {
      return Err(tags.error);
    }
    if "type" !in tags.value {
      return Err(MissingType);
    }
    var name := At(m, "name", AsString);
    if name.Err? {
      return Err(name.error);
    }
    return Ok(Rule(id, name.value, tags.value, conditions, []));
  }

  /** The body of `parseRule`: transformers, conditions (registering inputs), then tags and name. */
  method ParseRuleBody(m: seq<Entry>, id: string, manifest: Manifest, lookup: TransformerLookup)
    returns (r: Result<Rule, LoadError>)
    requires manifest.Valid()
    modifies manifest
    ensures manifest.Valid()
    ensures (r, manifest.state) == RuleBodyOf(m, id, old(manifest.state), lookup)
  {
    var items := AtOr(m, "transformers", AsVector, []);
    if items.Err? {
      return Err(items.error);
    }
    var transformers := ParseTransformers(items.value, lookup);
    if transformers.Err? {
      return Err(transformers.error);
    }
    var condItems := At(m, "conditions", AsVector);
    if condItems.Err? {
      return Err(condItems.error);
    }
    var conditions := ParseConditions(condItems.value, manifest, transformers.value);
    if conditions.Err? {
      return Err(conditions.error);
    }
    r := BuildRule(m, id, conditions.value);
  }

  /** The rest of `parseRule` once the id is known to be new: the rule is added, or its error recorded. */
  method AddRule(m: seq<Entry>, id: string, info: RulesetInfo, rs: Ruleset, lookup: TransformerLookup)
    requires rs.Valid() && rs.manifest.Valid() && id !in RuleIds(rs.rules)
    modifies rs.manifest, rs`rules, info.info
    ensures rs.Valid() && rs.manifest.Valid()
    ensures var (r, st) := RuleBodyOf(m, id, old(rs.manifest.state), lookup);
            && rs.manifest.state == st
            && rs.rules == (if r.Ok? then old(rs.rules) + [r.value] else old(rs.rules))
            && (info.info != null && r.Ok? ==> info.info.Snapshot() == WithLoaded(old(info.info.Snapshot())))
            && (info.info != null && r.Err? ==> info.info.Snapshot() == WithError(old(info.info.Snapshot()), id, r.error))
  {
    var body := ParseRuleBody(m, id, rs.manifest, lookup);
    if body.Err? {
      info.InsertError(id, body.error);
      return;
    }
    rs.InsertRule(body.value);
    info.AddLoaded();
  }

  /**
   * `parseRule`: inserts the rule and counts it as loaded, or records the
   * error under the rule's id; an entry without a usable id is reported to
   * the caller instead.
   */
  method ParseRule(m: seq<Entry>, info: RulesetInfo, rs: Ruleset, lookup: TransformerLookup)
    returns (escaped: Option<LoadError>)
    requires rs.Valid() && rs.manifest.Valid()
    modifies rs.manifest, rs`rules, info.info
    ensures rs.Valid() && rs.manifest.Valid()
    ensures var (o, st) := RuleOf(m, old(rs.manifest.state), RuleIds(old(rs.rules)), lookup);
            && rs.manifest.state == st
            && rs.rules == RulesAfter(old(rs.rules), o)
            && (escaped.Some? <==> o.Escaped?)
            && (escaped.Some? ==> escaped.value == o.error)
            && (info.info != null && !o.Escaped? ==> info.info.Snapshot() == Record(old(info.info.Snapshot()), o))
            && (info.info != null && o.Escaped? ==> info.info.Snapshot() == old(info.info.Snapshot()))
  {
    ghost var st0, ids0 := rs.manifest.state, RuleIds(rs.rules);
    var id := At(m, "id", AsString);
    if id.Err? {
      return Some(id.error);
    }
    if rs.HasRule(id.value) {
      assert RuleOf(m, st0, ids0, lookup) == (Rejected(id.value, DuplicateRule), st0);
      info.InsertError(id.value, DuplicateRule);
      return None;
    }
    ghost var body := RuleBodyOf(m, id.value, st0, lookup).0;
    assert RuleOf(m, st0, ids0, lookup).0 == if body.Ok? then Loaded(body.value) else Rejected(id.value, body.error);
    AddRule(m, id.value, info, rs, lookup);
    return None;
  }

  /** What `parse` leaves behind: the `events` list loaded in order, failing when no rule is left. */
  ghost function ParseSpec(m: seq<Entry>, st: ManifestState, rules: seq<Rule>, s: Summary, lookup: TransformerLookup)
    : (Result<(), LoadError>, ManifestState, seq<Rule>, Summary)
  {
    match At(m, "events", AsVector)
    case Err(e) => (Err(e), st, rules, s)
    case Ok(events) =>
      var (st1, rules1, s1) := LoadFrom(events, 0, st, rules, s, lookup);
      (if rules1 == [] then Err(NoValidRules) else Ok(()), st1, rules1, s1)
  }

  /**
   * Loading fails exactly when the rule file has no `events` list or no rule
   * is left afterwards; the rules present before are kept, loaded rules have
   * distinct ids and each is counted once.
   */
  lemma ParseSpecMeaning(m: seq<Entry>, st: ManifestState, rules: seq<Rule>, s: Summary, lookup: TransformerLookup)
    requires UniqueIds(rules)
    ensures var (r, st1, rules1, s1) := ParseSpec(m, st, rules, s, lookup);
            && (r.Err? <==> At(m, "events", AsVector).Err? || rules1 == [])
            && (r.Ok? ==> rules1 != [])
            && rules <= rules1 && UniqueIds(rules1)
            && s1.loaded == s.loaded + |rules1| - |rules|
            && s1.failed == s.failed + (if At(m, "events", AsVector).Ok?
                                        then EscapeCount(At(m, "events", AsVector).value, 0) else 0)
            && Keeps(st, st1)
  {
    if At(m, "events", AsVector).Ok? {
      LoadFromMeaning(At(m, "events", AsVector).value, 0, st, rules, s, lookup);
    }
  }

  /** One entry of the `events` list: a map is read as a rule; anything else only counts as failed. */
  method LoadEntry(v: Value, info: RulesetInfo, rs: Ruleset, lookup: TransformerLookup)
    requires rs.Valid() && rs.manifest.Valid()
    modifies rs.manifest, rs`rules, info.info
    ensures rs.Valid() && rs.manifest.Valid()
    ensures var (o, st) := EntryOutcome(v, old(rs.manifest.state), RuleIds(old(rs.rules)), lookup);
            && rs.manifest.state == st
            && rs.rules == RulesAfter(old(rs.rules), o)
            && (info.info != null ==> info.info.Snapshot() == Record(old(info.info.Snapshot()), o))
  {
    if !v.Map? {
      info.AddFailed();
    } else {
      var escaped := ParseRule(v.entries, info, rs, lookup);
      if escaped.Some? {
        info.AddFailed();
      }
    }
  }

  /** Loading from entry `i` is loading entry `i`, then the rest. */
  lemma LoadFromStep(events: seq<Value>, i: nat, st: ManifestState, rules: seq<Rule>, s: Summary, lookup: TransformerLookup)
    requires i < |events|
    ensures var (o, st1) := EntryOutcome(events[i], st, RuleIds(rules), lookup);
            LoadFrom(events, i, st, rules, s, lookup) == LoadFrom(events, i + 1, st1, RulesAfter(rules, o), Record(s, o), lookup)
  {
  }

  /** `parse`: loads every entry of the `events` list into the ruleset; a bad entry does not stop the load. */
  method Parse(m: seq<Entry>, info: RulesetInfo, rs: Ruleset, lookup: TransformerLookup) returns (r: Result<(), LoadError>)
    requires rs.Valid() && rs.manifest.Valid()
    modifies rs.manifest, rs`rules, info.info
    ensures rs.Valid() && rs.manifest.Valid()
    ensures var s0 := if info.info != null then old(info.info.Snapshot()) else EmptySummary;
            var (r', st, rules, s) := ParseSpec(m, old(rs.manifest.state), old(rs.rules), s0, lookup);
            && r == r' && rs.manifest.state == st && rs.rules == rules
            && (info.info != null ==> info.info.Snapshot() == s)
  {
    ghost var s0 := if info.info != null then info.info.Snapshot() else EmptySummary;
    var events := At(m, "events", AsVector);
    if events.Err? {
      return Err(events.error);
    }
    var items := events.value;
    ghost var st0 := rs.manifest.state;
    ghost var rules0 := rs.rules;
    ghost var s := s0;
    var i := 0;
    while i < |items|
      invariant 0 <= i <= |items|
      invariant rs.Valid() && rs.manifest.Valid()
      invariant info.info != null ==> info.info.Snapshot() == s
      invariant LoadFrom(items, 0, st0, rules0, s0, lookup) == LoadFrom(items, i, rs.manifest.state, rs.rules, s, lookup)
    {
      ghost var (o, st1) := EntryOutcome(items[i], rs.manifest.state, RuleIds(rs.rules), lookup);
      LoadFromStep(items, i, rs.manifest.state, rs.rules, s, lookup);
      LoadEntry(items[i], info, rs, lookup);
      s := Record(s, o);
      i := i + 1;
    }
    if rs.rules == [] {
      return Err(NoValidRules);
    }
    return Ok(());
  }
}
