/**
 * Load diagnostics: how many rules were loaded, how many failed, and the
 * ids of the rules rejected under each error. The caller may pass no
 * record at all, in which case every operation does nothing.
 */
module RulesetInfos {
  import opened Parameters

  /** The counters and error lists at one point in time. */
  datatype Summary = Summary(loaded: nat, failed: nat, errors: map<LoadError, seq<string>>)

  const EmptySummary := Summary(0, 0, map[])

  function WithFailed(s: Summary): (r: Summary)
    ensures r.failed == s.failed + 1 && r.loaded == s.loaded && r.errors == s.errors
  {
    s.(failed := s.failed + 1)
  }

  function WithLoaded(s: Summary): (r: Summary)
    ensures r.loaded == s.loaded + 1 && r.failed == s.failed && r.errors == s.errors
  {
    s.(loaded := s.loaded + 1)
  }

  /** The rule id appended to the list kept under its error. */
  function WithError(s: Summary, ruleId: string, error: LoadError): (r: Summary)
    ensures r.loaded == s.loaded && r.failed == s.failed
    ensures error in r.errors && r.errors[error] == (if error in s.errors then s.errors[error] else []) + [ruleId]
    ensures forall e :: e != error ==> (e in r.errors <==> e in s.errors)
    ensures forall e :: e in s.errors && e != error ==> r.errors[e] == s.errors[e]
  {
    var previous := if error in s.errors then s.errors[error] else [];
    s.(errors := s.errors[error := previous + [ruleId]])
  }

  /** The caller-owned record the diagnostics are written into. */
  class InfoRecord {
    var loaded: nat
    var failed: nat
    var errors: map<LoadError, seq<string>>

    constructor (loaded: nat, failed: nat)
      ensures this.loaded == loaded && this.failed == failed && errors == map[]
    {
      this.loaded := loaded;
      this.failed := failed;
      errors := map[];
    }

    function Snapshot(): Summary
      reads this
    {
      Summary(loaded, failed, errors)
    }
  }

  class RulesetInfo {
    const info: InfoRecord?

    /** Resets a present record to zero counters and no errors. */
    constructor (info: InfoRecord?)
      modifies info
      ensures this.info == info
      ensures info != null ==> info.Snapshot() == EmptySummary
    {
      this.info := info;
      new;
      if info != null {
        info.loaded := 0;
        info.failed := 0;
        info.errors := map[];
      }
    }

    /** `add_failed`: one more failed entry. */
    method AddFailed()
      modifies info
      ensures info != null ==> info.Snapshot() == WithFailed(old(info.Snapshot()))
    {
      if info != null {
        info.failed := info.failed + 1;
      }
    }

    /** `add_loaded`: one more loaded rule. */
    method AddLoaded()
      modifies info
      ensures info != null ==> info.Snapshot() == WithLoaded(old(info.Snapshot()))
    {
      if info != null {
        info.loaded := info.loaded + 1;
      }
    }

    /** `insert_error`: files the rule id under its error. */
    method InsertError(ruleId: string, error: LoadError)
      modifies info
      ensures info != null ==> info.Snapshot() == WithError(old(info.Snapshot()), ruleId, error)
    {
      if info != null {
        var previous := if error in info.errors then info.errors[error] else [];
        info.errors := info.errors[error := previous + [ruleId]];
      }
    }
  }
}
