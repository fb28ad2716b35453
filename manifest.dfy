/**
 * The manifest: the table from root address strings (such as
 * "http.client_ip") to the small integer target ids that conditions and the
 * object store use instead of the strings.
 */
module Manifests {
  import opened Wrappers

  type TargetId = nat

  /** The abstract content of a manifest: the table and the next unused id. */
  datatype ManifestState = ManifestState(targets: map<string, TargetId>, next: TargetId)

  const EmptyManifest := ManifestState(map[], 0)

  /** Every id is below `next`, and no two addresses share an id. */
  ghost predicate Wf(st: ManifestState) {
    && (forall a :: a in st.targets ==> st.targets[a] < st.next)
    && (forall a, b :: a in st.targets && b in st.targets && a != b ==> st.targets[a] != st.targets[b])
  }

  /** `insert`: a known address keeps its id, a new one gets the next id. */
  function InsertAddress(st: ManifestState, address: string): (r: (ManifestState, TargetId))
    ensures address in r.0.targets && r.0.targets[address] == r.1
    ensures address in st.targets ==> r.0 == st
    ensures address !in st.targets ==> r.0.targets == st.targets[address := r.1]
    ensures Wf(st) && address !in st.targets ==> r.1 !in st.targets.Values
    ensures Wf(st) ==> Wf(r.0)
  {
    if address in st.targets then (st, st.targets[address])
    else (ManifestState(st.targets[address := st.next], st.next + 1), st.next)
  }

  /** `find`: the id of a registered address. */
  function FindAddress(st: ManifestState, address: string): Option<TargetId> {
    if address in st.targets then Some(st.targets[address]) else None
  }

  /** `remove_unused`: keeps exactly the addresses whose ids are live. */
  function RemoveUnusedTargets(st: ManifestState, live: set<TargetId>): (r: ManifestState)
    ensures r.targets.Keys <= st.targets.Keys
    ensures Wf(st) ==> Wf(r)
  {
    ManifestState(map a | a in st.targets && st.targets[a] in live :: st.targets[a], st.next)
  }

  lemma FindInEmpty(address: string)
    ensures FindAddress(EmptyManifest, address) == None
  {
  }

  lemma FindAfterInsert(st: ManifestState, address: string)
    ensures FindAddress(InsertAddress(st, address).0, address) == Some(InsertAddress(st, address).1)
  {
  }

  /** Inserting an address a second time changes nothing and returns the same id. */
  lemma InsertIdempotent(st: ManifestState, address: string)
    ensures var (st1, id1) := InsertAddress(st, address);
            InsertAddress(st1, address) == (st1, id1)
  {
  }

  /** Inserting one address leaves the ids of all the others unchanged. */
  lemma InsertKeepsOthers(st: ManifestState, address: string, other: string)
    requires other != address
    ensures FindAddress(InsertAddress(st, address).0, other) == FindAddress(st, other)
  {
  }

  /** After `remove_unused(live)` an address is found exactly when it was found with a live id. */
  lemma FindAfterRemoveUnused(st: ManifestState, live: set<TargetId>, address: string)
    ensures var r := FindAddress(RemoveUnusedTargets(st, live), address);
            r == (if address in st.targets && st.targets[address] in live then FindAddress(st, address) else None)
  {
  }

  /** When every id is live, `remove_unused` removes nothing. */
  lemma RemoveUnusedAllLive(st: ManifestState, live: set<TargetId>)
    requires st.targets.Values <= live
    ensures RemoveUnusedTargets(st, live) == st
  {
    var r := RemoveUnusedTargets(st, live);
    forall a | a in st.targets ensures a in r.targets {
      assert st.targets[a] in st.targets.Values;
    }
  }

  /** `remove_unused({})` empties the table. */
  lemma RemoveUnusedNothingLive(st: ManifestState)
    ensures RemoveUnusedTargets(st, {}).targets == map[]
  {
  }

  /** `s` lists every element of `keys` exactly once. */
  ghost predicate IsListing(s: seq<string>, keys: set<string>) {
    && (forall i, j :: 0 <= i < j < |s| ==> s[i] != s[j])
    && (forall x :: x in s <==> x in keys)
  }

  /** A listing has one element per key. */
  lemma {:induction false} ListingLength(s: seq<string>, keys: set<string>)
    requires IsListing(s, keys)
    ensures |s| == |keys|
  {
    if s != [] {
      var rest := keys - {s[0]};
      forall x ensures x in s[1..] <==> x in rest {
        if x in s[1..] {
          var k :| 1 <= k < |s| && s[k] == x;
          assert s[0] != s[k];
        }
      }
      ListingLength(s[1..], rest);
    }
  }

  class Manifest {
    var state: ManifestState
    /** The memoised result of `get_root_addresses`, dropped by every change. */
    var rootCache: Option<seq<string>>

    ghost predicate Valid()
      reads this
    {
      Wf(state) && (rootCache.Some? ==> IsListing(rootCache.value, state.targets.Keys))
    }

    constructor ()
      ensures Valid() && state == EmptyManifest && rootCache == None
    {
      state := EmptyManifest;
      rootCache := None;
    }

    method Insert(address: string) returns (id: TargetId)
      requires Valid()
      modifies this
      ensures Valid()
      ensures (state, id) == InsertAddress(old(state), address)
      ensures address in old(state.targets) ==> rootCache == old(rootCache)
    {
      if address in state.targets {
        id := state.targets[address];
      } else {
        id := state.next;
        state := ManifestState(state.targets[address := id], state.next + 1);
        rootCache := None;
      }
    }

    function Find(address: string): Option<TargetId>
      reads this
    {
      FindAddress(state, address)
    }

    method RemoveUnused(live: set<TargetId>)
      requires Valid()
      modifies this
      ensures Valid()
      ensures state == RemoveUnusedTargets(old(state), live) && rootCache == None
    {
      state := RemoveUnusedTargets(state, live);
      rootCache := None;
    }

    /** Lists the registered addresses once; later calls reuse the list until the next change. */
    method GetRootAddresses() returns (addresses: seq<string>)
      requires Valid()
      modifies this`rootCache
      ensures Valid()
      ensures IsListing(addresses, state.targets.Keys) && |addresses| == |state.targets|
      ensures rootCache == Some(addresses)
      ensures old(rootCache).Some? ==> addresses == old(rootCache).value
    {
      if rootCache.Some? {
        addresses := rootCache.value;
      } else {
        var remaining := state.targets.Keys;
        addresses := [];
        while remaining != {}
          invariant remaining <= state.targets.Keys
          invariant IsListing(addresses, state.targets.Keys - remaining)
          decreases remaining
        {
          var a :| a in remaining;
          addresses := addresses + [a];
          remaining := remaining - {a};
        }
        rootCache := Some(addresses);
      }
      ListingLength(addresses, state.targets.Keys);
    }
  }
}
