/**
 * The per-context object store: the latest value submitted for each root
 * address the manifest knows, keyed by target id, and the ids written by the
 * latest batch.
 */
module ObjectStores {
  import opened Wrappers
  import opened Values
  import opened Manifests

  /** What conditions see of a store: the objects and the ids of the latest batch. */
  datatype StoreView = StoreView(objects: map<TargetId, Value>, latest: set<TargetId>)

  /** The id that the top-level key of `e` resolves to, if the manifest knows it. */
  function EntryTarget(m: ManifestState, e: Entry): Option<TargetId> {
    FindAddress(m, e.key)
  }

  /** The objects after storing `entries` in order: known keys overwrite, unknown keys are ignored. */
  function StoreEntries(objects: map<TargetId, Value>, m: ManifestState, entries: seq<Entry>): map<TargetId, Value>
    decreases |entries|
  {
    if entries == [] then objects
    else
      var before := StoreEntries(objects, m, entries[..|entries| - 1]);
      var last := entries[|entries| - 1];
      match EntryTarget(m, last)
      case None => before
      case Some(id) => before[id := last.value]
  }

  /** The ids written by a batch of entries. */
  function BatchTargets(m: ManifestState, entries: seq<Entry>): set<TargetId> {
    set k | 0 <= k < |entries| && EntryTarget(m, entries[k]).Some? :: EntryTarget(m, entries[k]).value
  }

  /** A batch adds exactly the ids its known keys resolve to; nothing is dropped. */
  lemma {:induction false} StoreEntriesKeys(objects: map<TargetId, Value>, m: ManifestState, entries: seq<Entry>)
    ensures StoreEntries(objects, m, entries).Keys == objects.Keys + BatchTargets(m, entries)
    decreases |entries|
  {
    if entries != [] {
      var init := entries[..|entries| - 1];
      StoreEntriesKeys(objects, m, init);
      var last := entries[|entries| - 1];
      forall id ensures id in BatchTargets(m, entries) <==> id in BatchTargets(m, init) || EntryTarget(m, last) == Some(id) {
        if id in BatchTargets(m, entries) {
          var k :| 0 <= k < |entries| && EntryTarget(m, entries[k]) == Some(id);
          if k < |init| {
            assert init[k] == entries[k];
          }
        }
        if id in BatchTargets(m, init) {
          var k :| 0 <= k < |init| && EntryTarget(m, init[k]) == Some(id);
          assert entries[k] == init[k];
        }
      }
    }
  }

  /** An id that no key of the batch resolves to keeps its previous value (or absence). */
  lemma {:induction false} StoreEntriesFrame(objects: map<TargetId, Value>, m: ManifestState, entries: seq<Entry>, id: TargetId)
    requires forall k :: 0 <= k < |entries| ==> EntryTarget(m, entries[k]) != Some(id)
    ensures id in StoreEntries(objects, m, entries) <==> id in objects
    ensures id in objects ==> StoreEntries(objects, m, entries)[id] == objects[id]
    decreases |entries|
  {
    if entries != [] {
      var init := entries[..|entries| - 1];
      assert forall k :: 0 <= k < |init| ==> init[k] == entries[k];
      StoreEntriesFrame(objects, m, init, id);
    }
  }

  /** Re-submitting an address overwrites: the stored value is that of the last entry for the id. */
  lemma {:induction false} StoreEntriesLastWins(objects: map<TargetId, Value>, m: ManifestState, entries: seq<Entry>, k: nat, id: TargetId)
    requires k < |entries| && EntryTarget(m, entries[k]) == Some(id)
    requires forall j :: k < j < |entries| ==> EntryTarget(m, entries[j]) != Some(id)
    ensures id in StoreEntries(objects, m, entries)
    ensures StoreEntries(objects, m, entries)[id] == entries[k].value
    decreases |entries|
  {
    var init := entries[..|entries| - 1];
    if k < |entries| - 1 {
      assert forall j :: k < j < |init| ==> init[j] == entries[j];
      StoreEntriesLastWins(objects, m, init, k, id);
    }
  }

  class ObjectStore {
    /** The manifest of the ruleset, shared with the context that owns this store. */
    const manifest: Manifest
    var objects: map<TargetId, Value>
    var latest: set<TargetId>

    constructor (manifest: Manifest)
      ensures this.manifest == manifest && objects == map[] && latest == {}
    {
      this.manifest := manifest;
      objects := map[];
      latest := {};
    }

    function View(): StoreView
      reads this
    {
      StoreView(objects, latest)
    }

    /**
     * Stores every top-level entry of a map whose key the manifest knows; a
     * root that is not a map, or an empty map, is refused and changes nothing.
     */
    method Insert(root: Value) returns (ok: bool)
      modifies this
      ensures ok <==> root.Map? && |root.entries| > 0
      ensures ok ==> (objects == StoreEntries(old(objects), manifest.state, root.entries)
                      && latest == BatchTargets(manifest.state, root.entries))
      ensures !ok ==> objects == old(objects) && latest == old(latest)
    {
      if !root.Map? || |root.entries| == 0 {
        return false;
      }
      var i := 0;
      var batch: set<TargetId> := {};
      ghost var start := objects;
      while i < |root.entries|
        invariant 0 <= i <= |root.entries|
        invariant objects == StoreEntries(start, manifest.state, root.entries[..i])
        invariant batch == BatchTargets(manifest.state, root.entries[..i])
      {
        var e := root.entries[i];
        assert root.entries[..i + 1][..i] == root.entries[..i];
        ghost var prefix := root.entries[..i + 1];
        match EntryTarget(manifest.state, e) {
          case None =>
          case Some(id) =>
            objects := objects[id := e.value];
            batch := batch + {id};
        }
        assert forall t :: t in BatchTargets(manifest.state, prefix) <==>
          t in BatchTargets(manifest.state, root.entries[..i]) || EntryTarget(manifest.state, e) == Some(t)
        by {
          forall t ensures t in BatchTargets(manifest.state, prefix) <==>
            t in BatchTargets(manifest.state, root.entries[..i]) || EntryTarget(manifest.state, e) == Some(t)
          {
            if t in BatchTargets(manifest.state, prefix) {
              var k :| 0 <= k < |prefix| && EntryTarget(manifest.state, prefix[k]) == Some(t);
              if k < i {
                assert root.entries[..i][k] == prefix[k];
              }
            }
            if t in BatchTargets(manifest.state, root.entries[..i]) {
              var k :| 0 <= k < i && EntryTarget(manifest.state, root.entries[..i][k]) == Some(t);
              assert prefix[k] == root.entries[..i][k];
            }
            if EntryTarget(manifest.state, e) == Some(t) {
              assert prefix[i] == e;
            }
          }
        }
        i := i + 1;
      }
      assert root.entries[..i] == root.entries;
      latest := batch;
      return true;
    }

    function Get(id: TargetId): Option<Value>
      reads this
    {
      if id in objects then Some(objects[id]) else None
    }

    function IsNew(id: TargetId): bool
      reads this
    {
      id in latest
    }
  }
}
