/**
 singbox_rules.go and rule_sets_service.go: publishing watched files together
 with the settings they were computed from, and taking everything back when any
 step fails. Replacing one file is atomic; every step may fail.
 */
module RuleSetPublish {
  import opened Options
  import opened Sorting

  type Store = map<string, string>

  datatype RuleSetFile = RuleSetFile(path: string, data: string)
  datatype Snapshot = Snapshot(path: string, existing: Option<string>)

  function Lookup(store: Store, path: string): Option<string> {
    if path in store then Some(store[path]) else None
  }

  // The store after replacing the files one by one.
  function Overwritten(store: Store, files: seq<RuleSetFile>): Store {
    if files == [] then store
    else Overwritten(store, files[..|files| - 1])[files[|files| - 1].path := files[|files| - 1].data]
  }

  function Taken(store: Store, files: seq<RuleSetFile>): seq<Snapshot> {
    Map((f: RuleSetFile) => Snapshot(f.path, Lookup(store, f.path)), files)
  }

  function Undo(store: Store, s: Snapshot): Store {
    if s.existing.Some? then store[s.path := s.existing.value] else store - {s.path}
  }

  // The store after restoring the snapshots from the last to the first.
  function RolledBack(store: Store, snapshots: seq<Snapshot>): Store
    decreases |snapshots|
  {
    if snapshots == [] then store
    else RolledBack(Undo(store, snapshots[|snapshots| - 1]), snapshots[..|snapshots| - 1])
  }

  // Restoring what was taken recovers the store, whatever the published files
  // were and even when one path was published twice.
  lemma {:induction false} RollBackRestores(original: Store, store: Store, snapshots: seq<Snapshot>)
    requires forall s | s in snapshots :: s.existing == Lookup(original, s.path)
    requires forall p | (forall s | s in snapshots :: s.path != p) :: Lookup(store, p) == Lookup(original, p)
    ensures RolledBack(store, snapshots) == original
    decreases |snapshots|
  {
    if snapshots == [] {
      assert forall p :: Lookup(store, p) == Lookup(original, p);
      forall p
        ensures p in store <==> p in original
        ensures p in store ==> store[p] == original[p]
      {
        assert Lookup(store, p) == Lookup(original, p);
      }
    } else {
      var n := |snapshots| - 1;
      var last := snapshots[n];
      var undone := Undo(store, last);
      assert forall s | s in snapshots :: s in snapshots[..n] || s == last;
      forall p | forall s | s in snapshots[..n] :: s.path != p
        ensures Lookup(undone, p) == Lookup(original, p)
      {
        if p != last.path {
          assert forall s | s in snapshots :: s.path != p;
          assert Lookup(undone, p) == Lookup(store, p);
        }
      }
      RollBackRestores(original, undone, snapshots[..n]);
    }
  }

  lemma {:induction false} OverwrittenOutside(store: Store, files: seq<RuleSetFile>, path: string)
    requires forall f | f in files :: f.path != path
    ensures Lookup(Overwritten(store, files), path) == Lookup(store, path)
  {
    if files != [] {
      OverwrittenOutside(store, files[..|files| - 1], path);
    }
  }

  // Rolling back after any prefix of the replacements undoes it.
  lemma PublishThenRollBack(store: Store, files: seq<RuleSetFile>, k: nat)
    requires k <= |files|
    ensures RolledBack(Overwritten(store, files[..k]), Taken(store, files)[..k]) == store
  {
    var snapshots := Taken(store, files)[..k];
    var now := Overwritten(store, files[..k]);
    forall p | forall s | s in snapshots :: s.path != p
      ensures Lookup(now, p) == Lookup(store, p)
    {
      forall f | f in files[..k]
        ensures f.path != p
      {
        var i :| 0 <= i < k && files[i] == f;
        assert snapshots[i] in snapshots;
      }
      OverwrittenOutside(store, files[..k], p);
    }
    RollBackRestores(store, now, snapshots);
  }

  // On success every path holds the data of the last file published there.
  lemma {:induction false} OverwrittenHolds(store: Store, files: seq<RuleSetFile>, i: nat)
    requires i < |files| && forall j | i < j < |files| :: files[j].path != files[i].path
    ensures Lookup(Overwritten(store, files), files[i].path) == Some(files[i].data)
  {
    if i < |files| - 1 {
      OverwrittenHolds(store, files[..|files| - 1], i);
    }
  }

  datatype Outcome = Published | Reverted | RollbackFailed

  class RuleSetDirectory {
    var files: Store
    var settings: string

    constructor (files: Store, settings: string)
      ensures this.files == files && this.settings == settings
    {
      this.files, this.settings := files, settings;
    }

    // replaceFileAtomically: a temporary file, then one rename.
    method Replace(path: string, data: string, faulty: bool) returns (ok: bool)
      modifies this`files
      ensures files == if ok then old(files)[path := data] else old(files)
      ensures !faulty ==> ok
    {
      ok := true;
      if faulty {
        ok := *;
      }
      if ok {
        files := files[path := data];
      }
    }

    method Remove(path: string, faulty: bool) returns (ok: bool)
      modifies this`files
      ensures files == if ok then old(files) - {path} else old(files)
      ensures !faulty ==> ok
    {
      ok := true;
      if faulty {
        ok := *;
      }
      if ok {
        files := files - {path};
      }
    }

    // rollbackSnapshots keeps going after a failure and reports it.
    method RollbackSnapshots(snapshots: seq<Snapshot>, faulty: bool) returns (ok: bool)
      modifies this`files
      ensures ok ==> files == RolledBack(old(files), snapshots)
      ensures !faulty ==> ok
    {
      ok := true;
      var index := |snapshots|;
      assert snapshots[..index] == snapshots;
      while index > 0
        invariant 0 <= index <= |snapshots|
        invariant ok ==> RolledBack(files, snapshots[..index]) == RolledBack(old(files), snapshots)
        invariant !faulty ==> ok
      {
        index := index - 1;
        var snapshot := snapshots[index];
        assert snapshots[..index + 1][..index] == snapshots[..index];
        var restored;
        if snapshot.existing.Some? {
          restored := Replace(snapshot.path, snapshot.existing.value, faulty);
        } else {
          restored := Remove(snapshot.path, faulty);
        }
        ok := ok && restored;
      }
    }

    // publishRuleSetFiles: all of the files, or none of them.
    method PublishRuleSetFiles(toWrite: seq<RuleSetFile>, faulty: bool, faultyRollback: bool)
      returns (outcome: Outcome, snapshots: seq<Snapshot>)
      modifies this`files
      ensures outcome == Published ==>
              files == Overwritten(old(files), toWrite) && snapshots == Taken(old(files), toWrite)
      ensures outcome == Reverted ==> files == old(files)
      ensures !faulty ==> outcome == Published
      ensures !faultyRollback ==> outcome != RollbackFailed
    {
      snapshots := [];
      for i := 0 to |toWrite|
        invariant snapshots == Taken(files, toWrite[..i])
      {
        if faulty {
          var unreadable: bool := *;
          if unreadable {
            return Reverted, [];
          }
        }
        snapshots := snapshots + [Snapshot(toWrite[i].path, Lookup(files, toWrite[i].path))];
        assert toWrite[..i + 1] == toWrite[..i] + [toWrite[i]];
      }
      assert toWrite[..|toWrite|] == toWrite;
      for i := 0 to |toWrite|
        invariant files == Overwritten(old(files), toWrite[..i])
      {
        var ok := Replace(toWrite[i].path, toWrite[i].data, faulty);
        if !ok {
          var restored := RollbackSnapshots(snapshots[..i], faultyRollback);
          PublishThenRollBack(old(files), toWrite, i);
          return if restored then Reverted else RollbackFailed, [];
        }
        assert toWrite[..i + 1][..i] == toWrite[..i];
      }
      outcome := Published;
    }

    method Commit(next: string, faulty: bool) returns (ok: bool)
      modifies this`settings
      ensures settings == if ok then next else old(settings)
      ensures !faulty ==> ok
    {
      ok := true;
      if faulty {
        ok := *;
      }
      if ok {
        settings := next;
      }
    }

    // refreshSingBoxRuleSetsAndCommitLocked; without a manifest there are no
    // watched files and only the settings are committed.
    method RefreshAndCommit(
      manifestExists: bool, watched: seq<RuleSetFile>, next: string, faulty: bool, faultyRollback: bool)
      returns (outcome: Outcome)
      modifies this
      ensures outcome == Published ==>
                settings == next && files == if manifestExists then Overwritten(old(files), watched) else old(files)
      ensures outcome != Published ==> settings == old(settings)
      ensures outcome == Reverted ==> files == old(files)
      ensures !faulty ==> outcome == Published
      ensures !faultyRollback ==> outcome != RollbackFailed
    {
      if !manifestExists {
        var ok := Commit(next, faulty);
        return if ok then Published else Reverted;
      }
      var snapshots;
      outcome, snapshots := PublishRuleSetFiles(watched, faulty, faultyRollback);
      if outcome != Published {
        return;
      }
      var ok := Commit(next, faulty);
      if !ok {
        var restored := RollbackSnapshots(snapshots, faultyRollback);
        PublishThenRollBack(old(files), watched, |watched|);
        assert watched[..|watched|] == watched && snapshots[..|snapshots|] == snapshots;
        outcome := if restored then Reverted else RollbackFailed;
      }
    }

    // RuleSetService.Update: the new subscription source, the watched files
    // recomposed from it and the settings form one transaction.
    method Update(
      source: Option<RuleSetFile>, manifestExists: bool, watched: seq<RuleSetFile>, next: string, faulty: bool,
      faultyRollback: bool)
      returns (outcome: Outcome)
      modifies this
      ensures outcome == Published ==>
                var fetched := Overwritten(old(files), if source.Some? then [source.value] else []);
                settings == next && files == if manifestExists then Overwritten(fetched, watched) else fetched
      ensures outcome != Published ==> settings == old(settings)
      ensures outcome == Reverted ==> files == old(files)
      ensures !faulty ==> outcome == Published
      ensures !faultyRollback ==> outcome != RollbackFailed
    {
      var sources := if source.Some? then [source.value] else [];
      var snapshots := [];
      if source.Some? {
        outcome, snapshots := PublishRuleSetFiles(sources, faulty, faultyRollback);
        if outcome != Published {
          return;
        }
      }
      outcome := RefreshAndCommit(manifestExists, watched, next, faulty, faultyRollback);
      if outcome != Published {
        var restored := RollbackSnapshots(snapshots, faultyRollback);
        PublishThenRollBack(old(files), sources, |sources|);
        assert sources[..|sources|] == sources && Taken(old(files), sources)[..|sources|] == Taken(old(files), sources);
        outcome := if restored && outcome == Reverted then Reverted else RollbackFailed;
      }
    }
  }
}
