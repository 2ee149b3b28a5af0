/**
 setup/transaction.go: the installer's durable journal. A crash or a platform
 failure can strike before, inside or after any primitive step, in the middle of
 a copy included; what survives is the file map and the journal.

 Target names are cleaned, case-folded paths. Journal, backups and staged
 payloads live under the transaction root, apart from every target.
 */
module SetupTransaction {
  import opened Options

  type Content = string

  datatype Path = Target(name: string) | Backup(index: nat) | Staged(index: nat) | Payload(name: string)

  type Disk = map<Path, Content>

  // SHA-256, taken as injective.
  datatype Digest = Digest(of: Content)

  datatype Item = Item(target: string, source: Option<string>)

  datatype Entry = Entry(target: string, existed: bool, oldHash: Digest, staged: bool, hash: Digest)

  datatype Phase = Prepared | Applying | RollingBack | Committed | RolledBack

  datatype Journal = Journal(phase: Phase, items: seq<Entry>)

  const MAX_ITEMS := 64

  predicate Finished(journal: Option<Journal>) {
    journal.None? || journal.value.phase in {Committed, RolledBack}
  }

  predicate IsCommitted(journal: Option<Journal>) {
    journal.Some? && journal.value.phase == Committed
  }

  function Lookup(files: Disk, p: Path): Option<Content> {
    if p in files then Some(files[p]) else None
  }

  // ---- comparing two disks ----

  ghost predicate SameAt(was: Disk, now: Disk, name: string) {
    Lookup(was, Target(name)) == Lookup(now, Target(name))
  }

  ghost predicate SameTargets(was: Disk, now: Disk) {
    forall name :: SameAt(was, now, name)
  }

  ghost predicate SamePayloads(was: Disk, now: Disk) {
    forall name :: Lookup(was, Payload(name)) == Lookup(now, Payload(name))
  }

  ghost predicate ChangedOnly(was: Disk, now: Disk, dst: Path) {
    forall p | p != dst :: Lookup(was, p) == Lookup(now, p)
  }

  ghost predicate IsItem(items: seq<Entry>, name: string) {
    exists i :: 0 <= i < |items| && items[i].target == name
  }

  ghost predicate SameElsewhere(was: Disk, now: Disk, items: seq<Entry>) {
    forall name | !IsItem(items, name) :: SameAt(was, now, name)
  }

  // ---- what a journal says about the disk ----

  // Every pre-existing target has an intact backup matching its recorded hash.
  ghost predicate BackupsIntact(files: Disk, before: Disk, items: seq<Entry>) {
    forall i | 0 <= i < |items| ::
      && items[i].existed == Lookup(before, Target(items[i].target)).Some?
      && (items[i].existed ==>
            && Lookup(files, Backup(i)) == Lookup(before, Target(items[i].target))
            && Lookup(before, Target(items[i].target)) == Some(items[i].oldHash.of))
  }

  ghost predicate StagedIntact(files: Disk, items: seq<Entry>) {
    forall i | 0 <= i < |items| && items[i].staged :: Lookup(files, Staged(i)) == Some(items[i].hash.of)
  }

  // Every staged target holds the staged content.
  ghost predicate Installed(files: Disk, items: seq<Entry>) {
    forall i | 0 <= i < |items| && items[i].staged :: Lookup(files, Target(items[i].target)) == Some(items[i].hash.of)
  }

  ghost predicate Loadable(items: seq<Entry>) {
    && 0 < |items| <= MAX_ITEMS
    && forall i, j | 0 <= i < j < |items| :: items[i].target != items[j].target
  }

  // What every reachable state satisfies; before is the disk of the Begin that
  // saved the journal.
  ghost predicate Sound(files: Disk, journal: Option<Journal>, before: Disk) {
    if journal.None? then SameTargets(before, files)
    else
      var items := journal.value.items;
      && Loadable(items)
      && SameElsewhere(before, files, items)
      && match journal.value.phase
         case Prepared => SameTargets(before, files) && BackupsIntact(files, before, items) &&
                          StagedIntact(files, items)
         case Applying => BackupsIntact(files, before, items)
         case RollingBack => BackupsIntact(files, before, items)
         case Committed => Installed(files, items)
         case RolledBack => SameTargets(before, files)
  }

  // The disk whose targets stand, or will once the transaction under way is
  // rolled back.
  function Settled(files: Disk, journal: Option<Journal>, before: Disk): Disk {
    if Finished(journal) then files else before
  }

  // The files a transaction writes under its root.
  predicate IsOwn(items: seq<Entry>, p: Path) {
    match p
    case Backup(i) => i < |items|
    case Staged(i) => i < |items| && items[i].staged
    case Target(_) => false
    case Payload(_) => false
  }

  // Nothing but the journal's own files may be missing.
  ghost predicate OnlyOwnRemoved(was: Disk, now: Disk, items: seq<Entry>) {
    forall p :: Lookup(now, p) == Lookup(was, p) || (IsOwn(items, p) && Lookup(now, p) == None)
  }

  ghost predicate SlotEmpty(files: Disk, i: nat, staged: bool) {
    Lookup(files, Backup(i)) == None && (staged ==> Lookup(files, Staged(i)) == None)
  }

  // None of them is left.
  ghost predicate NothingLeft(files: Disk, items: seq<Entry>) {
    forall i | 0 <= i < |items| :: SlotEmpty(files, i, items[i].staged)
  }

  // The old file was the new one, and the target still is.
  predicate HadNewContent(entry: Entry) {
    entry.existed && entry.staged && entry.hash == entry.oldHash
  }

  predicate HasNewContent(files: Disk, entry: Entry) {
    Lookup(files, Target(entry.target)) == Some(entry.hash.of)
  }

  // Writing one item's target disturbs no backup, no staged payload and no
  // target outside the plan.
  lemma TargetWriteFrame(was: Disk, now: Disk, before: Disk, items: seq<Entry>, i: nat)
    requires i < |items| && ChangedOnly(was, now, Target(items[i].target))
    requires BackupsIntact(was, before, items) && SameElsewhere(before, was, items)
    ensures BackupsIntact(now, before, items) && SameElsewhere(before, now, items)
    ensures StagedIntact(was, items) ==> StagedIntact(now, items)
    ensures SamePayloads(was, now)
  {
  }

  lemma SameTargetsCompose(a: Disk, b: Disk, c: Disk)
    ensures SameTargets(a, b) && SameTargets(b, c) ==> SameTargets(a, c)
  {
    if SameTargets(a, b) && SameTargets(b, c) {
      forall name
        ensures SameAt(a, c, name)
      {
        assert SameAt(a, b, name) && SameAt(b, c, name);
      }
    }
  }

  // Finished journals only speak about targets.
  lemma SameTargetsKeepSound(was: Disk, now: Disk, journal: Option<Journal>, before: Disk)
    requires Sound(was, journal, before) && SameTargets(was, now) && Finished(journal)
    ensures Sound(now, journal, before)
  {
    forall name
      ensures SameAt(before, was, name) <==> SameAt(before, now, name)
    {
      assert SameAt(was, now, name);
    }
    if IsCommitted(journal) {
      forall i | 0 <= i < |journal.value.items| && journal.value.items[i].staged
        ensures Lookup(now, Target(journal.value.items[i].target)) == Some(journal.value.items[i].hash.of)
      {
        assert SameAt(was, now, journal.value.items[i].target);
      }
    }
  }

  // Once every item is back, so is the whole disk.
  lemma AllItemsBack(before: Disk, files: Disk, items: seq<Entry>)
    requires SameElsewhere(before, files, items)
    requires forall i | 0 <= i < |items| :: SameAt(before, files, items[i].target)
    ensures SameTargets(before, files)
  {
  }

  // ---- a plan and the entries staged for it ----

  ghost predicate Stageable(files: Disk, items: seq<Item>) {
    && 0 < |items| <= MAX_ITEMS
    && (forall i, j | 0 <= i < j < |items| :: items[i].target != items[j].target)
    && forall i | 0 <= i < |items| && items[i].source.Some? :: Payload(items[i].source.value) in files
  }

  // The entry stages exactly the item's payload.
  ghost predicate Stages(files: Disk, entry: Entry, item: Item) {
    && entry.target == item.target
    && entry.staged == item.source.Some?
    && (entry.staged ==> Lookup(files, Payload(item.source.value)) == Some(entry.hash.of))
  }

  ghost predicate StagesAll(files: Disk, entries: seq<Entry>, items: seq<Item>) {
    && |entries| == |items|
    && forall i | 0 <= i < |items| :: Stages(files, entries[i], items[i])
  }

  // Only the root's own files of slot i may differ.
  ghost predicate ChangedOnlySlot(was: Disk, now: Disk, i: nat) {
    forall p | p != Backup(i) && p != Staged(i) :: Lookup(was, p) == Lookup(now, p)
  }

  ghost predicate SlotIntact(files: Disk, i: nat, entry: Entry) {
    && entry.existed == Lookup(files, Target(entry.target)).Some?
    && (entry.existed ==>
          && Lookup(files, Backup(i)) == Lookup(files, Target(entry.target))
          && Lookup(files, Backup(i)) == Some(entry.oldHash.of))
    && (entry.staged ==> Lookup(files, Staged(i)) == Some(entry.hash.of))
  }

  // The first |entries| items are staged.
  ghost predicate Staging(files: Disk, entries: seq<Entry>, items: seq<Item>) {
    && |entries| <= |items|
    && forall k | 0 <= k < |entries| :: SlotIntact(files, k, entries[k]) && Stages(files, entries[k], items[k])
  }

  lemma SlotFrame(start: Disk, was: Disk, now: Disk, i: nat)
    requires SameTargets(start, was) && SamePayloads(start, was) && ChangedOnlySlot(was, now, i)
    ensures SameTargets(start, now) && SamePayloads(start, now) && SameTargets(was, now)
  {
    forall name
      ensures SameAt(start, now, name) && SameAt(was, now, name)
    {
      assert SameAt(start, was, name);
    }
  }

  // Removing one slot's files removes only the journal's own.
  lemma SlotRemoved(start: Disk, was: Disk, now: Disk, items: seq<Entry>, i: nat)
    requires i < |items| && OnlyOwnRemoved(start, was, items) && ChangedOnlySlot(was, now, i)
    requires Lookup(now, Backup(i)) in {Lookup(was, Backup(i)), None}
    requires Lookup(now, Staged(i)) == Lookup(was, Staged(i)) || (items[i].staged && Lookup(now, Staged(i)) == None)
    ensures OnlyOwnRemoved(start, now, items)
  {
  }

  // A later slot's files are not an earlier slot's.
  lemma StagingFrame(was: Disk, now: Disk, entries: seq<Entry>, items: seq<Item>)
    requires Staging(was, entries, items) && ChangedOnlySlot(was, now, |entries|)
    ensures Staging(now, entries, items)
  {
  }

  // What a crash-free or crashing run is made of. Edit is the installer script
  // rewriting a target it listed without a payload.
  datatype Operation =
    | Begin(items: seq<Item>)
    | Apply
    | Commit
    | Recover
    | Rollback
    | Edit(target: string, content: Option<Content>)

  class Transaction {
    var files: Disk
    var journal: Option<Journal>
    ghost var before: Disk

    ghost predicate Valid()
      reads this
    {
      Sound(files, journal, before)
    }

    constructor (files: Disk)
      ensures Valid() && this.files == files && this.journal == None && this.before == files
    {
      this.files, this.journal, this.before := files, None, files;
    }

    // ---- primitives; with faulty set, each may fail or be the last to run ----

    method Platform(faulty: bool) returns (ok: bool)
      ensures !faulty ==> ok
    {
      ok := true;
      if faulty {
        ok := *;
      }
    }

    method HashFile(path: Path, faulty: bool) returns (digest: Option<Digest>)
      ensures digest.Some? ==> Lookup(files, path) == Some(digest.value.of)
      ensures !faulty && path in files ==> digest.Some?
    {
      var readable := Platform(faulty);
      digest := if readable && path in files then Some(Digest(files[path])) else None;
    }

    // Truncate, then write: a failure leaves any part of the content behind.
    method CopyFile(src: Path, dst: Path, faulty: bool) returns (ok: bool)
      requires src != dst
      modifies this`files
      ensures ChangedOnly(old(files), files, dst)
      ensures ok ==> src in old(files) && Lookup(files, dst) == Lookup(old(files), src)
      ensures !faulty && src in old(files) ==> ok
    {
      var reachable := Platform(faulty);
      if !reachable || src !in files {
        return false;
      }
      var content := files[src];
      files := files[dst := []];
      var n := 0;
      while n < |content|
        invariant 0 <= n <= |content|
        invariant ChangedOnly(old(files), files, dst)
        invariant Lookup(files, dst) == Some(content[..n])
      {
        ok := Platform(faulty);
        if !ok {
          return;
        }
        n := n + 1;
        files := files[dst := content[..n]];
      }
      assert content[..|content|] == content;
      ok := Platform(faulty);
    }

    method RemoveFile(path: Path, faulty: bool) returns (ok: bool)
      modifies this`files
      ensures ChangedOnly(old(files), files, path)
      ensures files == old(files) || Lookup(files, path) == None
      ensures ok ==> Lookup(files, path) == None
      ensures !faulty ==> ok
    {
      ok := Platform(faulty);
      if ok {
        files := files - {path};
        ok := Platform(faulty);
      }
    }

    // Written beside the journal and renamed over it: the journal is the old or
    // the new one, and a crash can follow either.
    method Save(next: Journal, faulty: bool) returns (ok: bool)
      modifies this`journal
      ensures journal == old(journal) || journal == Some(next)
      ensures ok ==> journal == Some(next)
      ensures !faulty ==> ok
    {
      ok := Platform(faulty);
      if ok {
        journal := Some(next);
        ok := Platform(faulty);
      }
    }

    // What a journal must list: some items, not too many, no target twice.
    method CheckItems(items: seq<Entry>) returns (ok: bool)
      ensures ok <==> Loadable(items)
      ensures ok <==> 1 <= |items| <= 64 && forall i, j | 0 <= i < j < |items| :: items[i].target != items[j].target
    {
      if |items| == 0 || |items| > MAX_ITEMS {
        return false;
      }
      var seen: set<string> := {};
      for i := 0 to |items|
        invariant seen == set k | 0 <= k < i :: items[k].target
        invariant forall k, l | 0 <= k < l < i :: items[k].target != items[l].target
      {
        if items[i].target in seen {
          return false;
        }
        seen := seen + {items[i].target};
      }
      return true;
    }

    // Refuses an unsupported journal; never one that a transaction saved. The
    // targets of an unfinished one are validated again.
    method Load(faulty: bool) returns (ok: bool, j: Journal)
      requires Valid() && journal.Some?
      ensures j == journal.value
      ensures ok ==> Loadable(j.items)
      ensures !faulty ==> ok
    {
      j := journal.value;
      ok := Platform(faulty);
      if !ok {
        return;
      }
      ok := CheckItems(j.items);
      if ok && j.phase !in {Committed, RolledBack} {
        for i := 0 to |j.items|
          invariant ok ==> Loadable(j.items)
          invariant !faulty ==> ok
        {
          var valid := Platform(faulty);
          ok := ok && valid;
        }
      }
    }

    // The two files of one item.
    method RemoveSlot(i: nat, staged: bool, faulty: bool)
      modifies this`files
      ensures ChangedOnlySlot(old(files), files, i)
      ensures Lookup(files, Backup(i)) in {Lookup(old(files), Backup(i)), None}
      ensures Lookup(files, Staged(i)) == Lookup(old(files), Staged(i)) || (staged && Lookup(files, Staged(i)) == None)
      ensures !faulty ==> SlotEmpty(files, i, staged)
    {
      var removed := RemoveFile(Backup(i), faulty);
      if staged {
        removed := RemoveFile(Staged(i), faulty);
      }
    }

    // Removes this journal's own files, all of them unless a removal fails, and
    // ignores every error.
    method Cleanup(j: Journal, faulty: bool)
      requires Valid() && journal == Some(j) && Finished(journal)
      modifies this`files
      ensures Valid() && SameTargets(old(files), files) && SamePayloads(old(files), files)
      ensures OnlyOwnRemoved(old(files), files, j.items)
      ensures !faulty ==> NothingLeft(files, j.items)
    {
      for i := 0 to |j.items|
        invariant Valid() && SameTargets(old(files), files) && SamePayloads(old(files), files)
        invariant OnlyOwnRemoved(old(files), files, j.items)
        invariant !faulty ==> forall k | 0 <= k < i :: SlotEmpty(files, k, j.items[k].staged)
      {
        ghost var was := files;
        RemoveSlot(i, j.items[i].staged, faulty);
        SlotFrame(old(files), was, files, i);
        SlotRemoved(old(files), was, files, j.items, i);
        SameTargetsKeepSound(was, files, journal, before);
      }
    }

    // ---- Begin ----

    method StageItem(i: nat, item: Item, faulty: bool) returns (ok: bool, entry: Entry)
      modifies this`files
      ensures ChangedOnlySlot(old(files), files, i)
      ensures ok ==> SlotIntact(files, i, entry) && Stages(files, entry, item)
      ensures !faulty && (item.source.Some? ==> Payload(item.source.value) in old(files)) ==> ok
    {
      entry := Entry(item.target, Target(item.target) in files, Digest(""), false, Digest(""));
      ok := Platform(faulty);
      if !ok {
        return;
      }
      if entry.existed {
        var oldHash := HashFile(Target(item.target), faulty);
        if oldHash.None? {
          return false, entry;
        }
        entry := entry.(oldHash := oldHash.value);
        ok := CopyFile(Target(item.target), Backup(i), faulty);
        if !ok {
          return;
        }
        var copied := HashFile(Backup(i), faulty);
        if copied != Some(entry.oldHash) {
          return false, entry;
        }
      }
      if item.source.Some? {
        var payload := Payload(item.source.value);
        assert Lookup(files, payload) == Lookup(old(files), payload);
        var hash := HashFile(payload, faulty);
        if hash.None? {
          return false, entry;
        }
        entry := entry.(staged := true, hash := hash.value);
        ok := CopyFile(payload, Staged(i), faulty);
        if !ok {
          return;
        }
        var copied := HashFile(Staged(i), faulty);
        if copied != Some(entry.hash) {
          return false, entry;
        }
      }
    }

    method StageAll(items: seq<Item>, faulty: bool) returns (ok: bool, entries: seq<Entry>)
      requires Valid() && Finished(journal)
      modifies this`files
      ensures Valid() && SameTargets(old(files), files) && SamePayloads(old(files), files)
      ensures ok ==> |entries| == |items| && Staging(files, entries, items)
      ensures ok ==> forall k, l | 0 <= k < l < |items| :: items[k].target != items[l].target
      ensures !faulty && Stageable(old(files), items) ==> ok
    {
      ok, entries := true, [];
      var seen: set<string> := {};
      for i := 0 to |items|
        invariant ok && Valid()
        invariant SameTargets(old(files), files) && SamePayloads(old(files), files)
        invariant seen == set k | 0 <= k < i :: items[k].target
        invariant forall k, l | 0 <= k < l < i :: items[k].target != items[l].target
        invariant |entries| == i && Staging(files, entries, items)
      {
        ok := Platform(faulty);
        if !ok || items[i].target in seen {
          return false, entries;
        }
        seen := seen + {items[i].target};
        ghost var was := files;
        var entry: Entry;
        ok, entry := StageItem(i, items[i], faulty);
        SlotFrame(old(files), was, files, i);
        SameTargetsKeepSound(was, files, journal, before);
        if !ok {
          return;
        }
        StagingFrame(was, files, entries, items);
        entries := entries + [entry];
      }
    }

    // Stages every file before the journal is saved; the targets only change
    // when an earlier transaction has to be rolled back first.
    method Begin(items: seq<Item>, faulty: bool) returns (ok: bool)
      requires Valid()
      modifies this
      ensures Valid()
      ensures ok ==> journal.Some? && journal.value.phase == Prepared && StagesAll(files, journal.value.items, items)
      ensures old(Finished(journal)) ==> SameTargets(old(files), files)
      ensures old(Finished(journal)) ==>
                || (journal == old(journal) && before == old(before))
                || (journal.Some? && journal.value.phase == Prepared && before == files &&
                    StagesAll(files, journal.value.items, items))
      ensures !old(IsCommitted(journal)) ==> SameTargets(old(before), before)
      ensures SameTargets(old(Settled(files, journal, before)), Settled(files, journal, before))
      ensures before == old(before) || SameTargets(before, files)
      ensures SamePayloads(old(files), files)
      ensures IsCommitted(journal) ==> journal == old(journal)
      ensures !faulty && Stageable(old(files), items) ==> ok
    {
      ok := Recover(faulty);
      if !ok {
        return;
      }
      if |items| == 0 || |items| > MAX_ITEMS {
        return false;
      }
      ghost var recovered := files;
      var entries;
      ok, entries := StageAll(items, faulty);
      SameTargetsCompose(old(files), recovered, files);
      if !ok {
        return;
      }
      ok := Platform(faulty);
      if !ok {
        return;
      }
      var next := Journal(Prepared, entries);
      assert !IsCommitted(journal) ==> SameTargets(before, files);
      ok := Save(next, faulty);
      if journal == Some(next) {
        before := files;
      }
    }

    // ---- Apply and Commit ----

    method VerifyStaged(items: seq<Entry>, faulty: bool) returns (ok: bool)
      ensures ok ==> StagedIntact(files, items)
      ensures !faulty && StagedIntact(files, items) ==> ok
    {
      for i := 0 to |items|
        invariant forall k | 0 <= k < i && items[k].staged :: Lookup(files, Staged(k)) == Some(items[k].hash.of)
      {
        if items[i].staged {
          var hash := HashFile(Staged(i), faulty);
          if hash != Some(items[i].hash) {
            return false;
          }
        }
      }
      return true;
    }

    // A target already holding the new content is not rewritten.
    method FindUnchanged(items: seq<Entry>, faulty: bool) returns (current: seq<bool>)
      ensures |current| == |items|
      ensures forall i | 0 <= i < |items| && current[i] ::
                Lookup(files, Target(items[i].target)) == Some(items[i].hash.of)
      ensures !faulty ==> forall i | 0 <= i < |items| ::
                current[i] <==> HadNewContent(items[i]) && HasNewContent(files, items[i])
    {
      current := [];
      for i := 0 to |items|
        invariant |current| == i
        invariant !faulty ==> forall k | 0 <= k < i ::
                    current[k] <==> HadNewContent(items[k]) && HasNewContent(files, items[k])
        invariant forall k | 0 <= k < i && current[k] ::
                    Lookup(files, Target(items[k].target)) == Some(items[k].hash.of)
      {
        var same := false;
        if items[i].staged && items[i].existed && items[i].oldHash == items[i].hash {
          var hash := HashFile(Target(items[i].target), faulty);
          same := hash == Some(items[i].hash);
        }
        current := current + [same];
      }
    }

    // Transient lock errors are retried, each time from the start of the copy.
    method ReplaceTarget(src: Path, dst: Path, faulty: bool) returns (ok: bool)
      requires src != dst
      modifies this`files
      ensures ChangedOnly(old(files), files, dst)
      ensures ok ==> src in old(files) && Lookup(files, dst) == Lookup(old(files), src)
      ensures !faulty && src in old(files) ==> ok
    {
      var attempts: nat := *;
      ok := CopyFile(src, dst, faulty);
      while !ok && attempts > 0
        invariant ChangedOnly(old(files), files, dst)
        invariant ok ==> src in old(files) && Lookup(files, dst) == Lookup(old(files), src)
        invariant !faulty && src in old(files) ==> ok
        decreases attempts
      {
        assert Lookup(old(files), src) == Lookup(files, src);
        ok := CopyFile(src, dst, faulty);
        attempts := attempts - 1;
      }
    }

    // One staged item of Apply, the AfterReplace hook included.
    method InstallItem(items: seq<Entry>, i: nat, current: bool, faulty: bool) returns (ok: bool)
      requires i < |items| && items[i].staged && Lookup(files, Staged(i)) == Some(items[i].hash.of)
      requires current ==> Lookup(files, Target(items[i].target)) == Some(items[i].hash.of)
      modifies this`files
      ensures current ==> files == old(files)
      ensures ChangedOnly(old(files), files, Target(items[i].target))
      ensures ok ==> Lookup(files, Target(items[i].target)) == Some(items[i].hash.of)
      ensures !faulty ==> ok
    {
      ok := Platform(faulty);
      if !ok {
        return;
      }
      ok := Platform(faulty);
      if !ok || current {
        return;
      }
      ok := ReplaceTarget(Staged(i), Target(items[i].target), faulty);
      if !ok {
        return;
      }
      ok := Platform(faulty);
      if !ok {
        return;
      }
      ok := Platform(faulty);
    }

    method InstallAll(j: Journal, current: seq<bool>, faulty: bool) returns (ok: bool)
      requires Valid() && journal == Some(j) && j.phase == Applying && StagedIntact(files, j.items)
      requires |current| == |j.items|
      requires forall i | 0 <= i < |j.items| && current[i] ::
                 Lookup(files, Target(j.items[i].target)) == Some(j.items[i].hash.of)
      modifies this`files
      ensures Valid() && SamePayloads(old(files), files)
      ensures ok ==> Installed(files, j.items)
      ensures forall i | 0 <= i < |j.items| && !j.items[i].staged :: SameAt(old(files), files, j.items[i].target)
      ensures !faulty ==> ok
    {
      ok := true;
      for i := 0 to |j.items|
        invariant Valid() && StagedIntact(files, j.items) && SamePayloads(old(files), files)
        invariant Installed(files, j.items[..i])
        invariant forall k | 0 <= k < |j.items| && (k >= i || !j.items[k].staged) ::
                    SameAt(old(files), files, j.items[k].target)
        invariant ok
      {
        if j.items[i].staged {
          ghost var was := files;
          assert SameAt(old(files), files, j.items[i].target);
          ok := InstallItem(j.items, i, current[i], faulty);
          TargetWriteFrame(was, files, before, j.items, i);
          OtherTargetsStay(old(files), was, files, j.items, i);
          if !ok {
            return;
          }
        }
      }
      assert j.items[..|j.items|] == j.items;
    }

    // Saves the phase before the first target changes.
    method Apply(faulty: bool) returns (ok: bool)
      requires Valid()
      modifies this`files, this`journal
      ensures Valid()
      ensures journal == old(journal) ==> files == old(files)
      ensures journal != old(journal) ==>
                && old(journal).Some? && old(journal.value.phase) == Prepared
                && journal == Some(old(journal.value).(phase := Applying))
      ensures ok ==> journal.Some? && journal.value.phase == Applying && Installed(files, journal.value.items)
      ensures journal.Some? ==> forall i | 0 <= i < |journal.value.items| && !journal.value.items[i].staged ::
                SameAt(old(files), files, journal.value.items[i].target)
      ensures SamePayloads(old(files), files)
      ensures !faulty && old(journal).Some? && old(journal.value.phase) == Prepared ==> ok
    {
      if journal.None? {
        return false;
      }
      var j;
      ok, j := Load(faulty);
      if !ok || j.phase != Prepared {
        return false;
      }
      ok := VerifyStaged(j.items, faulty);
      if !ok {
        return;
      }
      j := Journal(Applying, j.items);
      ok := Save(j, faulty);
      if !ok {
        return;
      }
      ok := Platform(faulty);
      if !ok {
        return;
      }
      var current := FindUnchanged(j.items, faulty);
      ok := Platform(faulty);
      if !ok {
        return;
      }
      ok := InstallAll(j, current, faulty);
    }

    method VerifyInstalled(items: seq<Entry>, faulty: bool) returns (ok: bool)
      ensures ok ==> Installed(files, items)
      ensures !faulty && Installed(files, items) ==> ok
    {
      for i := 0 to |items|
        invariant Installed(files, items[..i])
      {
        if items[i].staged {
          var hash := HashFile(Target(items[i].target), faulty);
          if hash != Some(items[i].hash) {
            return false;
          }
        }
      }
      assert items[..|items|] == items;
      return true;
    }

    method Commit(faulty: bool) returns (ok: bool)
      requires Valid()
      modifies this`files, this`journal
      ensures Valid()
      ensures SameTargets(old(files), files) && SamePayloads(old(files), files)
      ensures journal == old(journal) ==> files == old(files)
      ensures journal != old(journal) ==>
                && old(journal).Some? && old(journal.value.phase) == Applying
                && journal == Some(old(journal.value).(phase := Committed))
                && Installed(old(files), journal.value.items)
      ensures ok ==> journal != old(journal)
      ensures ok && !faulty ==> NothingLeft(files, journal.value.items)
      ensures journal.Some? ==> OnlyOwnRemoved(old(files), files, journal.value.items)
      ensures !faulty && old(journal).Some? && old(journal.value.phase) == Applying ==>
                (Installed(old(files), old(journal).value.items) ==> ok)
    {
      if journal.None? {
        return false;
      }
      var j;
      ok, j := Load(faulty);
      if !ok || j.phase != Applying {
        return false;
      }
      ok := VerifyInstalled(j.items, faulty);
      if !ok {
        return;
      }
      j := Journal(Committed, j.items);
      ok := Save(j, faulty);
      if !ok {
        return;
      }
      Cleanup(j, faulty);
    }

    // ---- Recover and Rollback ----

    method Recover(faulty: bool) returns (ok: bool)
      requires Valid()
      modifies this`files, this`journal
      ensures Valid()
      ensures ok ==> Finished(journal)
      ensures ok && !IsCommitted(journal) ==> SameTargets(before, files)
      ensures old(Finished(journal)) ==> journal == old(journal) && SameTargets(old(files), files)
      ensures IsCommitted(journal) ==> journal == old(journal)
      ensures SamePayloads(old(files), files)
      ensures !faulty ==> ok
      ensures !faulty && old(Finished(journal)) && journal.Some? ==> NothingLeft(files, journal.value.items)
    {
      if journal.None? {
        return true;
      }
      var j;
      ok, j := Load(faulty);
      if !ok {
        return;
      }
      if j.phase in {Committed, RolledBack} {
        Cleanup(j, faulty);
        return true;
      }
      ok := Rollback(faulty);
    }

    method VerifyBackups(items: seq<Entry>, faulty: bool) returns (ok: bool)
      ensures ok ==> forall i | 0 <= i < |items| && items[i].existed ::
                       Lookup(files, Backup(i)) == Some(items[i].oldHash.of)
      ensures !faulty && BackupsIntact(files, before, items) ==> ok
    {
      for i := 0 to |items|
        invariant forall k | 0 <= k < i && items[k].existed :: Lookup(files, Backup(k)) == Some(items[k].oldHash.of)
      {
        if items[i].existed {
          var hash := HashFile(Backup(i), faulty);
          if hash != Some(items[i].oldHash) {
            return false;
          }
        }
      }
      return true;
    }

    // The check before the service configuration alone is restored.
    method TargetsUntouched(items: seq<Entry>, faulty: bool) returns (untouched: bool)
      requires BackupsIntact(files, before, items) && SameElsewhere(before, files, items)
      ensures untouched ==> SameTargets(before, files)
      ensures !faulty && SameTargets(before, files) ==> untouched
    {
      untouched := true;
      for i := 0 to |items|
        invariant !faulty && SameTargets(before, files) ==> untouched
        invariant untouched ==> forall k | 0 <= k < i :: SameAt(before, files, items[k].target)
      {
        var same := Target(items[i].target) !in files;
        if items[i].existed {
          var hash := HashFile(Target(items[i].target), faulty);
          same := hash == Some(items[i].oldHash);
        }
        assert SameTargets(before, files) ==> SameAt(before, files, items[i].target);
        untouched := untouched && same;
      }
      if untouched {
        AllItemsBack(before, files, items);
      }
    }

    method RestoreItem(items: seq<Entry>, i: nat, faulty: bool) returns (ok: bool)
      requires i < |items| && BackupsIntact(files, before, items)
      modifies this`files
      ensures ChangedOnly(old(files), files, Target(items[i].target))
      ensures ok ==> SameAt(before, files, items[i].target)
      ensures !faulty ==> ok
    {
      var target := Target(items[i].target);
      ok := Platform(faulty);
      if !ok {
        return;
      }
      if items[i].existed {
        var hash := HashFile(target, faulty);
        if hash != Some(items[i].oldHash) {
          ok := Platform(faulty);
          if !ok {
            return;
          }
          assert Lookup(files, Backup(i)).Some?;
          ok := CopyFile(Backup(i), target, faulty);
          if !ok {
            return;
          }
        }
        ok := Platform(faulty);
      } else {
        if target in files {
          ok := Platform(faulty);
          if !ok {
            return;
          }
        }
        ok := RemoveFile(target, faulty);
      }
    }

    // Every backup is checked before one installed file is overwritten.
    method Rollback(faulty: bool) returns (ok: bool)
      requires Valid()
      modifies this`files, this`journal
      ensures Valid()
      ensures old(Finished(journal)) ==> journal == old(journal) && files == old(files)
      ensures !old(Finished(journal)) ==>
                && journal.Some? && journal.value.items == old(journal.value.items)
                && (journal == old(journal) || journal.value.phase in {RollingBack, RolledBack})
      ensures journal == old(journal) && (old(journal).None? || old(journal.value.phase) != RollingBack) ==>
                files == old(files)
      ensures ok ==> Finished(journal)
      ensures SamePayloads(old(files), files)
      ensures !faulty ==> ok
    {
      if journal.None? {
        return true;
      }
      var j;
      ok, j := Load(faulty);
      if !ok || j.phase in {Committed, RolledBack} {
        return;
      }
      ok := VerifyBackups(j.items, faulty);
      if !ok {
        return;
      }
      j := Journal(RollingBack, j.items);
      ok := Save(j, faulty);
      if !ok {
        return;
      }
      ok := Platform(faulty);
      if !ok {
        var untouched := TargetsUntouched(j.items, faulty);
        if untouched {
          var restored := Platform(faulty);
        }
        return;
      }
      for i := 0 to |j.items|
        invariant journal == Some(j) && Loadable(j.items)
        invariant BackupsIntact(files, before, j.items) && SameElsewhere(before, files, j.items)
        invariant SamePayloads(old(files), files)
        invariant forall k | 0 <= k < i :: SameAt(before, files, j.items[k].target)
        invariant ok
      {
        ghost var was := files;
        ok := RestoreItem(j.items, i, faulty);
        TargetWriteFrame(was, files, before, j.items, i);
        if !ok {
          return;
        }
        OtherItemsStay(was, files, before, j.items, i);
      }
      ok := Platform(faulty);
      if !ok {
        return;
      }
      AllItemsBack(before, files, j.items);
      ok := Save(Journal(RolledBack, j.items), faulty);
    }

    // ---- whole runs ----

    // The installer script rewrites files it listed without a payload, and only
    // between Apply and Commit.
    method EditUnstaged(target: string, content: Option<Content>)
      requires Valid()
      modifies this`files
      ensures Valid() && SamePayloads(old(files), files)
      ensures Finished(journal) ==> files == old(files)
      ensures journal.Some? ==> (Installed(old(files), journal.value.items) ==> Installed(files, journal.value.items))
    {
      if journal.None? || journal.value.phase != Applying {
        return;
      }
      var items := journal.value.items;
      for i := 0 to |items| {
        if items[i].target == target && !items[i].staged {
          ghost var was := files;
          files := if content.Some? then files[Target(target) := content.value] else files - {Target(target)};
          TargetWriteFrame(was, files, before, items, i);
          return;
        }
      }
    }

    // Any sequence of operations, each of them failing or crashing anywhere.
    // committed: whether some Commit of the run saved its journal.
    method Run(operations: seq<(Operation, bool)>) returns (committed: bool)
      requires Valid()
      modifies this
      ensures Valid()
      ensures !committed ==> (IsCommitted(journal) ==> journal == old(journal))
      ensures !committed ==> SameTargets(old(Settled(files, journal, before)), Settled(files, journal, before))
      ensures !committed && !old(IsCommitted(journal)) ==> SameTargets(old(before), before)
    {
      committed := false;
      for i := 0 to |operations|
        invariant Valid()
        invariant !committed ==> (IsCommitted(journal) ==> journal == old(journal))
        invariant !committed ==> SameTargets(old(Settled(files, journal, before)), Settled(files, journal, before))
        invariant !committed && !old(IsCommitted(journal)) ==> SameTargets(old(before), before)
      {
        ghost var was, settled := before, Settled(files, journal, before);
        var saved := Perform(operations[i].0, operations[i].1);
        committed := committed || saved;
        SameTargetsCompose(old(before), was, before);
        SameTargetsCompose(old(Settled(files, journal, before)), settled, Settled(files, journal, before));
      }
    }

    method Perform(operation: Operation, faulty: bool) returns (committed: bool)
      requires Valid()
      modifies this
      ensures Valid()
      ensures !committed ==> (IsCommitted(journal) ==> journal == old(journal))
      ensures !committed ==> SameTargets(old(Settled(files, journal, before)), Settled(files, journal, before))
      ensures !committed && !old(IsCommitted(journal)) ==> SameTargets(old(before), before)
    {
      committed := false;
      var prior := journal;
      var ok;
      match operation {
        case Begin(items) => ok := Begin(items, faulty);
        case Apply => ok := Apply(faulty);
        case Commit =>
          ok := Commit(faulty);
          committed := journal != prior;
        case Recover => ok := Recover(faulty);
        case Rollback => ok := Rollback(faulty);
        case Edit(target, content) => EditUnstaged(target, content);
      }
    }

    // Installer atomicity: after any run, a recovery that succeeds has put back
    // every target, unless a commit of the run was saved; and without further
    // faults it does succeed. The run may start anywhere: with no journal, after
    // an earlier installation, or in the middle of one.
    method RunAndRecover(operations: seq<(Operation, bool)>, faulty: bool) returns (ok: bool, committed: bool)
      requires Valid()
      modifies this
      ensures Valid()
      ensures !faulty ==> ok
      ensures ok ==> Finished(journal)
      ensures ok && !committed ==> SameTargets(old(Settled(files, journal, before)), files)
      ensures ok && !committed && !old(IsCommitted(journal)) ==> SameTargets(old(before), files)
      ensures ok && IsCommitted(journal) ==>
                && (committed || journal == old(journal))
                && Installed(files, journal.value.items)
                && SameElsewhere(before, files, journal.value.items)
    {
      committed := Run(operations);
      ghost var was, settled := before, Settled(files, journal, before);
      ok := Recover(faulty);
      SameTargetsCompose(old(before), was, files);
      SameTargetsCompose(old(Settled(files, journal, before)), settled, files);
    }

    // Without faults, a plan whose payloads exist is installed exactly, over an
    // earlier installation or none: every payload lands on its target and no other
    // target changes.
    method Install(items: seq<Item>)
      requires Valid() && Finished(journal) && Stageable(files, items)
      modifies this
      ensures Valid() && IsCommitted(journal) && StagesAll(files, journal.value.items, items)
      ensures Installed(files, journal.value.items)
      ensures forall name | !IsItem(journal.value.items, name) :: SameAt(old(files), files, name)
      ensures NothingLeft(files, journal.value.items)
    {
      var ok := Begin(items, false);
      ghost var start := files;
      ok := Apply(false);
      ok := Commit(false);
      ghost var entries := journal.value.items;
      forall name | !IsItem(entries, name)
        ensures SameAt(old(files), files, name)
      {
        assert SameAt(before, files, name);
        assert SameAt(old(files), start, name) && SameAt(before, start, name);
      }
      forall i | 0 <= i < |items|
        ensures Stages(files, entries[i], items[i])
      {
        assert Stages(start, entries[i], items[i]);
      }
    }
  }

  // Installing item i leaves every other item's target as it was.
  lemma OtherTargetsStay(start: Disk, was: Disk, now: Disk, items: seq<Entry>, i: nat)
    requires i < |items| && Loadable(items) && ChangedOnly(was, now, Target(items[i].target))
    ensures forall k | 0 <= k < |items| && k != i ::
              SameAt(start, was, items[k].target) ==> SameAt(start, now, items[k].target)
    ensures Installed(was, items[..i]) ==> Installed(now, items[..i])
  {
  }

  // Restoring item i leaves the items before it restored.
  lemma OtherItemsStay(was: Disk, now: Disk, before: Disk, items: seq<Entry>, i: nat)
    requires i < |items| && Loadable(items) && ChangedOnly(was, now, Target(items[i].target))
    requires forall k | 0 <= k < i :: SameAt(before, was, items[k].target)
    ensures forall k | 0 <= k < i :: SameAt(before, now, items[k].target)
  {
  }
}
