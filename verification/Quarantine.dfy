/**
 blocked_domains.go: the stored quarantine records. A telemetry sample replaces
 or extends them, a removal deletes from them and outdates the samples requested
 before it. Instants are nanoseconds, stored deadlines whole seconds.
 */
module Quarantine {
  import opened Options
  import opened Text

  // Adapter and normalized domain.
  datatype Key = Key(adapter: string, domain: string)

  datatype Removal = One(key: Key) | Clear

  predicate Covers(r: Removal, k: Key) {
    r.Clear? || r.key == k
  }

  // ---- one call: a telemetry sample replaces the store ----

  const SECOND := 1_000_000_000
  const TTL := 30 * 60 * SECOND
  const HORIZON := 24 * 60 * 60 * SECOND

  // time.Unix: whole seconds, rounded down.
  function Unix(instant: int): int {
    instant / SECOND
  }

  // A missing deadline is None.
  datatype Sample = Sample(adapter: string, domain: string, expiresAt: Option<int>)

  function NormalizeDomain(domain: string): string {
    if domain != "" && domain[|domain| - 1] == '.' then Lower(domain[..|domain| - 1]) else Lower(domain)
  }

  function KeyOf(sample: Sample): Key {
    Key(sample.adapter, NormalizeDomain(sample.domain))
  }

  predicate Kept(sample: Sample, useExpiry: bool, now: int) {
    && sample.adapter != "" && NormalizeDomain(sample.domain) != "" && sample.expiresAt.Some?
    && (useExpiry ==> sample.expiresAt.value > now)
  }

  function KeptKeys(samples: seq<Sample>, useExpiry: bool, now: int): (keys: set<Key>)
    ensures forall k :: k in keys <==>
            exists i :: 0 <= i < |samples| && Kept(samples[i], useExpiry, now) && KeyOf(samples[i]) == k
  {
    set i | 0 <= i < |samples| && Kept(samples[i], useExpiry, now) :: KeyOf(samples[i])
  }

  // What a sample makes of the stored records: with expiry it replaces them,
  // without it only adds.
  function Stored(store: set<Key>, kept: set<Key>, useExpiry: bool): set<Key> {
    if useExpiry then kept else store + kept
  }

  // With expiry on, a deadline from a core that has not heard of the policy is
  // limited, and a repeated sample never moves an already limited one.
  function Deadline(reported: int, was: Option<int>, useExpiry: bool, now: int): (expiry: int)
    ensures useExpiry && reported > now ==> Unix(now) <= expiry <= Unix(now + HORIZON) && expiry <= Unix(reported)
    ensures useExpiry && reported > now + HORIZON && was.Some? && Unix(now) < was.value <= Unix(now + TTL) ==>
            expiry == was.value
    ensures !useExpiry || reported - now <= 86_400_000_000_000 ==> expiry == Unix(reported)
    ensures useExpiry && reported - now > 86_400_000_000_000 ==>
              var limit := Unix(now) + 1_800;
              expiry == if was.Some? && Unix(now) < was.value <= limit then was.value else limit
  {
    if !useExpiry || reported <= now + HORIZON then Unix(reported)
    else if was.Some? && Unix(now) < was.value <= Unix(now + TTL) then was.value
    else Unix(now + TTL)
  }

  // The whole seconds of an instant.
  lemma UnixOfInstant(seconds: int, nanoseconds: nat)
    requires nanoseconds < 1_000_000_000
    ensures Unix(seconds * 1_000_000_000 + nanoseconds) == seconds
  {
  }

  // A core that keeps reporting a permanent deadline gets half an hour from the
  // first sample; the samples in between move nothing, and a later one starts over.
  lemma RepeatedSamples(first: int, reported: int, now: int, later: int, was: Option<int>)
    requires first - now > 86_400_000_000_000 && reported - later > 86_400_000_000_000 && now <= later
    requires was.None? || was.value <= Unix(now)
    ensures var given := Deadline(first, was, true, now);
            && given == Unix(now) + 1_800
            && Deadline(reported, Some(given), true, later) ==
               if Unix(later) < given then given else Unix(later) + 1_800
  {
  }

  // One dot at the end is dropped and letters are lowered; nothing else changes.
  lemma NormalizeDomainForms(domain: string)
    ensures NormalizeDomain(domain + ".") == Lower(domain)
    ensures (forall i | 0 <= i < |domain| :: domain[i] != '.') ==> NormalizeDomain(domain) == Lower(domain)
  {
    assert (domain + ".")[..|domain|] == domain;
  }

  // A sample counts iff it names an adapter, a domain besides the dot, and a
  // deadline, which with expiry on still has to come.
  lemma KeptExactly(sample: Sample, useExpiry: bool, now: int)
    ensures Kept(sample, useExpiry, now) <==>
            && |sample.adapter| > 0 && sample.domain !in {"", "."}
            && match sample.expiresAt case None => false case Some(deadline) => !useExpiry || now < deadline
  {
    if sample.domain != "" && sample.domain[|sample.domain| - 1] == '.' {
      assert sample.domain == sample.domain[..|sample.domain| - 1] + ".";
    }
  }

  // What the last sample of a key reports; only that one counts.
  function LastReport(samples: seq<Sample>, k: Key, useExpiry: bool, now: int): (reported: Option<int>)
    ensures reported.Some? && useExpiry ==> reported.value > now
  {
    if samples == [] then None
    else
      var last := samples[|samples| - 1];
      if Kept(last, useExpiry, now) && KeyOf(last) == k then last.expiresAt
      else LastReport(samples[..|samples| - 1], k, useExpiry, now)
  }

  function Find(entries: map<Key, int>, k: Key): Option<int> {
    if k in entries then Some(entries[k]) else None
  }

  // The record a sample leaves for a key.
  function RecordAfter(samples: seq<Sample>, entries: map<Key, int>, k: Key, useExpiry: bool, now: int): Option<int> {
    var reported := LastReport(samples, k, useExpiry, now);
    if reported.Some? then Some(Deadline(reported.value, Find(entries, k), useExpiry, now))
    else if useExpiry then None
    else Find(entries, k)
  }

  lemma {:induction false} ReportedAreKept(samples: seq<Sample>, k: Key, useExpiry: bool, now: int)
    ensures LastReport(samples, k, useExpiry, now).Some? <==> k in KeptKeys(samples, useExpiry, now)
  {
    if samples != [] {
      var n := |samples| - 1;
      ReportedAreKept(samples[..n], k, useExpiry, now);
      KeptKeysExtend(samples, n, useExpiry, now);
      assert samples[..n + 1] == samples;
    }
  }

  class BlockedDomainService {
    var entries: map<Key, int>
    var removals: nat

    constructor ()
      ensures entries == map[] && removals == 0
    {
      entries, removals := map[], 0;
    }

    method RuntimeSampleToken() returns (token: nat)
      ensures token == removals
    {
      return removals;
    }

    method NextEntries(samples: seq<Sample>, useExpiry: bool, now: int) returns (next: map<Key, int>)
      ensures forall k :: Find(next, k) == RecordAfter(samples, entries, k, useExpiry, now)
    {
      next := if useExpiry then map[] else entries;
      for i := 0 to |samples|
        invariant forall k :: Find(next, k) == RecordAfter(samples[..i], entries, k, useExpiry, now)
      {
        ghost var before := next;
        if Kept(samples[i], useExpiry, now) {
          var key := KeyOf(samples[i]);
          next := next[key := Deadline(samples[i].expiresAt.value, Find(entries, key), useExpiry, now)];
        }
        forall k
          ensures Find(next, k) == RecordAfter(samples[..i + 1], entries, k, useExpiry, now)
        {
          assert samples[..i + 1][..i] == samples[..i];
          assert Find(before, k) == RecordAfter(samples[..i], entries, k, useExpiry, now);
        }
      }
      assert samples[..|samples|] == samples;
    }

    // A sample requested before a removal is dropped. saved: whether the file
    // could be written.
    method ReplaceRuntimeSample(token: nat, samples: seq<Sample>, useExpiry: bool, now: int, saved: bool)
      modifies this`entries
      ensures token != removals || !saved ==> entries == old(entries)
      ensures token == removals && saved ==>
                forall k :: Find(entries, k) == RecordAfter(samples, old(entries), k, useExpiry, now)
      ensures token == removals && saved ==>
                entries.Keys == Stored(old(entries.Keys), KeptKeys(samples, useExpiry, now), useExpiry)
      ensures token == removals && saved && useExpiry ==>
                forall k | k in entries :: Unix(now) <= entries[k] <= Unix(now + HORIZON)
    {
      if token != removals {
        return;
      }
      var next := NextEntries(samples, useExpiry, now);
      forall k
        ensures k in next <==> k in Stored(entries.Keys, KeptKeys(samples, useExpiry, now), useExpiry)
        ensures k in next && useExpiry ==> Unix(now) <= next[k] <= Unix(now + HORIZON)
      {
        ReportedAreKept(samples, k, useExpiry, now);
        assert Find(next, k) == RecordAfter(samples, entries, k, useExpiry, now);
      }
      if saved {
        entries := next;
      }
    }

    // A sample requested before a removal cannot undo it.
    method RemoveThenReplace(removal: Removal, samples: seq<Sample>, useExpiry: bool, now: int)
      modifies this
      ensures forall k :: k in entries <==> k in old(entries) && !Covers(removal, k)
      ensures forall k | k in entries :: entries[k] == old(entries)[k]
    {
      var token := RuntimeSampleToken();
      CommitRemoval(removal);
      ReplaceRuntimeSample(token, samples, useExpiry, now, true);
    }

    // The commit of a removal; a failed write still counts it.
    method CommitRemoval(removal: Removal)
      modifies this
      ensures removals == old(removals) + 1
      ensures forall k :: k in entries <==> k in old(entries) && !Covers(removal, k)
      ensures forall k | k in entries :: entries[k] == old(entries)[k]
    {
      removals := removals + 1;
      match removal {
        case One(key) => entries := entries - {key};
        case Clear => entries := map[];
      }
    }
  }

  lemma KeptKeysExtend(samples: seq<Sample>, i: nat, useExpiry: bool, now: int)
    requires i < |samples|
    ensures KeptKeys(samples[..i + 1], useExpiry, now) ==
            KeptKeys(samples[..i], useExpiry, now)
            + (if Kept(samples[i], useExpiry, now) then {KeyOf(samples[i])} else {})
  {
    KeptKeysOfJoin(samples[..i], samples[i], useExpiry, now);
    assert samples[..i + 1] == samples[..i] + [samples[i]];
  }

  lemma KeptKeysOfJoin(samples: seq<Sample>, last: Sample, useExpiry: bool, now: int)
    ensures forall k :: k in KeptKeys(samples + [last], useExpiry, now) <==>
              k in KeptKeys(samples, useExpiry, now) || (Kept(last, useExpiry, now) && KeyOf(last) == k)
  {
    var all := samples + [last];
    forall k | k in KeptKeys(samples, useExpiry, now)
      ensures k in KeptKeys(all, useExpiry, now)
    {
      var j :| 0 <= j < |samples| && Kept(samples[j], useExpiry, now) && KeyOf(samples[j]) == k;
      assert all[j] == samples[j];
    }
    assert all[|samples|] == last;
  }
}
