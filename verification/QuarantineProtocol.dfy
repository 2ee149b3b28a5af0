/**
 commitRemoval, evictAndCommit, syncDomainQuarantines and the seeding of a start,
 as interleaved steps over the core's quarantine set and the stored records.
 */
module QuarantineProtocol {
  import opened Quarantine

  // A sampler has read its token, then perhaps the core's set.
  datatype Sampler = Requested(token: nat) | Sampled(token: nat, keys: set<Key>)

  // capable: the core advertises domain_quarantine.update. A disconnected core
  // has no set.
  datatype Core = Disconnected | Connected(capable: bool, started: bool, keys: set<Key>)

  // Who holds the lifecycle gate. cleared: covered keys the core is known not to
  // have learned since the eviction.
  datatype Gate =
    | Free
    | Removing(removal: Removal)
    | Evicted(removal: Removal, cleared: iset<Key>)
    | Seeding(seeds: set<Key>)

  // dead: keys a finished removal took from core and store, not learned since.
  datatype State = State(
    core: Core, store: set<Key>, removals: nat, samplers: map<nat, Sampler>, gate: Gate, dead: iset<Key>)

  ghost predicate Initial(s: State) {
    s.core == Disconnected && s.removals == 0 && s.samplers == map[] && s.gate == Free && s.dead == iset{}
  }

  datatype Step =
    | Connect(capable: bool)
    | Disconnect
    | Learn(key: Key)
    | Forget(key: Key)
    | ExpireStored(keys: set<Key>)
    | ReadToken(sampler: nat)
    | Take(sampler: nat)
    | Drop(sampler: nat)
    | Replace(sampler: nat, kept: set<Key>, useExpiry: bool, saved: bool)
    | BeginRemoval(removal: Removal)
    | Evict(applied: bool, ok: bool)
    | Commit
    | BeginStart(seeded: bool)
    | StartCore(ok: bool)
    | StopCore

  function CoreKeys(core: Core): set<Key> {
    if core.Connected? then core.keys else {}
  }

  predicate Capable(core: Core) {
    core.Connected? && core.capable
  }

  ghost function Covered(r: Removal): iset<Key> {
    iset k | Covers(r, k)
  }

  function Without(keys: set<Key>, r: Removal): set<Key> {
    set k | k in keys && !Covers(r, k)
  }

  ghost function Learned(s: State, k: Key): State {
    if s.core.Connected? && s.core.started then
      s.(core := s.core.(keys := s.core.keys + {k}), dead := s.dead - iset{k},
         gate := if s.gate.Evicted? then s.gate.(cleared := s.gate.cleared - iset{k}) else s.gate)
    else s
  }

  // A capable core is told first; without its consent nothing is committed. A
  // core without the capability keeps what it has.
  ghost function EvictDone(s: State, applied: bool, ok: bool): State {
    if !s.gate.Removing? then s
    else if !Capable(s.core) then
      s.(gate := Evicted(s.gate.removal, Covered(s.gate.removal) - iset k | k in CoreKeys(s.core)))
    else
      var evicted := if ok || applied then s.core.(keys := Without(s.core.keys, s.gate.removal)) else s.core;
      s.(core := evicted, gate := if ok then Evicted(s.gate.removal, Covered(s.gate.removal)) else Free)
  }

  ghost function CommitDone(s: State): State {
    if !s.gate.Evicted? then s
    else s.(removals := s.removals + 1, store := Without(s.store, s.gate.removal),
            dead := s.dead + s.gate.cleared, gate := Free)
  }

  function ReplaceDone(s: State, sampler: nat, kept: set<Key>, useExpiry: bool, saved: bool): State {
    if sampler !in s.samplers || s.samplers[sampler].Requested? then s
    else
      var sample := s.samplers[sampler];
      var store :=
        if sample.token == s.removals && saved then Stored(s.store, kept * sample.keys, useExpiry) else s.store;
      s.(store := store, samplers := s.samplers - {sampler})
  }

  ghost function Next(s: State, step: Step): State {
    match step
    case Connect(capable) => if s.core.Disconnected? then s.(core := Connected(capable, false, {})) else s
    case Disconnect => s.(core := Disconnected)
    case Learn(k) => Learned(s, k)
    case Forget(k) => if s.core.Connected? then s.(core := s.core.(keys := s.core.keys - {k})) else s
    case ExpireStored(keys) => s.(store := s.store - keys)
    case ReadToken(id) => if id in s.samplers then s else s.(samplers := s.samplers[id := Requested(s.removals)])
    case Take(id) =>
      if id in s.samplers && s.samplers[id].Requested? && s.core.Connected?
      then s.(samplers := s.samplers[id := Sampled(s.samplers[id].token, s.core.keys)]) else s
    case Drop(id) => s.(samplers := s.samplers - {id})
    case Replace(id, kept, useExpiry, saved) => ReplaceDone(s, id, kept, useExpiry, saved)
    case BeginRemoval(r) => if s.gate == Free then s.(gate := Removing(r)) else s
    case Evict(applied, ok) => EvictDone(s, applied, ok)
    case Commit => CommitDone(s)
    case BeginStart(seeded) => if s.gate == Free then s.(gate := Seeding(if seeded then s.store else {})) else s
    case StartCore(ok) =>
      if !s.gate.Seeding? then s
      else if s.core.Connected? && ok then s.(core := s.core.(started := true, keys := s.gate.seeds), gate := Free)
      else s.(gate := Free)
    case StopCore => if s.core.Connected? then s.(core := Connected(s.core.capable, false, {})) else s
  }

  ghost function After(s: State, steps: seq<Step>): State
    decreases |steps|
  {
    if steps == [] then s else After(Next(s, steps[0]), steps[1..])
  }

  // A run takes its steps in turn, all of them.
  lemma {:induction false} RunTakesEveryStep(s: State, steps: seq<Step>, last: Step)
    ensures After(s, []) == s && After(s, steps + [last]) == Next(After(s, steps), last)
    decreases |steps|
  {
    if steps == [] {
      assert After(s, [last]) == After(Next(s, last), []);
    } else {
      RunTakesEveryStep(Next(s, steps[0]), steps[1..], last);
      assert (steps + [last])[1..] == steps[1..] + [last];
    }
  }

  // ---- invariants ----

  // What is dead is in neither set, nor in any sample that could still be used.
  ghost predicate Sound(s: State) {
    && (forall k | k in s.dead :: k !in s.store && k !in CoreKeys(s.core))
    && (s.gate.Evicted? ==> forall k | k in s.gate.cleared :: Covers(s.gate.removal, k) && k !in CoreKeys(s.core))
    && (s.gate.Seeding? ==> forall k | k in s.dead :: k !in s.gate.seeds)
    && (forall id | id in s.samplers :: s.samplers[id].token <= s.removals)
    && (forall id, k | id in s.samplers && s.samplers[id].Sampled? &&
                       s.samplers[id].token == s.removals && k in s.dead ::
          k !in s.samplers[id].keys)
  }

  lemma StepKeepsSound(s: State, step: Step)
    requires Sound(s)
    ensures Sound(Next(s, step))
  {
  }

  lemma {:induction false} RunKeepsSound(s: State, steps: seq<Step>)
    requires Sound(s)
    ensures Sound(After(s, steps))
    decreases |steps|
  {
    if steps != [] {
      StepKeepsSound(s, steps[0]);
      RunKeepsSound(Next(s, steps[0]), steps[1..]);
    }
  }

  // ---- main results ----

  predicate Learns(steps: seq<Step>, k: Key) {
    exists i :: 0 <= i < |steps| && steps[i] == Learn(k)
  }

  lemma {:induction false} DeadUntilLearned(s: State, steps: seq<Step>, k: Key)
    requires Sound(s) && k in s.dead && !Learns(steps, k)
    ensures k in After(s, steps).dead
    decreases |steps|
  {
    if steps != [] {
      assert steps[0] != Learn(k);
      StepKeepsSound(s, steps[0]);
      LearnsTail(steps, k);
      DeadUntilLearned(Next(s, steps[0]), steps[1..], k);
    }
  }

  lemma LearnsTail(steps: seq<Step>, k: Key)
    requires steps != [] && !Learns(steps, k)
    ensures !Learns(steps[1..], k)
  {
  }

  lemma {:induction false} ClearedUntilLearned(s: State, steps: seq<Step>, k: Key)
    requires Sound(s) && s.gate.Evicted? && k in s.gate.cleared
    requires !Learns(steps, k) && Commit !in steps
    ensures var t := After(s, steps);
            t.gate.Evicted? && t.gate.removal == s.gate.removal && k in t.gate.cleared
    decreases |steps|
  {
    if steps != [] {
      assert steps[0] in steps;
      assert steps[0] != Learn(k);
      StepKeepsSound(s, steps[0]);
      LearnsTail(steps, k);
      ClearedUntilLearned(Next(s, steps[0]), steps[1..], k);
    }
  }

  // When a removal can be undone by the core alone: it still has the record and
  // cannot be told to drop it.
  predicate CannotEvict(core: Core, k: Key) {
    !Capable(core) && k in CoreKeys(core)
  }

  // A removed record comes back only if the core learned it again after the
  // eviction, in every interleaving with samplers, starts and reconnections.
  lemma RemovedStaysRemoved(start: State, history: seq<Step>, k: Key, between: seq<Step>, later: seq<Step>)
    requires Initial(start)
    requires var s := After(start, history);
             s.gate.Removing? && Covers(s.gate.removal, k) && !CannotEvict(s.core, k)
    requires !Learns(between, k) && Commit !in between && !Learns(later, k)
    ensures var evicted := Next(After(start, history), Evict(true, true));
            k !in After(CommitDone(After(evicted, between)), later).store
  {
    RunKeepsSound(start, history);
    var s := After(start, history);
    var evicted := Next(s, Evict(true, true));
    StepKeepsSound(s, Evict(true, true));
    ClearedUntilLearned(evicted, between, k);
    RunKeepsSound(evicted, between);
    var committed := CommitDone(After(evicted, between));
    StepKeepsSound(After(evicted, between), Commit);
    DeadUntilLearned(committed, later, k);
    RunKeepsSound(committed, later);
  }

  // Otherwise the next sample brings it back, though the core learned nothing.
  lemma IncapableCoreRestores(s: State, k: Key, sampler: nat, useExpiry: bool)
    requires s.gate.Removing? && Covers(s.gate.removal, k) && CannotEvict(s.core, k)
    requires sampler !in s.samplers
    ensures var removed := CommitDone(EvictDone(s, true, true));
            var sampled := Next(Next(removed, ReadToken(sampler)), Take(sampler));
            k !in removed.store && k in Next(sampled, Replace(sampler, {k}, useExpiry, true)).store
  {
  }

  // ---- what nothing interrupts ----

  // A sample stores what it keeps of what the core holds: instead of the records
  // with expiry, besides them without, and not at all if the file cannot be
  // written.
  lemma UninterruptedSample(s: State, id: nat, kept: set<Key>, useExpiry: bool, saved: bool)
    requires id !in s.samplers && s.core.Connected?
    ensures var t := Next(Next(Next(s, ReadToken(id)), Take(id)), Replace(id, kept, useExpiry, saved));
            && t.store == (if !saved then s.store
                           else if useExpiry then kept * s.core.keys
                           else s.store + kept * s.core.keys)
            && t == s.(store := t.store)
  {
  }

  // One that a removal overtakes stores nothing.
  lemma OutdatedSample(s: State, id: nat, kept: set<Key>, useExpiry: bool, saved: bool)
    requires id !in s.samplers && s.core.Connected? && s.gate.Evicted?
    ensures var committed := Next(Next(Next(s, ReadToken(id)), Take(id)), Commit);
            Next(committed, Replace(id, kept, useExpiry, saved)).store == Next(s, Commit).store
  {
  }

  // A removal takes what it covers from the store and from a core that can be
  // told, and leaves everything else; a core that cannot keeps all it has.
  lemma UninterruptedRemoval(s: State, removal: Removal, applied: bool, k: Key)
    requires s.gate == Free
    ensures var t := Next(Next(Next(s, BeginRemoval(removal)), Evict(applied, true)), Commit);
            && t.gate == Free && t.removals == s.removals + 1 && t.samplers == s.samplers
            && (k in t.store <==> k in s.store && removal != Clear && removal != One(k))
            && match s.core
               case Disconnected => t.core == s.core
               case Connected(capable, started, keys) =>
                 && t.core == Connected(capable, started, t.core.keys)
                 && (k in t.core.keys <==> k in keys && (capable ==> removal != Clear && removal != One(k)))
  {
  }

  // A core that is told and refuses leaves the records, whether or not it has
  // forgotten them itself.
  lemma RefusedRemoval(s: State, removal: Removal, applied: bool, k: Key)
    requires s.gate == Free && s.core.Connected? && s.core.capable
    ensures var t := Next(Next(s, BeginRemoval(removal)), Evict(applied, false));
            && t.gate == Free && t.store == s.store && t.removals == s.removals && t.core.Connected?
            && (k in t.core.keys <==> k in s.core.keys && (applied ==> removal != Clear && removal != One(k)))
  {
  }

  // A seeded start gives the core the stored records, another one none, and a
  // started core learns.
  lemma UninterruptedStart(s: State, seeded: bool, k: Key)
    requires s.gate == Free && s.core.Connected?
    ensures var t := Next(Next(s, BeginStart(seeded)), StartCore(true));
            && t.gate == Free && t.store == s.store
            && t.core == Connected(s.core.capable, true, if seeded then s.store else {})
            && Next(t, Learn(k)).core.keys == t.core.keys + {k}
            && Next(t, Forget(k)).core.keys == t.core.keys - {k}
            && Next(t, StopCore).core == Connected(s.core.capable, false, {})
  {
  }

  // A core that is not running learns nothing, a start that fails changes nothing,
  // a new connection finds an empty core, and a second one none.
  lemma IdleCore(s: State, seeded: bool, capable: bool, k: Key)
    requires s.gate == Free
    ensures s.core.Connected? && !s.core.started ==> Next(s, Learn(k)) == s
    ensures Next(Next(s, BeginStart(seeded)), StartCore(false)) == s
    ensures s.core == Disconnected ==> Next(s, Connect(capable)) == s.(core := Connected(capable, false, {}))
    ensures s.core != Disconnected ==> Next(s, Connect(capable)) == s
  {
  }

  // A sampler reads its token once and the core's set once.
  lemma SamplerReadsOnce(s: State, id: nat)
    requires id in s.samplers
    ensures Next(s, ReadToken(id)) == s
    ensures s.samplers[id].Sampled? ==> Next(s, Take(id)) == s
  {
  }

  // Only a removal or expiry takes a record from the store.
  predicate Keeps(step: Step) {
    match step
    case BeginRemoval(_) => false
    case ExpireStored(_) => false
    case Replace(_, _, useExpiry, _) => !useExpiry
    case _ => true
  }

  // After a core has refused an eviction, no record is lost and no sample is
  // outdated until the user removes again or expiry takes its turn.
  lemma RefusedRemovalLosesNothing(s: State, applied: bool, later: seq<Step>)
    requires s.gate.Removing? && Capable(s.core)
    requires forall i | 0 <= i < |later| :: Keeps(later[i])
    ensures var refused := EvictDone(s, applied, false);
            refused.store == s.store && refused.removals == s.removals && CommitDone(refused) == refused
    ensures var t := After(EvictDone(s, applied, false), later);
            s.store <= t.store && t.removals == s.removals
  {
    NothingIsLost(EvictDone(s, applied, false), later);
  }

  lemma {:induction false} NothingIsLost(s: State, steps: seq<Step>)
    requires !s.gate.Removing? && !s.gate.Evicted?
    requires forall i | 0 <= i < |steps| :: Keeps(steps[i])
    ensures s.store <= After(s, steps).store && After(s, steps).removals == s.removals
    decreases |steps|
  {
    if steps != [] {
      assert Keeps(steps[0]);
      NothingIsLost(Next(s, steps[0]), steps[1..]);
    }
  }
}
