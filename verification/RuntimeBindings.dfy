/**
 runtime_bindings.go with Start, Stop and stopLocked of engine.go: the automatic
 rebinding of a running session, interleaved with explicit starts and stops.
 Each step is one region under the service mutex, or one outcome of the work a
 holder of the lifecycle gate does between two regions.
 */
module RuntimeBindings {
  import opened Options

  // ---- has a binding gone stale ----

  datatype Adapter = Adapter(
    id: string, name: string, address: string, sourceIPv6: string,
    ifIndex: int, ipv6IfIndex: int, dnsServers: seq<string>,
    operational: bool, selected: bool)

  predicate Usable(adapter: Adapter) {
    adapter.operational && (adapter.address != "" || adapter.sourceIPv6 != "")
  }

  predicate SameBinding(a: Adapter, b: Adapter) {
    && a.name == b.name && a.address == b.address && a.sourceIPv6 == b.sourceIPv6
    && a.ifIndex == b.ifIndex && a.ipv6IfIndex == b.ipv6IfIndex && a.dnsServers == b.dnsServers
  }

  // An adapter is usable with either address, and a binding is the same if the
  // adapters differ in nothing but their id and what a scan may choose.
  lemma BindingFields(a: Adapter, b: Adapter)
    ensures Usable(a) <==> a.operational && !(|a.address| == 0 && |a.sourceIPv6| == 0)
    ensures SameBinding(a, b) <==> a == b.(id := a.id, operational := a.operational, selected := a.selected)
  {
  }

  // The adapter a scan reports under an id: the last one, should it repeat.
  function Reported(available: seq<Adapter>, id: string): Option<Adapter> {
    if available == [] then None
    else if available[|available| - 1].id == id then Some(available[|available| - 1])
    else Reported(available[..|available| - 1], id)
  }

  predicate Lost(previous: Adapter, available: seq<Adapter>) {
    var next := Reported(available, previous.id);
    next.None? || !Usable(next.value)
  }

  predicate Rebound(previous: Adapter, available: seq<Adapter>) {
    !Lost(previous, available) && !SameBinding(previous, Reported(available, previous.id).value)
  }

  predicate Joined(next: Adapter, previous: seq<Adapter>) {
    next.selected && Usable(next) && forall i | 0 <= i < |previous| :: previous[i].id != next.id
  }

  // A restart is due iff a binding moved or a selected adapter is not bound; a
  // lost adapter alone only makes the refresh wait.
  method RuntimeBindingsChanged(previous: seq<Adapter>, available: seq<Adapter>)
    returns (changed: bool, missing: Option<string>)
    ensures changed <==>
            || (exists i | 0 <= i < |previous| :: Rebound(previous[i], available))
            || (exists i | 0 <= i < |available| :: Joined(available[i], previous))
    ensures missing.Some? <==> !changed && exists i | 0 <= i < |previous| :: Lost(previous[i], available)
    ensures missing.Some? ==> exists i | 0 <= i < |previous| ::
                                Lost(previous[i], available) && previous[i].name == missing.value
  {
    var current: map<string, Adapter> := map[];
    for i := 0 to |available|
      invariant forall id :: (if id in current then Some(current[id]) else None) == Reported(available[..i], id)
    {
      assert available[..i + 1][..i] == available[..i];
      current := current[available[i].id := available[i]];
    }
    assert available[..|available|] == available;
    changed, missing := false, None;
    var installed: set<string> := {};
    for i := 0 to |previous|
      invariant changed <==> exists k | 0 <= k < i :: Rebound(previous[k], available)
      invariant missing.Some? <==> exists k | 0 <= k < i :: Lost(previous[k], available)
      invariant missing.Some? ==> exists k | 0 <= k < i ::
                                    Lost(previous[k], available) && previous[k].name == missing.value
      invariant installed == set k | 0 <= k < i :: previous[k].id
    {
      var before := previous[i];
      assert Reported(available, before.id) == if before.id in current then Some(current[before.id]) else None;
      installed := installed + {before.id};
      if before.id !in current || !Usable(current[before.id]) {
        missing := Some(before.name);
        assert Lost(previous[i], available);
      } else {
        changed := changed || !SameBinding(before, current[before.id]);
        assert !Lost(previous[i], available);
      }
    }
    ghost var rebound := changed;
    for i := 0 to |available|
      invariant changed <==> rebound || exists k | 0 <= k < i :: Joined(available[k], previous)
    {
      assert Joined(available[i], previous) <==>
          available[i].selected && Usable(available[i]) && available[i].id !in installed;
      if available[i].selected && Usable(available[i]) && available[i].id !in installed {
        changed := true;
      }
    }
    if changed {
      missing := None;
    }
  }

  // ---- the protocol ----

  datatype RefreshPhase =
    | Launched
    | Scanning
    | Deciding
    | Cleaning
    | Cleaned(ok: bool)
    | Restarting
    | Committing
    | Restarted
    | Finishing
    | Leaving

  datatype StartPhase = Preparing | Starting | StartEnding

  datatype StopPhase = Stopping | StopCleaned | StopEnding

  datatype Gate =
    | Free
    | ByRefresh(refresh: RefreshPhase)
    | ByStart(start: StartPhase)
    | ByStop(stop: StopPhase)
    | ByOther

  // running: a startup has committed and no stop has succeeded since. refreshing
  // and cancelled are runtimeBindingRefresh and the state of its context.
  datatype State = State(
    gate: Gate,
    enabled: bool,
    recovery: bool,
    bindings: bool,
    refreshing: bool,
    cancelled: bool,
    closing: bool,
    running: bool,
    waitingStarts: nat,
    waitingStops: nat)

  const IDLE := State(Free, false, false, false, false, false, false, false, 0, 0)

  datatype Step =
    | Tick
    | CancelForStart
    | CancelForStop
    | StartEnters
    | StopEnters
    | StartTimesOut
    | StopTimesOut
    | RefreshTimesOut
    | OtherEnters
    | OtherLeaves
    | Closing
    | Advance(favourable: bool)

  // cancelRuntimeBindingRefresh.
  function Cancelled(s: State): State {
    s.(enabled := false, recovery := false, cancelled := s.refreshing)
  }

  // scheduleRuntimeBindingRefresh.
  function Scheduled(s: State): State {
    if !s.enabled || s.closing || s.refreshing || !s.bindings || s.gate != Free then s
    else s.(gate := ByRefresh(Launched), refreshing := true, cancelled := false)
  }

  // The commit at the end of startLocked.
  function Committed(s: State): State {
    s.(enabled := true, bindings := true, running := true)
  }

  // The closing region of stopLocked: the guard decides whether monitoring ends.
  predicate StopEndsMonitoring(s: State) {
    !s.recovery || !s.enabled
  }

  function StopSettled(s: State): State {
    if StopEndsMonitoring(s) then s.(bindings := false, enabled := false, recovery := false) else s
  }

  function RefreshAdvanced(s: State, phase: RefreshPhase, favourable: bool): State {
    match phase
    case Launched =>
      s.(gate := ByRefresh(if s.closing || !s.enabled || !s.bindings then Finishing else Scanning))
    case Scanning =>
      s.(gate := ByRefresh(if s.cancelled || !favourable then Finishing else Deciding))
    case Deciding =>
      if !s.enabled || s.closing || s.cancelled then s.(gate := ByRefresh(Finishing))
      else s.(recovery := true, gate := ByRefresh(Cleaning))
    case Cleaning => s.(running := s.running && !favourable, gate := ByRefresh(Cleaned(favourable)))
    case Cleaned(ok) =>
      StopSettled(s).(gate := ByRefresh(if !ok || s.cancelled then Finishing else Restarting))
    case Restarting =>
      s.(gate := ByRefresh(if s.cancelled || s.closing || !favourable then Finishing else Committing))
    case Committing =>
      if s.cancelled then s.(gate := ByRefresh(Finishing)) else Committed(s).(gate := ByRefresh(Restarted))
    case Restarted => s.(recovery := false, gate := ByRefresh(Finishing))
    case Finishing => s.(refreshing := false, cancelled := false, gate := ByRefresh(Leaving))
    case Leaving => s.(gate := Free)
  }

  function StartAdvanced(s: State, phase: StartPhase, favourable: bool): State {
    match phase
    case Preparing => s.(gate := ByStart(if s.closing || !favourable then StartEnding else Starting))
    case Starting =>
      if favourable then Committed(s).(gate := ByStart(StartEnding)) else s.(gate := ByStart(StartEnding))
    case StartEnding => s.(gate := Free)
  }

  function StopAdvanced(s: State, phase: StopPhase, favourable: bool): State {
    match phase
    case Stopping => s.(running := s.running && !favourable, gate := ByStop(StopCleaned))
    case StopCleaned => StopSettled(s).(gate := ByStop(StopEnding))
    case StopEnding => s.(gate := Free)
  }

  // The next region or outcome of whoever holds the gate.
  function Advanced(s: State, favourable: bool): State {
    match s.gate
    case ByRefresh(phase) => RefreshAdvanced(s, phase, favourable)
    case ByStart(phase) => StartAdvanced(s, phase, favourable)
    case ByStop(phase) => StopAdvanced(s, phase, favourable)
    case _ => s
  }

  // What everybody else does.
  function Elsewhere(s: State, step: Step): State {
    match step
    case Tick => Scheduled(s)
    case CancelForStart => Cancelled(s).(waitingStarts := s.waitingStarts + 1)
    case CancelForStop => Cancelled(s).(waitingStops := s.waitingStops + 1)
    case StartEnters =>
      if s.gate == Free && s.waitingStarts > 0
      then s.(gate := ByStart(Preparing), waitingStarts := s.waitingStarts - 1) else s
    case StopEnters =>
      if s.gate == Free && s.waitingStops > 0
      then s.(gate := ByStop(Stopping), waitingStops := s.waitingStops - 1) else s
    case StartTimesOut => if s.waitingStarts > 0 then s.(waitingStarts := s.waitingStarts - 1) else s
    case StopTimesOut => if s.waitingStops > 0 then s.(waitingStops := s.waitingStops - 1) else s
    case RefreshTimesOut => s.(cancelled := s.refreshing)
    case OtherEnters => if s.gate == Free then s.(gate := ByOther) else s
    case OtherLeaves => if s.gate == ByOther then s.(gate := Free) else s
    case Closing => s.(closing := true)
    case Advance(_) => s
  }

  function Next(s: State, step: Step): State {
    if step.Advance? then Advanced(s, step.favourable) else Elsewhere(s, step)
  }

  function After(s: State, steps: seq<Step>): State
    decreases |steps|
  {
    if steps == [] then s else After(Next(s, steps[0]), steps[1..])
  }

  // A run takes its steps in turn, all of them.
  lemma {:induction false} RunTakesEveryStep(s: State, steps: seq<Step>, last: Step)
    ensures After(s, []) == s && After(s, steps + [last]) == Next(After(s, steps), last)
    decreases |steps|
  {
    if steps == [] {
      assert After(s, [last]) == After(Next(s, last), []);
    } else {
      RunTakesEveryStep(Next(s, steps[0]), steps[1..], last);
      assert (steps + [last])[1..] == steps[1..] + [last];
    }
  }

  // The one step that is an explicit start committing.
  predicate ExplicitCommit(s: State, step: Step) {
    step == Advance(true) && s.gate == ByStart(Starting)
  }

  predicate CommitFree(s: State, steps: seq<Step>)
    decreases |steps|
  {
    steps == [] || (!ExplicitCommit(s, steps[0]) && CommitFree(Next(s, steps[0]), steps[1..]))
  }

  // ---- invariants ----

  // A refresh holds the gate as long as its flag is set.
  ghost predicate Sound(s: State) {
    && (s.refreshing <==> s.gate.ByRefresh? && s.gate.refresh != Leaving)
    && (s.cancelled ==> s.refreshing)
  }

  lemma RefreshKeepsSound(s: State, phase: RefreshPhase, favourable: bool)
    requires Sound(s) && s.gate == ByRefresh(phase)
    ensures Sound(RefreshAdvanced(s, phase, favourable))
  {
  }

  lemma ExplicitKeepsSound(s: State, favourable: bool)
    requires Sound(s)
    ensures s.gate.ByStart? ==> Sound(StartAdvanced(s, s.gate.start, favourable))
    ensures s.gate.ByStop? ==> Sound(StopAdvanced(s, s.gate.stop, favourable))
  {
  }

  lemma StepKeepsSound(s: State, step: Step)
    requires Sound(s)
    ensures Sound(Next(s, step))
  {
    if step.Advance? {
      ExplicitKeepsSound(s, step.favourable);
      if s.gate.ByRefresh? {
        RefreshKeepsSound(s, s.gate.refresh, step.favourable);
      }
    }
  }

  lemma {:induction false} RunKeepsSound(s: State, steps: seq<Step>)
    requires Sound(s)
    ensures Sound(After(s, steps))
    decreases |steps|
  {
    if steps != [] {
      StepKeepsSound(s, steps[0]);
      RunKeepsSound(Next(s, steps[0]), steps[1..]);
    }
  }

  // Monitoring is off and no refresh has the power to turn it on again.
  ghost predicate Quiet(s: State) {
    !s.enabled && !s.recovery && (s.refreshing ==> s.cancelled)
  }

  lemma QuietStep(s: State, step: Step)
    requires Sound(s) && Quiet(s) && !ExplicitCommit(s, step)
    ensures Quiet(Next(s, step)) && (Next(s, step).running ==> s.running)
  {
  }

  // From quiet on, only an explicit start brings the engine up.
  lemma {:induction false} OnlyAnExplicitStart(s: State, steps: seq<Step>)
    requires Sound(s) && Quiet(s) && CommitFree(s, steps)
    ensures Quiet(After(s, steps))
    ensures After(s, steps).running ==> s.running
    decreases |steps|
  {
    if steps != [] {
      QuietStep(s, steps[0]);
      StepKeepsSound(s, steps[0]);
      OnlyAnExplicitStart(Next(s, steps[0]), steps[1..]);
    }
  }

  // ---- what nothing interrupts ----

  function Favoured(s: State, n: nat): State
    decreases n
  {
    if n == 0 then s else Favoured(Next(s, Advance(true)), n - 1)
  }

  lemma {:induction false} FavouredJoin(s: State, m: nat, n: nat)
    ensures Favoured(Favoured(s, m), n) == Favoured(s, m + n)
    decreases m
  {
    if m > 0 {
      FavouredJoin(Next(s, Advance(true)), m - 1, n);
    }
  }

  // A running session that is monitored and can be refreshed now.
  predicate CanRefresh(s: State) {
    s.gate == Free && s.enabled && s.bindings && !s.closing && !s.refreshing && !s.cancelled
  }

  // The regions before the session is stopped, and from then on.
  lemma RefreshReachesCleaning(s: State)
    requires CanRefresh(s)
    ensures Favoured(Next(s, Tick), 3) == s.(gate := ByRefresh(Cleaning), refreshing := true, recovery := true)
    ensures Favoured(Next(s, Tick), 5) ==
            s.(gate := ByRefresh(Restarting), refreshing := true, recovery := true, running := false)
  {
    var launched := Next(s, Tick);
    FavouredJoin(launched, 3, 2);
    assert Next(launched, Advance(true)).gate == ByRefresh(Scanning);
    assert Next(Next(launched, Advance(true)), Advance(true)).gate == ByRefresh(Deciding);
    var cleaning := s.(gate := ByRefresh(Cleaning), refreshing := true, recovery := true);
    FavouredTwo(cleaning);
  }

  lemma FavouredTwo(s: State)
    ensures Favoured(s, 2) == Next(Next(s, Advance(true)), Advance(true))
  {
    assert Favoured(s, 2) == Favoured(Next(s, Advance(true)), 1);
  }

  lemma FavouredCommit(s: State)
    requires s.gate == ByRefresh(Restarting) && s.refreshing && !s.cancelled && !s.closing
    ensures Favoured(s, 2) == Committed(s).(gate := ByRefresh(Restarted))
  {
    FavouredTwo(s);
  }

  lemma FavouredEnd(s: State)
    requires s.gate == ByRefresh(Restarted)
    ensures Favoured(s, 3) == s.(recovery := false, refreshing := false, cancelled := false, gate := Free)
  {
    assert Favoured(s, 3) == Favoured(Next(s, Advance(true)), 2);
    FavouredTwo(Next(s, Advance(true)));
  }

  // A tick of a monitored session, a scan that finds a binding moved, a clean stop
  // and a restart that succeeds: the session runs again, monitored as before, and
  // nothing is left to recover.
  lemma UninterruptedRefresh(s: State)
    requires CanRefresh(s)
    ensures Favoured(Next(s, Tick), 10) == s.(running := true, recovery := false)
  {
    RefreshReachesCleaning(s);
    FavouredCommit(Favoured(Next(s, Tick), 5));
    FavouredJoin(Next(s, Tick), 5, 2);
    FavouredEnd(Favoured(Next(s, Tick), 7));
    FavouredJoin(Next(s, Tick), 7, 3);
  }

  // If the scan finds nothing, nothing changes.
  lemma UnchangedScan(s: State)
    requires CanRefresh(s)
    ensures Favoured(Next(Favoured(Next(s, Tick), 1), Advance(false)), 2) == s
  {
    var scanning := Favoured(Next(s, Tick), 1);
    assert scanning.gate == ByRefresh(Scanning);
    var finishing := Next(scanning, Advance(false));
    FavouredTwo(finishing);
  }

  // If the restart fails the session is down but still monitored, the recovery
  // stays recorded, and the next tick can bring it back.
  lemma FailedRestartIsRetried(s: State)
    requires CanRefresh(s)
    ensures var failed := Favoured(Next(Favoured(Next(s, Tick), 5), Advance(false)), 2);
            && failed == s.(running := false, recovery := true)
            && Favoured(Next(failed, Tick), 10) == s.(running := true, recovery := false)
  {
    RefreshReachesCleaning(s);
    var finishing := Next(Favoured(Next(s, Tick), 5), Advance(false));
    assert finishing.gate == ByRefresh(Finishing);
    FavouredTwo(finishing);
    UninterruptedRefresh(s.(running := false, recovery := true));
  }

  // An explicit start brings the engine up and turns monitoring on.
  lemma UninterruptedStart(s: State)
    requires s.gate == Free && !s.refreshing && !s.cancelled && !s.closing
    ensures Favoured(Next(Next(s, CancelForStart), StartEnters), 3) ==
            s.(enabled := true, bindings := true, running := true, recovery := false)
  {
    var preparing := Next(Next(s, CancelForStart), StartEnters);
    assert Favoured(preparing, 3) == Favoured(Next(Next(preparing, Advance(true)), Advance(true)), 1);
  }

  // An explicit stop takes it down and turns everything off.
  lemma UninterruptedStop(s: State)
    requires s.gate == Free && !s.refreshing && !s.cancelled
    ensures Favoured(Next(Next(s, CancelForStop), StopEnters), 3) ==
            s.(enabled := false, bindings := false, running := false, recovery := false)
  {
    var stopping := Next(Next(s, CancelForStop), StopEnters);
    assert Favoured(stopping, 3) == Favoured(Next(Next(stopping, Advance(true)), Advance(true)), 1);
  }

  // ---- what interrupts ----

  // A cancelled refresh begins no further work: wherever it is between two pieces
  // of work, its next region ends it and leaves the engine as it is.
  lemma CancelledRefreshEnds(s: State, phase: RefreshPhase, favourable: bool)
    requires s.gate == ByRefresh(phase) && s.cancelled
    requires phase.Cleaned? || phase in {Scanning, Deciding, Restarting, Committing}
    ensures var t := Next(s, Advance(favourable));
            t.gate == ByRefresh(Finishing) && t.running == s.running && (t.enabled ==> s.enabled)
  {
  }

  // Neither does one whose work fails, or that finds nothing to refresh.
  lemma FailedRefreshEnds(s: State, phase: RefreshPhase)
    requires s.gate == ByRefresh(phase)
    requires || phase in {Scanning, Restarting, Cleaned(false)}
             || (phase == Launched && !(s.enabled && s.bindings))
    ensures var t := Next(s, Advance(false));
            t.gate == ByRefresh(Finishing) && t.running == s.running && (t.enabled ==> s.enabled)
  {
  }

  // Nor one that finds the program closing.
  lemma ClosingRefreshEnds(s: State, phase: RefreshPhase, favourable: bool)
    requires s.gate == ByRefresh(phase) && s.closing && phase in {Launched, Deciding, Restarting}
    ensures Next(s, Advance(favourable)) == s.(gate := ByRefresh(Finishing))
  {
  }

  // A start whose preparation or startup fails changes nothing but the gate.
  lemma FailedStart(s: State, prepared: bool)
    requires s.gate == ByStart(Preparing) && !s.closing
    ensures var failed := Next(if prepared then Next(s, Advance(true)) else s, Advance(false));
            Next(failed, Advance(true)) == s.(gate := Free)
  {
    if prepared {
      FailedStartup(Next(s, Advance(true)));
    }
  }

  lemma FailedStartup(s: State)
    requires s.gate == ByStart(Starting)
    ensures Next(Next(s, Advance(false)), Advance(true)) == s.(gate := Free)
  {
  }

  // A start or stop that gives up waiting has only cancelled, and whoever else
  // holds the gate lets nobody in meanwhile and changes nothing.
  lemma GivingUpOnlyCancels(s: State)
    ensures Next(Next(s, CancelForStart), StartTimesOut) == Cancelled(s)
    ensures Next(Next(s, CancelForStop), StopTimesOut) == Cancelled(s)
    ensures s.gate == Free ==> Next(Next(s, OtherEnters), OtherLeaves) == s
    ensures s.gate == ByOther ==> forall step | step in {Tick, StartEnters, StopEnters, OtherEnters, Advance(true)} ::
                                    Next(s, step) == s
  {
  }

  predicate CommitsNext(gate: Gate) {
    match gate
    case ByStart(phase) => phase.Starting?
    case ByRefresh(phase) => phase.Committing?
    case _ => false
  }

  predicate AboutToCommit(s: State) {
    CommitsNext(s.gate)
  }

  // Once the program closes, and no startup is about to commit, no run brings the
  // engine up.
  lemma ClosingIsFinal(s: State, steps: seq<Step>)
    requires Sound(s) && !AboutToCommit(s)
    ensures var t := After(Next(s, Closing), steps);
            t.closing && (t.running ==> s.running)
  {
    ClosedRun(Next(s, Closing), steps);
  }

  lemma {:induction false} ClosedRun(s: State, steps: seq<Step>)
    requires Sound(s) && s.closing && !AboutToCommit(s)
    ensures After(s, steps).closing && (After(s, steps).running ==> s.running)
    decreases |steps|
  {
    if steps != [] {
      StepKeepsSound(s, steps[0]);
      ClosedStep(s, steps[0]);
      ClosedRun(Next(s, steps[0]), steps[1..]);
    }
  }

  lemma ClosedStep(s: State, step: Step)
    requires s.closing && !AboutToCommit(s)
    ensures Next(s, step).closing && !AboutToCommit(Next(s, step)) && (Next(s, step).running ==> s.running)
  {
    if !step.Advance? {
      ClosedElsewhere(s, step);
    } else if s.gate.ByRefresh? {
      ClosedRefresh(s, s.gate.refresh, step.favourable);
    } else if s.gate.ByStart? {
      ClosedStart(s, s.gate.start, step.favourable);
    }
  }

  ghost predicate StaysClosed(s: State, t: State) {
    t.closing && !AboutToCommit(t) && (t.running ==> s.running)
  }

  lemma ClosedElsewhere(s: State, step: Step)
    requires s.closing && !AboutToCommit(s)
    ensures StaysClosed(s, Elsewhere(s, step))
  {
    if step in {StartEnters, StopEnters, OtherEnters, OtherLeaves, Tick} {
      ClosedEntries(s, step);
    } else {
      ClosedSignals(s, step);
    }
  }

  lemma ClosedEntries(s: State, step: Step)
    requires s.closing && !AboutToCommit(s) && step in {StartEnters, StopEnters, OtherEnters, OtherLeaves, Tick}
    ensures StaysClosed(s, Elsewhere(s, step))
  {
  }

  lemma ClosedSignals(s: State, step: Step)
    requires s.closing && !AboutToCommit(s) && step !in {StartEnters, StopEnters, OtherEnters, OtherLeaves, Tick}
    ensures StaysClosed(s, Elsewhere(s, step))
  {
  }

  lemma ClosedRefresh(s: State, phase: RefreshPhase, favourable: bool)
    requires s.closing && !phase.Committing?
    ensures StaysClosed(s, RefreshAdvanced(s, phase, favourable))
  {
    if phase in {Launched, Scanning, Deciding} {
      EarlyPhases(s, phase, favourable);
    } else if phase in {Restarted, Finishing, Leaving} {
      LatePhases(s, phase, favourable);
    } else {
      MiddlePhases(s, phase, favourable);
    }
  }

  lemma EarlyPhases(s: State, phase: RefreshPhase, favourable: bool)
    requires s.closing && phase in {Launched, Scanning, Deciding}
    ensures StaysClosed(s, RefreshAdvanced(s, phase, favourable))
  {
  }

  lemma MiddlePhases(s: State, phase: RefreshPhase, favourable: bool)
    requires s.closing && (phase.Cleaned? || phase.Cleaning? || phase.Restarting?)
    ensures StaysClosed(s, RefreshAdvanced(s, phase, favourable))
  {
  }

  lemma LatePhases(s: State, phase: RefreshPhase, favourable: bool)
    requires s.closing && phase in {Restarted, Finishing, Leaving}
    ensures StaysClosed(s, RefreshAdvanced(s, phase, favourable))
  {
  }

  lemma ClosedStart(s: State, phase: StartPhase, favourable: bool)
    requires s.closing && !phase.Starting?
    ensures StaysClosed(s, StartAdvanced(s, phase, favourable))
  {
  }

  // ---- main results ----

  // An explicit stop wins over every refresh, running or scheduled later, in
  // each interleaving where no explicit start commits after its cancellation:
  // monitoring is off, and once the stop has stopped the engine it stays down.
  lemma StopWins(history: seq<Step>, waiting: seq<Step>, stopped: bool, later: seq<Step>)
    requires var s := Next(After(IDLE, history), CancelForStop);
             && CommitFree(s, waiting)
             && After(s, waiting).gate == ByStop(Stopping)
             && CommitFree(Next(After(s, waiting), Advance(stopped)), later)
    ensures var s := After(Next(After(Next(After(IDLE, history), CancelForStop), waiting), Advance(stopped)), later);
            Quiet(s) && (stopped ==> !s.running)
  {
    RunKeepsSound(IDLE, history);
    var cancelled := Next(After(IDLE, history), CancelForStop);
    OnlyAnExplicitStart(cancelled, waiting);
    RunKeepsSound(cancelled, waiting);
    var stopping := After(cancelled, waiting);
    QuietStep(stopping, Advance(stopped));
    StepKeepsSound(stopping, Advance(stopped));
    OnlyAnExplicitStart(Next(stopping, Advance(stopped)), later);
  }

  // The step by which a tick gives the gate to a refresh.
  predicate TakesGate(s: State, step: Step) {
    step == Tick && Scheduled(s) != s
  }

  predicate RefreshFree(s: State, steps: seq<Step>)
    decreases |steps|
  {
    steps == [] || (!TakesGate(s, steps[0]) && RefreshFree(Next(s, steps[0]), steps[1..]))
  }

  // No refresh has the power to record a recovery, though monitoring may be on.
  ghost predicate Powerless(s: State) {
    !s.recovery && (s.refreshing ==> s.cancelled)
  }

  lemma PowerlessStep(s: State, step: Step)
    requires Sound(s) && Powerless(s) && !TakesGate(s, step)
    ensures Powerless(Next(s, step))
  {
    if step.Advance? && s.gate.ByRefresh? {
      PowerlessRefresh(s, s.gate.refresh, step.favourable);
    }
  }

  lemma PowerlessRefresh(s: State, phase: RefreshPhase, favourable: bool)
    requires Sound(s) && Powerless(s) && s.gate == ByRefresh(phase)
    ensures Powerless(RefreshAdvanced(s, phase, favourable))
  {
  }

  lemma {:induction false} PowerlessRun(s: State, steps: seq<Step>)
    requires Sound(s) && Powerless(s) && RefreshFree(s, steps)
    ensures Powerless(After(s, steps))
    decreases |steps|
  {
    if steps != [] {
      PowerlessStep(s, steps[0]);
      StepKeepsSound(s, steps[0]);
      PowerlessRun(Next(s, steps[0]), steps[1..]);
    }
  }

  // While a stop holds the gate, the other goroutines' steps change nothing that
  // matters to it.
  lemma {:induction false} StopHoldsTheGate(s: State, between: seq<Step>)
    requires Sound(s) && Powerless(s) && s.gate == ByStop(StopCleaned)
    requires forall i | 0 <= i < |between| :: !between[i].Advance?
    ensures var t := After(s, between);
            Sound(t) && Powerless(t) && t.gate == s.gate && t.running == s.running
    decreases |between|
  {
    if between != [] {
      assert !between[0].Advance?;
      StepKeepsSound(s, between[0]);
      StopHoldsTheGate(Next(s, between[0]), between[1..]);
    }
  }

  // A stop wins even over explicit starts that commit after its cancellation,
  // unless a refresh takes the gate between such a commit and the stop's turn.
  lemma StopWinsUnlessOvertaken(
    history: seq<Step>, waiting: seq<Step>, stopped: bool, between: seq<Step>, later: seq<Step>)
    requires var s := Next(After(IDLE, history), CancelForStop);
             && RefreshFree(s, waiting)
             && After(s, waiting).gate == ByStop(Stopping)
             && (forall i | 0 <= i < |between| :: !between[i].Advance?)
             && CommitFree(Next(After(Next(After(s, waiting), Advance(stopped)), between), Advance(true)), later)
    ensures var stopping := After(Next(After(IDLE, history), CancelForStop), waiting);
            var settling := After(Next(stopping, Advance(stopped)), between);
            var s := After(Next(settling, Advance(true)), later);
            Quiet(s) && (stopped ==> !s.running)
  {
    var cancelled := Next(After(IDLE, history), CancelForStop);
    RunKeepsSound(IDLE, history);
    PowerlessRun(cancelled, waiting);
    RunKeepsSound(cancelled, waiting);
    var stopping := After(cancelled, waiting);
    StopSettles(stopping, stopped, between);
    var settled := Next(After(Next(stopping, Advance(stopped)), between), Advance(true));
    OnlyAnExplicitStart(settled, later);
  }

  lemma StopSettles(stopping: State, stopped: bool, between: seq<Step>)
    requires Sound(stopping) && Powerless(stopping) && stopping.gate == ByStop(Stopping)
    requires forall i | 0 <= i < |between| :: !between[i].Advance?
    ensures var settled := Next(After(Next(stopping, Advance(stopped)), between), Advance(true));
            Sound(settled) && Quiet(settled) && (stopped ==> !settled.running)
  {
    StopHoldsTheGate(Next(stopping, Advance(stopped)), between);
  }

  // And for a refresh to take the gate, an explicit start has to commit first.
  lemma {:induction false} RefreshNeedsACommit(s: State, steps: seq<Step>)
    requires Sound(s) && Quiet(s) && CommitFree(s, steps)
    ensures RefreshFree(s, steps)
    decreases |steps|
  {
    if steps != [] {
      QuietStep(s, steps[0]);
      StepKeepsSound(s, steps[0]);
      RefreshNeedsACommit(Next(s, steps[0]), steps[1..]);
    }
  }

  // Exactly when a stop's closing region ends monitoring for good.
  lemma StopEndsMonitoringExactly(history: seq<Step>)
    requires After(IDLE, history).gate == ByStop(StopCleaned)
    ensures Quiet(Next(After(IDLE, history), Advance(true))) <==> StopEndsMonitoring(After(IDLE, history))
  {
    RunKeepsSound(IDLE, history);
  }

  lemma {:induction false} AfterConcat(s: State, first: seq<Step>, second: seq<Step>)
    ensures After(s, first + second) == After(After(s, first), second)
    decreases |first|
  {
    if first == [] {
      assert first + second == second;
    } else {
      assert (first + second)[1..] == first[1..] + second;
      AfterConcat(Next(s, first[0]), first[1..], second);
    }
  }

  // ---- where a stop does not win ----

  const RUNNING := IDLE.(enabled := true, bindings := true, running := true, waitingStops := 1)

  const RECOVERING := IDLE.(enabled := true, bindings := true, recovery := true, waitingStops := 1)

  // A start in flight commits after the stop has cancelled.
  const LATE_COMMIT: seq<Step> :=
    [CancelForStart, StartEnters, Advance(true), CancelForStop, Advance(true), Advance(true)]

  // A tick gets the gate, and its refresh goes as far as the restart.
  const CLEANUP: seq<Step> := [Tick, Advance(true), Advance(true), Advance(true), Advance(true), Advance(true)]

  const RESTART_FAILS: seq<Step> := [Advance(false), Advance(true), Advance(true)]

  const RESTART_SUCCEEDS: seq<Step> := [Advance(true), Advance(true)]

  // The stop takes its turn and returns.
  const STOP_RETURNS: seq<Step> := [StopEnters, Advance(true), Advance(true), Advance(true)]

  lemma LateCommit()
    ensures After(IDLE, LATE_COMMIT) == RUNNING
  {
  }

  lemma CleanupOfARunningEngine()
    ensures After(RUNNING, CLEANUP) == RECOVERING.(refreshing := true, gate := ByRefresh(Restarting))
  {
  }

  lemma CleanupAfterTheStop()
    ensures var s := RECOVERING.(waitingStops := 0);
            && CommitFree(s, CLEANUP)
            && After(s, CLEANUP) == s.(refreshing := true, gate := ByRefresh(Restarting))
  {
  }

  lemma RestartFails()
    ensures After(RECOVERING.(refreshing := true, gate := ByRefresh(Restarting)), RESTART_FAILS) == RECOVERING
  {
  }

  lemma RestartSucceeds()
    ensures var s := RECOVERING.(waitingStops := 0, refreshing := true, gate := ByRefresh(Restarting));
            CommitFree(s, RESTART_SUCCEEDS) && After(s, RESTART_SUCCEEDS).running
  {
  }

  lemma StopReturns()
    ensures After(RECOVERING, STOP_RETURNS) == RECOVERING.(waitingStops := 0)
  {
  }

  lemma {:induction false} CommitFreeConcat(s: State, first: seq<Step>, second: seq<Step>)
    ensures CommitFree(s, first + second) <==> CommitFree(s, first) && CommitFree(After(s, first), second)
    decreases |first|
  {
    if first == [] {
      assert first + second == second;
    } else {
      assert (first + second)[1..] == first[1..] + second;
      CommitFreeConcat(Next(s, first[0]), first[1..], second);
    }
  }

  // The stop has returned, monitoring is still on, and the next tick brings the
  // engine up without anybody having started it.
  lemma StopIsOvertaken()
    ensures var stopped := After(IDLE, LATE_COMMIT + CLEANUP + RESTART_FAILS + STOP_RETURNS);
            && stopped.gate == Free && stopped.enabled && !stopped.running
            && CommitFree(stopped, CLEANUP + RESTART_SUCCEEDS)
            && After(stopped, CLEANUP + RESTART_SUCCEEDS).running
  {
    var stopped := RECOVERING.(waitingStops := 0);
    AfterConcat(IDLE, LATE_COMMIT + CLEANUP + RESTART_FAILS, STOP_RETURNS);
    AfterConcat(IDLE, LATE_COMMIT + CLEANUP, RESTART_FAILS);
    AfterConcat(IDLE, LATE_COMMIT, CLEANUP);
    LateCommit();
    CleanupOfARunningEngine();
    RestartFails();
    StopReturns();
    CleanupAfterTheStop();
    RestartSucceeds();
    AfterConcat(stopped, CLEANUP, RESTART_SUCCEEDS);
    CommitFreeConcat(stopped, CLEANUP, RESTART_SUCCEEDS);
  }

  // ---- the service's own regions ----

  class EngineService {
    var gate: Gate
    var enabled: bool
    var recovery: bool
    var bindings: bool
    var refreshing: bool
    var cancelled: bool
    var closing: bool
    ghost var running: bool
    ghost var waitingStarts: nat
    ghost var waitingStops: nat

    ghost function View(): State
      reads this
    {
      State(gate, enabled, recovery, bindings, refreshing, cancelled, closing, running, waitingStarts, waitingStops)
    }

    constructor ()
      ensures View() == IDLE
    {
      gate, enabled, recovery, bindings, refreshing, cancelled := Free, false, false, false, false, false;
      closing, running, waitingStarts, waitingStops := false, false, 0, 0;
    }

    method CancelRuntimeBindingRefresh()
      requires Sound(View())
      modifies this
      ensures View() == Cancelled(old(View())) && Sound(View()) && Quiet(View())
    {
      enabled, recovery := false, false;
      if refreshing {
        cancelled := true;
      }
    }

    method ScheduleRuntimeBindingRefresh() returns (scheduled: bool)
      requires Sound(View())
      modifies this
      ensures View() == Scheduled(old(View())) && Sound(View())
      ensures scheduled <==> View() != old(View())
      ensures old(Quiet(View())) ==> !scheduled && Quiet(View())
    {
      if !enabled || closing || refreshing || !bindings {
        return false;
      }
      if gate != Free {
        return false;
      }
      gate, refreshing, cancelled := ByRefresh(Launched), true, false;
      return true;
    }

    // The region of a refresh that records its intent before it stops anything.
    method RecordRecovery() returns (proceed: bool)
      requires Sound(View()) && gate == ByRefresh(Deciding)
      modifies this
      ensures View() == RefreshAdvanced(old(View()), Deciding, true) && Sound(View())
      ensures proceed <==> gate != ByRefresh(Finishing)
      ensures old(Quiet(View())) ==> !proceed && Quiet(View())
    {
      if !enabled || closing || cancelled {
        gate := ByRefresh(Finishing);
        return false;
      }
      recovery := true;
      gate := ByRefresh(Cleaning);
      return true;
    }

    // The closing region of stopLocked, called from Stop.
    method SettleStop()
      requires Sound(View()) && gate == ByStop(StopCleaned)
      modifies this
      ensures View() == StopAdvanced(old(View()), StopCleaned, true) && Sound(View())
      ensures Quiet(View()) <==> StopEndsMonitoring(old(View()))
    {
      if !recovery || !enabled {
        bindings, enabled, recovery := false, false, false;
      }
      gate := ByStop(StopEnding);
    }

    // The commit of startLocked under a refresh: refused once it is cancelled.
    method CommitRefresh() returns (committed: bool)
      requires Sound(View()) && gate == ByRefresh(Committing)
      modifies this
      ensures View() == RefreshAdvanced(old(View()), Committing, true) && Sound(View())
      ensures committed <==> gate != ByRefresh(Finishing)
      ensures old(Quiet(View())) ==> !committed && Quiet(View())
    {
      if cancelled {
        gate := ByRefresh(Finishing);
        return false;
      }
      bindings, enabled, running := true, true, true;
      gate := ByRefresh(Restarted);
      return true;
    }
  }
}
