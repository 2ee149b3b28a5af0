/**
 singbox_rules.go and rule_sets.go: hot reload. The main configuration, and with
 it every reference, stays pinned to the plan the engine started with; only the
 watched files are recomposed. The restart check says when that is not enough.
 */
module RuleSetReload {
  import opened Options
  import opened Prefixes
  import opened Routing
  import opened RuleSetPlan
  import opened RuleSetDecision
  import opened RuleSetCompiler
  import opened Compatibility
  import opened Sorting
  import opened Text

  // The ingested payload of a list: absent until its first successful update.
  datatype Source = Undecodable | Decoded(entries: seq<Headless>)
  type Sources = map<string, Source>

  datatype Record = Record(id: string, outbound: string, priority: int)

  datatype Manifest = Manifest(
    outbounds: seq<string>, usesFakeIP: bool, customPriority: bool, externalSets: seq<Record>)

  datatype ManifestFile = Missing | Unreadable | Read(manifest: Manifest)

  datatype Reason = ExternalRuleSetChanged | PriorityChanged | OutboundChanged | EnableFakeIP

  // ---- which lists take effect ----

  predicate IsLive(sources: Sources, s: RuleSet) {
    !s.disabled && s.id in sources
  }

  function LiveSets(sources: Sources, sets: seq<RuleSet>): seq<RuleSet> {
    Filter(s => IsLive(sources, s), sets)
  }

  // A live list whose payload cannot be read silently drops out.
  predicate IsReadable(sources: Sources, s: RuleSet) {
    s.id in sources && sources[s.id].Decoded?
  }

  function ReadableSets(sources: Sources, live: seq<RuleSet>): seq<RuleSet> {
    Filter(s => IsReadable(sources, s), live)
  }

  function ReadablePayloads(sources: Sources): Payloads {
    map id | id in sources && sources[id].Decoded? :: sources[id].entries
  }

  // The declared outbound of a list; a later record replaces an earlier one.
  function DeclaredOutbound(records: seq<Record>, id: string): Option<string> {
    if records == [] then None
    else if records[|records| - 1].id == id then Some(records[|records| - 1].outbound)
    else DeclaredOutbound(records[..|records| - 1], id)
  }

  // The lists the running configuration can resolve, with the outbound it
  // resolves them to.
  function DeclaredSets(records: seq<Record>, live: seq<RuleSet>): seq<RuleSet> {
    if live == [] then []
    else
      var declared := DeclaredOutbound(records, live[0].id);
      (if declared.Some? then [live[0].(outbound := declared.value)] else []) + DeclaredSets(records, live[1..])
  }

  function EffectiveSets(manifest: Manifest, sources: Sources, sets: seq<RuleSet>): seq<RuleSet> {
    ReadableSets(sources, DeclaredSets(manifest.externalSets, LiveSets(sources, sets)))
  }

  function RecordOf(s: RuleSet): Record {
    Record(s.id, s.outbound, s.priority)
  }

  predicate ById(a: Record, b: Record) {
    StringLess(a.id, b.id)
  }

  function Rows(sets: seq<RuleSet>): seq<Record> {
    Map(s => RecordOf(s), sets)
  }

  function Records(sets: seq<RuleSet>): seq<Record> {
    StableSort(ById, Rows(sets))
  }

  // Priorities are recorded but deliberately not compared.
  predicate SameRecords(left: seq<Record>, right: seq<Record>) {
    && |left| == |right|
    && forall i | 0 <= i < |left| :: left[i].id == right[i].id && left[i].outbound == right[i].outbound
  }

  // ---- the restart check ----

  function RuleReason(manifest: Manifest, rules: seq<RoutingRule>): Option<Reason> {
    if rules == [] then None
    else if rules[0].disabled then RuleReason(manifest, rules[1..])
    else if rules[0].priority > 0 && !manifest.customPriority then Some(PriorityChanged)
    else if rules[0].outbound !in manifest.outbounds then Some(OutboundChanged)
    else RuleReason(manifest, rules[1..])
  }

  // Something matches by domain.
  predicate NeedsDomains(rules: seq<RoutingRule>, live: seq<RuleSet>) {
    |live| > 0 || exists r | r in rules :: !r.disabled && r.matchType == MatchDomain
  }

  function RestartRequirement(
    file: ManifestFile, rules: seq<RoutingRule>, sets: seq<RuleSet>, sources: Sources): Option<Reason>
  {
    if !file.Read? then None
    else
      var manifest, live := file.manifest, LiveSets(sources, sets);
      if !SameRecords(manifest.externalSets, Records(live)) then Some(ExternalRuleSetChanged)
      else if RuleReason(manifest, rules).Some? then RuleReason(manifest, rules)
      else if !manifest.usesFakeIP && NeedsDomains(rules, live) then Some(EnableFakeIP)
      else None
  }

  // ---- the two ways to write the files ----

  // A start: a fresh plan, its files and its manifest.
  method WriteFreshPlan(
    rules: seq<RoutingRule>, sets: seq<RuleSet>, sources: Sources, outbounds: seq<string>, usesFakeIP: bool)
    returns (plan: Plan, files: Files, manifest: Manifest)
    requires DistinctIds(sets)
    ensures Started(plan, manifest, ReadableSets(sources, LiveSets(sources, sets)))
    ensures Published(files, rules, ReadableSets(sources, LiveSets(sources, sets)), ReadablePayloads(sources),
                      manifest.outbounds)
    ensures forall r | r in rules && !r.disabled :: r.outbound in manifest.outbounds
    ensures manifest.usesFakeIP == usesFakeIP && manifest.customPriority
    ensures forall policy | usesFakeIP == DNSNeedsFakeIP(policy, rules, LiveSets(sources, sets)) ::
              FreshStart(plan, files, manifest, policy, rules, sets, sources)
    ensures (forall r | r in rules && !r.disabled :: r.outbound != "") && (forall s | s in sets :: s.outbound != "") ==>
              "" !in manifest.outbounds
  {
    var live := ReadableSets(sources, LiveSets(sources, sets));
    FilterKeepsDistinctIds(s => IsLive(sources, s), sets);
    FilterKeepsDistinctIds(s => IsReadable(sources, s), LiveSets(sources, sets));
    var reserved := NormalizedOutbounds(outbounds, rules, live);
    LiveMembers(sources, sets);
    plan, files := ComposePlan(rules, live, ReadablePayloads(sources), reserved);
    manifest := Manifest(reserved, usesFakeIP, true, Records(StableSort(SetLess, live)));
  }

  // A manifest that does not mention custom priorities is an older program's.
  function PinnedPlan(manifest: Manifest, live: seq<RuleSet>): Plan {
    if manifest.customPriority then PlanOf(live, manifest.outbounds) else OlderPlanOf(live, manifest.outbounds)
  }

  // What a start leaves behind: the pinned references and their declaration.
  ghost predicate Started(plan: Plan, manifest: Manifest, live: seq<RuleSet>) {
    && DistinctIds(live)
    && plan == PinnedPlan(manifest, live)
    && manifest.externalSets == Records(StableSort(SetLess, live))
  }

  // An edit while running: every pinned file is recomposed, and the file of a
  // declared list that no longer takes effect is emptied.
  method RefreshRuleSets(
    manifest: Manifest, rules: seq<RoutingRule>, sets: seq<RuleSet>, sources: Sources, previous: Files)
    returns (files: Files)
    requires DistinctIds(sets)
    ensures Refreshed(files, manifest.(outbounds := NonEmpty(manifest.outbounds)), rules, sets, sources)
    ensures "" !in manifest.outbounds ==> Refreshed(files, manifest, rules, sets, sources)
  {
    var live := EffectiveSets(manifest, sources, sets);
    EffectiveKeepsDistinctIds(manifest, sources, sets);
    var outbounds := NormalizedOutbounds(manifest.outbounds, rules, live);
    var plan, composed := ComposePlan(rules, live, ReadablePayloads(sources), outbounds);
    files := EmptyDropped(manifest.externalSets, live, previous + composed);
    FilterMembers(o => o != "", manifest.outbounds);
    PublishedFrame(composed, files, rules, live, ReadablePayloads(sources), outbounds, NonEmpty(manifest.outbounds));
    if "" !in manifest.outbounds {
      FilterOfAll(o => o != "", manifest.outbounds);
    }
  }

  // An empty outbound in a manifest is dropped.
  function NonEmpty(outbounds: seq<string>): seq<string> {
    Filter(o => o != "", outbounds)
  }

  // A tag the refresh must not empty.
  ghost predicate InUse(t: Tag, live: seq<RuleSet>) {
    t.Bound? || exists s :: s in live && s.id == t.id
  }

  method EmptyDropped(records: seq<Record>, live: seq<RuleSet>, before: Files) returns (files: Files)
    ensures forall t | t in before && InUse(t, live) :: t in files && files[t] == before[t]
    ensures forall k | 0 <= k < |records| :: EmptiedUnlessLive(files, live, records[k].id)
  {
    files := before;
    for i := 0 to |records|
      invariant forall t | t in before && InUse(t, live) :: t in files && files[t] == before[t]
      invariant forall k | 0 <= k < i :: EmptiedUnlessLive(files, live, records[k].id)
    {
      if !exists s | s in live :: s.id == records[i].id {
        files := files[External(records[i].id) := []];
      }
    }
  }

  lemma PublishedFrame(
    before: Files, files: Files, rules: seq<RoutingRule>, live: seq<RuleSet>, payloads: Payloads,
    outbounds: seq<string>, fewer: seq<string>)
    requires Published(before, rules, live, payloads, outbounds)
    requires forall t | t in before && InUse(t, live) :: t in files && files[t] == before[t]
    requires forall o | o in fewer :: o in outbounds
    ensures Published(files, rules, live, payloads, fewer)
  {
    var external := StableSort(SetLess, live);
    SortPermutes(SetLess, live);
    forall i | 0 <= i < |external|
      ensures InUse(External(external[i].id), live)
    {
      assert external[i] in external;
    }
  }

  ghost predicate EmptiedUnlessLive(files: Files, live: seq<RuleSet>, id: string) {
    (exists s :: s in live && s.id == id) || (External(id) in files && files[External(id)] == [])
  }

  ghost predicate Refreshed(
    files: Files, manifest: Manifest, rules: seq<RoutingRule>, sets: seq<RuleSet>, sources: Sources)
  {
    var live := EffectiveSets(manifest, sources, sets);
    && Published(files, rules, live, ReadablePayloads(sources), manifest.outbounds)
    && forall k | 0 <= k < |manifest.externalSets| :: EmptiedUnlessLive(files, live, manifest.externalSets[k].id)
  }

  lemma {:induction false} FilterKeepsDistinctIds(p: RuleSet -> bool, sets: seq<RuleSet>)
    requires DistinctIds(sets)
    ensures DistinctIds(Filter(p, sets))
  {
    if sets != [] {
      FilterKeepsDistinctIds(p, sets[1..]);
      FilterMembers(p, sets[1..]);
      forall i | 0 <= i < |Filter(p, sets[1..])|
        ensures Filter(p, sets[1..])[i].id != sets[0].id
      {
        assert Filter(p, sets[1..])[i] in sets[1..];
      }
    }
  }

  lemma {:induction false} DeclaredSetsMembers(records: seq<Record>, live: seq<RuleSet>)
    ensures forall t :: t in DeclaredSets(records, live) <==>
              exists s :: s in live && DeclaredOutbound(records, s.id).Some? &&
                          t == s.(outbound := DeclaredOutbound(records, s.id).value)
  {
    if live != [] {
      DeclaredSetsMembers(records, live[1..]);
    }
  }

  lemma {:induction false} DeclaredKeepsDistinctIds(records: seq<Record>, live: seq<RuleSet>)
    requires DistinctIds(live)
    ensures DistinctIds(DeclaredSets(records, live))
  {
    if live != [] {
      DeclaredKeepsDistinctIds(records, live[1..]);
      DeclaredSetsMembers(records, live[1..]);
      var rest := DeclaredSets(records, live[1..]);
      forall i | 0 <= i < |rest|
        ensures rest[i].id != live[0].id
      {
        assert rest[i] in rest;
      }
    }
  }

  lemma EffectiveKeepsDistinctIds(manifest: Manifest, sources: Sources, sets: seq<RuleSet>)
    requires DistinctIds(sets)
    ensures DistinctIds(EffectiveSets(manifest, sources, sets))
  {
    FilterKeepsDistinctIds(s => IsLive(sources, s), sets);
    DeclaredKeepsDistinctIds(manifest.externalSets, LiveSets(sources, sets));
    FilterKeepsDistinctIds(s => IsReadable(sources, s), DeclaredSets(manifest.externalSets, LiveSets(sources, sets)));
  }

  // ---- what the declaration says about the pinned references ----

  lemma {:induction false} DeclaredOutboundIsRecorded(records: seq<Record>, id: string)
    ensures DeclaredOutbound(records, id).Some? <==> exists r :: r in records && r.id == id
    ensures DeclaredOutbound(records, id).Some? ==>
              exists r :: r in records && r.id == id && r.outbound == DeclaredOutbound(records, id).value
  {
    if records != [] {
      var n := |records| - 1;
      DeclaredOutboundIsRecorded(records[..n], id);
      assert records == records[..n] + [records[n]];
    }
  }

  lemma RecordsMembers(sets: seq<RuleSet>)
    ensures forall r :: r in Records(sets) <==> exists s :: s in sets && r == RecordOf(s)
  {
    var all := Rows(sets);
    SortPermutes(ById, all);
    forall s | s in sets
      ensures RecordOf(s) in all
    {
      var k :| 0 <= k < |sets| && sets[k] == s;
      assert all[k] == RecordOf(s);
    }
  }

  lemma SameIdSameSet(sets: seq<RuleSet>, a: RuleSet, b: RuleSet)
    requires DistinctIds(sets) && a in sets && b in sets && a.id == b.id
    ensures a == b
  {
  }

  // A list's own record is the one that declares it.
  lemma DeclaredOfSet(sorted: seq<RuleSet>, s: RuleSet)
    requires DistinctIds(sorted) && s in sorted
    ensures DeclaredOutbound(Records(sorted), s.id) == Some(s.outbound)
  {
    var records := Records(sorted);
    RecordsMembers(sorted);
    DeclaredOutboundIsRecorded(records, s.id);
    assert RecordOf(s) in records;
    var d :| d in records && d.id == s.id && d.outbound == DeclaredOutbound(records, s.id).value;
    var t :| t in sorted && d == RecordOf(t);
    SameIdSameSet(sorted, s, t);
  }

  lemma DeclaredIsASet(sorted: seq<RuleSet>, id: string) returns (k: nat)
    requires DeclaredOutbound(Records(sorted), id).Some?
    ensures k < |sorted| && sorted[k].id == id && sorted[k].outbound == DeclaredOutbound(Records(sorted), id).value
  {
    var records := Records(sorted);
    RecordsMembers(sorted);
    DeclaredOutboundIsRecorded(records, id);
    var d :| d in records && d.id == id && d.outbound == DeclaredOutbound(records, id).value;
    var t :| t in sorted && d == RecordOf(t);
    k :| 0 <= k < |sorted| && sorted[k] == t;
  }

  // The pinned references are exactly what the manifest declares.
  lemma PinnedAreDeclared(plan: Plan, manifest: Manifest, started: seq<RuleSet>)
    requires Started(plan, manifest, started)
    ensures forall r | r in plan.external ::
              r.tag.External? && DeclaredOutbound(manifest.externalSets, r.tag.id) == Some(r.outbound)
    ensures forall id | DeclaredOutbound(manifest.externalSets, id).Some? ::
              Reference(External(id), DeclaredOutbound(manifest.externalSets, id).value) in plan.external
  {
    var sorted := StableSort(SetLess, started);
    SortKeepsDistinctIds(started);
    forall r | r in plan.external
      ensures r.tag.External? && DeclaredOutbound(manifest.externalSets, r.tag.id) == Some(r.outbound)
    {
      var k :| 0 <= k < |sorted| && r == ExternalReference(sorted[k]);
      DeclaredOfSet(sorted, sorted[k]);
    }
    forall id | DeclaredOutbound(manifest.externalSets, id).Some?
      ensures Reference(External(id), DeclaredOutbound(manifest.externalSets, id).value) in plan.external
    {
      var k := DeclaredIsASet(sorted, id);
      assert plan.external[k] == ExternalReference(sorted[k]);
    }
  }

  // After a refresh the pinned references are right for the effective lists.
  lemma PinnedReferencesSets(
    plan: Plan, manifest: Manifest, started: seq<RuleSet>, files: Files,
    rules: seq<RoutingRule>, sets: seq<RuleSet>, sources: Sources, x: Connection)
    requires Started(plan, manifest, started) && Refreshed(files, manifest, rules, sets, sources)
    ensures ReferencesSets(plan.external, EffectiveSets(manifest, sources, sets), files, x)
  {
    var declared := DeclaredSets(manifest.externalSets, LiveSets(sources, sets));
    var live := EffectiveSets(manifest, sources, sets);
    PinnedAreDeclared(plan, manifest, started);
    DeclaredSetsMembers(manifest.externalSets, LiveSets(sources, sets));
    FilterMembers(s => IsReadable(sources, s), declared);
    forall s | s in live
      ensures ExternalReference(s) in plan.external && DeclaredOutbound(manifest.externalSets, s.id) == Some(s.outbound)
    {
      assert s in declared;
    }
    forall r | r in plan.external && Hits(r, files, x)
      ensures exists s :: s in live && r == ExternalReference(s)
    {
      DeclaredOutboundIsRecorded(manifest.externalSets, r.tag.id);
      var d :| d in manifest.externalSets && d.id == r.tag.id;
      var k :| 0 <= k < |manifest.externalSets| && manifest.externalSets[k] == d;
      assert EmptiedUnlessLive(files, live, d.id);
      var s :| s in live && s.id == r.tag.id;
      assert r == ExternalReference(s);
    }
  }

  // References to lists of a plan, whatever the priorities were back then, are
  // installed as far as the bypass is concerned.
  lemma PlanIsInstalled(
    plan: Plan, started: seq<RuleSet>, files: Files,
    rules: seq<RoutingRule>, sets: seq<RuleSet>, payloads: Payloads, outbounds: seq<string>, x: Connection)
    requires plan == PlanOf(started, outbounds)
    requires Published(files, rules, sets, payloads, outbounds) && ReferencesSets(plan.external, sets, files, x)
    ensures Installed(plan, files, rules, sets, payloads, outbounds, x)
  {
    PriorityTags(plan, started, outbounds);
    ExternalTags(plan, started, outbounds);
  }

  lemma PriorityTags(plan: Plan, started: seq<RuleSet>, outbounds: seq<string>)
    requires plan == PlanOf(started, outbounds)
    ensures forall scope, o | scope in {ProcessScope, DomainScope, CustomIPScope} && o in outbounds ::
              Bound(scope, o) in plan.priority
    ensures forall t | t in plan.priority && t.Bound? ::
              t.outbound in outbounds && t.scope in {ProcessScope, DomainScope, CustomIPScope}
  {
    ScopeTagsMembers(ProcessScope, outbounds);
    ScopeTagsMembers(DomainScope, outbounds);
    ScopeTagsMembers(CustomIPScope, outbounds);
  }

  lemma ScopeTagsMembers(scope: Scope, outbounds: seq<string>)
    ensures forall t :: t in ScopeTags(scope, outbounds) <==> t.Bound? && t.scope == scope && t.outbound in outbounds
  {
    forall o | o in outbounds
      ensures Bound(scope, o) in ScopeTags(scope, outbounds)
    {
      var k :| 0 <= k < |outbounds| && outbounds[k] == o;
      assert ScopeTags(scope, outbounds)[k] == Bound(scope, o);
    }
  }

  lemma ExternalTags(plan: Plan, started: seq<RuleSet>, outbounds: seq<string>)
    requires plan == PlanOf(started, outbounds)
    ensures forall r | r in plan.external :: r.tag in plan.priority
    ensures forall t | t in plan.priority && t.External? :: exists r :: r in plan.external && r.tag == t
  {
    var sorted := StableSort(SetLess, started);
    var tags := Map((s: RuleSet) => External(s.id), sorted);
    forall r | r in plan.external
      ensures r.tag in tags
    {
      var k :| 0 <= k < |sorted| && plan.external[k] == r;
      assert tags[k] == r.tag;
    }
    forall t | t in tags
      ensures exists r :: r in plan.external && r.tag == t
    {
      var k :| 0 <= k < |tags| && tags[k] == t;
      assert plan.external[k].tag == t;
    }
  }

  // ---- the main results ----

  // While an edit waits for a restart, the pinned references over the recomposed
  // files follow the ranked list of the new rules and the declared lists, each
  // with the outbound it was declared with: a new list, a disabled one and a
  // deleted one match nothing. The bypass follows the same winner.
  lemma RefreshFollowsRanking(
    known: KnownProxies, plan: Plan, manifest: Manifest, started: seq<RuleSet>, files: Files,
    rules: seq<RoutingRule>, sets: seq<RuleSet>, sources: Sources, x: Connection)
    requires Started(plan, manifest, started) && Refreshed(files, manifest, rules, sets, sources)
    requires var live := EffectiveSets(manifest, sources, sets);
             && WinnerIsReferenced(rules, live, ReadablePayloads(sources), manifest.outbounds, x)
             && NoNegativePriority(rules, live)
    requires manifest.customPriority || NoCustomPriority(rules)
    ensures var live := EffectiveSets(manifest, sources, sets);
            RouteDecision(known, plan, files, x) == IntendedDecision(known, rules, live, ReadablePayloads(sources), x)
  {
    var live := EffectiveSets(manifest, sources, sets);
    PinnedReferencesSets(plan, manifest, started, files, rules, sets, sources, x);
    var current := PlanOf(started, manifest.outbounds);
    if !manifest.customPriority {
      OlderPlanDecidesAlike(known, started, files, rules, manifest.outbounds, x);
    }
    PlanIsInstalled(current, started, files, rules, live, ReadablePayloads(sources), manifest.outbounds, x);
    BypassIsExact(known, current, files, rules, live, ReadablePayloads(sources), manifest.outbounds, x);
  }

  // And when the winning rule's outbound has no pinned reference yet, its
  // connections go nowhere, to its outbound, to the bypass or to a rule of the same priority.
  lemma RefreshWithoutReference(
    known: KnownProxies, plan: Plan, manifest: Manifest, started: seq<RuleSet>, files: Files,
    rules: seq<RoutingRule>, sets: seq<RuleSet>, sources: Sources, x: Connection)
    requires Started(plan, manifest, started) && Refreshed(files, manifest, rules, sets, sources)
    requires var w := Winner(rules, EffectiveSets(manifest, sources, sets), ReadablePayloads(sources), x);
             w.Some? && w.value.Manual?
    ensures var rule := Winner(rules, EffectiveSets(manifest, sources, sets), ReadablePayloads(sources), x).value.rule;
            var taken := RouteDecision(known, plan, files, x);
            || taken.None? || taken.value == rule.outbound || (IsKnownProxy(known, x) && taken.value == SystemDirect)
            || exists r :: && r in rules && !r.disabled && RuleMatches(r, x) && r.outbound == taken.value
                           && r.priority == rule.priority && TypeRank(r.matchType) > TypeRank(rule.matchType)
  {
    var live := EffectiveSets(manifest, sources, sets);
    PinnedReferencesSets(plan, manifest, started, files, rules, sets, sources, x);
    UnreferencedWinnerUnderBypass(known, plan, files, rules, live, ReadablePayloads(sources), manifest.outbounds, x);
  }

  predicate NoCustomPriority(rules: seq<RoutingRule>) {
    forall r | r in rules && !r.disabled :: r.priority == 0
  }

  function IntendedDecision(
    known: KnownProxies, rules: seq<RoutingRule>, sets: seq<RuleSet>, payloads: Payloads, x: Connection): Option<string>
  {
    var w := Winner(rules, sets, payloads, x);
    if !IsKnownProxy(known, x) then WinnerOutbound(rules, sets, payloads, x)
    else if w.Some? && (IsExplicit(w.value) || IsAdapter(OutboundOf(w.value))) then Some(OutboundOf(w.value))
    else Some(SystemDirect)
  }

  // When no restart is required, the declared lists are the live lists.
  lemma {:induction false} AllDeclaredAsConfigured(records: seq<Record>, live: seq<RuleSet>)
    requires forall s | s in live :: DeclaredOutbound(records, s.id) == Some(s.outbound)
    ensures DeclaredSets(records, live) == live
  {
    if live != [] {
      assert live[0] in live;
      AllDeclaredAsConfigured(records, live[1..]);
      assert live[0].(outbound := live[0].outbound) == live[0];
    }
  }

  lemma SameRecordsDeclare(records: seq<Record>, live: seq<RuleSet>)
    requires DistinctIds(live) && SameRecords(records, Records(live))
    ensures forall s | s in live :: DeclaredOutbound(records, s.id) == Some(s.outbound)
  {
    RecordsMembers(live);
    var configured := Records(live);
    forall s | s in live
      ensures DeclaredOutbound(records, s.id) == Some(s.outbound)
    {
      assert RecordOf(s) in configured;
      var k :| 0 <= k < |configured| && configured[k] == RecordOf(s);
      assert records[k] in records;
      DeclaredOutboundIsRecorded(records, s.id);
      var d :| d in records && d.id == s.id && d.outbound == DeclaredOutbound(records, s.id).value;
      var j :| 0 <= j < |records| && records[j] == d;
      assert configured[j] in configured;
      var t :| t in live && configured[j] == RecordOf(t);
      SameIdSameSet(live, s, t);
    }
  }

  lemma {:induction false} NoReasonCoversRules(manifest: Manifest, rules: seq<RoutingRule>)
    requires RuleReason(manifest, rules).None?
    ensures forall r | r in rules && !r.disabled :: r.outbound in manifest.outbounds
    ensures !manifest.customPriority ==> forall r | r in rules && !r.disabled :: r.priority <= 0
  {
    if rules != [] {
      NoReasonCoversRules(manifest, rules[1..]);
      assert forall r | r in rules :: r == rules[0] || r in rules[1..];
    }
  }

  // ---- what the engine sees ----

  // Without FakeIP a connection's domain is known only if its traffic shows it.
  function Seen(usesFakeIP: bool, sniffed: bool, x: Connection): Connection {
    if usesFakeIP || sniffed then x else x.(domain := None)
  }

  // tunDNSNeedsFakeIP: what a start decides.
  predicate DNSNeedsFakeIP(policy: string, rules: seq<RoutingRule>, live: seq<RuleSet>) {
    (policy != "off" && policy != "system") || NeedsDomains(rules, live)
  }

  lemma {:induction false} FirstMatchAlike(intents: seq<Intent>, payloads: Payloads, x: Connection, y: Connection)
    requires forall t | t in intents :: IntentMatches(t, payloads, x) <==> IntentMatches(t, payloads, y)
    ensures FirstMatch(intents, payloads, x) == FirstMatch(intents, payloads, y)
  {
    if intents != [] {
      assert intents[0] in intents;
      FirstMatchAlike(intents[1..], payloads, x, y);
    }
  }

  // Where nothing matches by domain, no decision depends on the domain.
  lemma DomainIsIgnored(known: KnownProxies, rules: seq<RoutingRule>, payloads: Payloads, x: Connection)
    requires !NeedsDomains(rules, [])
    ensures var unseen := x.(domain := None);
            && Winner(rules, [], payloads, x) == Winner(rules, [], payloads, unseen)
            && IntendedDecision(known, rules, [], payloads, x) == IntendedDecision(known, rules, [], payloads, unseen)
  {
    var unseen := x.(domain := None);
    SortPermutes(RanksAhead, AllIntents(rules, []));
    AllIntentsMembers(rules, []);
    forall t | t in Ranked(rules, [])
      ensures IntentMatches(t, payloads, x) <==> IntentMatches(t, payloads, unseen)
    {
      assert t in AllIntents(rules, []) && t.Manual?;
    }
    FirstMatchAlike(Ranked(rules, []), payloads, x, unseen);
  }

  // Hot reload equals restart: when the check asks for none, the pinned
  // references over the recomposed files, and what the running engine sees,
  // decide every connection as a fresh start would, the compatibility bypass and
  // whatever DNS policy it is started with included.
  lemma HotReloadEqualsRestart(
    known: KnownProxies, plan: Plan, manifest: Manifest, started: seq<RuleSet>, files: Files, policy: string,
    rules: seq<RoutingRule>, sets: seq<RuleSet>, sources: Sources,
    freshPlan: Plan, freshFiles: Files, freshManifest: Manifest, sniffed: bool, x: Connection)
    requires DistinctIds(sets) && NoNegativePriority(rules, sets)
    requires Started(plan, manifest, started) && Refreshed(files, manifest, rules, sets, sources)
    requires RestartRequirement(Read(manifest), rules, sets, sources).None?
    requires FreshStart(freshPlan, freshFiles, freshManifest, policy, rules, sets, sources)
    ensures RouteDecision(known, plan, files, Seen(manifest.usesFakeIP, sniffed, x)) ==
            RouteDecision(known, freshPlan, freshFiles, Seen(freshManifest.usesFakeIP, sniffed, x))
  {
    var live, payloads := ReadableSets(sources, LiveSets(sources, sets)), ReadablePayloads(sources);
    var here, there := Seen(manifest.usesFakeIP, sniffed, x), Seen(freshManifest.usesFakeIP, sniffed, x);
    HotReloadFollowsRanking(known, plan, manifest, started, files, rules, sets, sources, here);
    FreshStartFollowsRanking(known, freshPlan, freshFiles, freshManifest, policy, rules, sets, sources, there);
    if !NeedsDomains(rules, LiveSets(sources, sets)) {
      assert live == [];
      DomainIsIgnored(known, rules, payloads, x);
    }
  }

  lemma HotReloadFollowsRanking(
    known: KnownProxies, plan: Plan, manifest: Manifest, started: seq<RuleSet>, files: Files,
    rules: seq<RoutingRule>, sets: seq<RuleSet>, sources: Sources, x: Connection)
    requires DistinctIds(sets) && NoNegativePriority(rules, sets)
    requires Started(plan, manifest, started) && Refreshed(files, manifest, rules, sets, sources)
    requires RestartRequirement(Read(manifest), rules, sets, sources).None?
    ensures RouteDecision(known, plan, files, x) ==
            IntendedDecision(known, rules, ReadableSets(sources, LiveSets(sources, sets)), ReadablePayloads(sources), x)
  {
    var live := ReadableSets(sources, LiveSets(sources, sets));
    FilterKeepsDistinctIds(s => IsLive(sources, s), sets);
    SameRecordsDeclare(manifest.externalSets, LiveSets(sources, sets));
    AllDeclaredAsConfigured(manifest.externalSets, LiveSets(sources, sets));
    assert EffectiveSets(manifest, sources, sets) == live;
    NoReasonCoversRules(manifest, rules);
    WinnerIsUnbeaten(rules, live, ReadablePayloads(sources), x);
    LiveMembers(sources, sets);
    RefreshFollowsRanking(known, plan, manifest, started, files, rules, sets, sources, x);
  }

  lemma FreshStartFollowsRanking(
    known: KnownProxies, plan: Plan, files: Files, manifest: Manifest, policy: string,
    rules: seq<RoutingRule>, sets: seq<RuleSet>, sources: Sources, x: Connection)
    requires NoNegativePriority(rules, sets) && FreshStart(plan, files, manifest, policy, rules, sets, sources)
    ensures RouteDecision(known, plan, files, x) ==
            IntendedDecision(known, rules, ReadableSets(sources, LiveSets(sources, sets)), ReadablePayloads(sources), x)
  {
    var live, payloads := ReadableSets(sources, LiveSets(sources, sets)), ReadablePayloads(sources);
    LiveMembers(sources, sets);
    WinnerIsUnbeaten(rules, live, payloads, x);
    SelfReferences(live, manifest.outbounds, files, x);
    PlanIsInstalled(plan, live, files, rules, live, payloads, manifest.outbounds, x);
    BypassIsExact(known, plan, files, rules, live, payloads, manifest.outbounds, x);
  }

  lemma LiveMembers(sources: Sources, sets: seq<RuleSet>)
    ensures forall s :: s in ReadableSets(sources, LiveSets(sources, sets)) <==>
            s in sets && IsLive(sources, s) && IsReadable(sources, s)
  {
    FilterMembers(s => IsLive(sources, s), sets);
    FilterMembers(s => IsReadable(sources, s), LiveSets(sources, sets));
  }

  // ---- edits ----

  // What an accepted edit leaves in the watched files: recomposed ones, or, when
  // there is no manifest, the old ones. An unreadable manifest refuses the edit.
  ghost predicate EditAccepted(
    file: ManifestFile, before: Files, files: Files, rules: seq<RoutingRule>, sets: seq<RuleSet>, sources: Sources)
  {
    match file
    case Missing => files == before
    case Unreadable => false
    case Read(manifest) => Refreshed(files, manifest, rules, sets, sources)
  }

  // A start with the same rules and lists.
  ghost predicate FreshStart(
    plan: Plan, files: Files, manifest: Manifest, policy: string,
    rules: seq<RoutingRule>, sets: seq<RuleSet>, sources: Sources)
  {
    var live := ReadableSets(sources, LiveSets(sources, sets));
    && Started(plan, manifest, live) && manifest.customPriority
    && manifest.usesFakeIP == DNSNeedsFakeIP(policy, rules, LiveSets(sources, sets))
    && Published(files, rules, live, ReadablePayloads(sources), manifest.outbounds)
    && (forall r | r in rules && !r.disabled :: r.outbound in manifest.outbounds)
  }

  // An edit for which no restart is asked decides as a restart would.
  ghost predicate EditIsHot(
    known: KnownProxies, plan: Plan, usesFakeIP: bool, file: ManifestFile, before: Files,
    rules: seq<RoutingRule>, sets: seq<RuleSet>, sources: Sources)
  {
    forall files | EditAccepted(file, before, files, rules, sets, sources) ::
      DecidesAsStarted(known, plan, usesFakeIP, files, rules, sets, sources)
  }

  ghost predicate DecidesAsStarted(
    known: KnownProxies, plan: Plan, usesFakeIP: bool, files: Files,
    rules: seq<RoutingRule>, sets: seq<RuleSet>, sources: Sources)
  {
    forall policy, freshPlan, freshFiles, freshManifest |
      FreshStart(freshPlan, freshFiles, freshManifest, policy, rules, sets, sources) ::
      AllDecideAlike(known, plan, usesFakeIP, files, freshPlan, freshManifest.usesFakeIP, freshFiles)
  }

  // Two engines, each by what it sees, decide every connection alike.
  ghost predicate AllDecideAlike(
    known: KnownProxies, plan: Plan, usesFakeIP: bool, files: Files,
    otherPlan: Plan, otherUsesFakeIP: bool, otherFiles: Files)
  {
    forall sniffed, x ::
      RouteDecision(known, plan, files, Seen(usesFakeIP, sniffed, x)) ==
      RouteDecision(known, otherPlan, otherFiles, Seen(otherUsesFakeIP, sniffed, x))
  }

  lemma ReadableManifestIsHot(
    known: KnownProxies, plan: Plan, manifest: Manifest, started: seq<RuleSet>, before: Files,
    rules: seq<RoutingRule>, sets: seq<RuleSet>, sources: Sources)
    requires Started(plan, manifest, started) && DistinctIds(sets) && NoNegativePriority(rules, sets)
    requires RestartRequirement(Read(manifest), rules, sets, sources).None?
    ensures EditIsHot(known, plan, manifest.usesFakeIP, Read(manifest), before, rules, sets, sources)
  {
    forall files, policy, freshPlan, freshFiles, freshManifest, sniffed, x |
      && Refreshed(files, manifest, rules, sets, sources)
      && FreshStart(freshPlan, freshFiles, freshManifest, policy, rules, sets, sources)
      ensures RouteDecision(known, plan, files, Seen(manifest.usesFakeIP, sniffed, x)) ==
              RouteDecision(known, freshPlan, freshFiles, Seen(freshManifest.usesFakeIP, sniffed, x))
    {
      HotReloadEqualsRestart(known, plan, manifest, started, files, policy, rules, sets, sources,
                             freshPlan, freshFiles, freshManifest, sniffed, x);
    }
  }

  // ---- one rule, and the files and the plan a start makes of it ----

  function FileOf(rule: RoutingRule, scope: Scope): seq<Headless> {
    var candidates := StableSort(CandidateLess, [rule]);
    SourceRules(candidates, scope, rule.outbound, |candidates|)
  }

  lemma FreshStartOfOneRule(rule: RoutingRule, policy: string) returns (plan: Plan, files: Files, manifest: Manifest)
    ensures FreshStart(plan, files, manifest, policy, [rule], [], map[])
    ensures manifest.outbounds == [rule.outbound] && manifest.externalSets == [] && plan == PlanOf([], [rule.outbound])
    ensures Published(files, [rule], [], map[], [rule.outbound])
  {
    var outbound := rule.outbound;
    manifest := Manifest([outbound], DNSNeedsFakeIP(policy, [rule], []), true, []);
    plan := PlanOf([], [outbound]);
    files := map[
      Bound(ProcessScope, outbound) := FileOf(rule, ProcessScope),
      Bound(DomainScope, outbound) := FileOf(rule, DomainScope),
      Bound(IPScope, outbound) := FileOf(rule, IPScope),
      Bound(CustomIPScope, outbound) := FileOf(rule, CustomIPScope),
      Bound(EarlyIPScope, outbound) := FileOf(rule, EarlyIPScope)];
  }

  lemma OneRuleDecides(known: KnownProxies, rule: RoutingRule, files: Files, x: Connection)
    requires Published(files, [rule], [], map[], [rule.outbound]) && rule.priority >= 0 && !rule.disabled
    requires RuleMatches(rule, x) ==> IsExplicit(Manual(rule))
    ensures RuleMatches(rule, x) ==>
              RouteDecision(known, PlanOf([], [rule.outbound]), files, x) == Some(rule.outbound)
    ensures !RuleMatches(rule, x) && !IsKnownProxy(known, x) ==>
              RouteDecision(known, PlanOf([], [rule.outbound]), files, x) == None
  {
    var plan := PlanOf([], [rule.outbound]);
    SelfReferences([], [rule.outbound], files, x);
    PlanIsInstalled(plan, [], files, [rule], [], map[], [rule.outbound], x);
    WinnerIsUnbeaten([rule], [], map[], x);
    assert rule in [rule];
    BypassIsExact(known, plan, files, [rule], [], map[], [rule.outbound], x);
  }

  // A start with one rule sends the connections it matches to its outbound.
  lemma StartDecides(known: KnownProxies, rule: RoutingRule, sniffed: bool, x: Connection)
    returns (plan: Plan, files: Files, manifest: Manifest)
    requires rule.priority >= 0 && !rule.disabled && IsExplicit(Manual(rule))
    requires RuleMatches(rule, x) && (rule.matchType == MatchDomain || x.domain.None?)
    ensures FreshStart(plan, files, manifest, "off", [rule], [], map[])
    ensures plan == PlanOf([], [rule.outbound]) && Published(files, [rule], [], map[], [rule.outbound])
    ensures RouteDecision(known, plan, files, Seen(manifest.usesFakeIP, sniffed, x)) == Some(rule.outbound)
  {
    plan, files, manifest := FreshStartOfOneRule(rule, "off");
    assert rule in [rule];
    assert Seen(manifest.usesFakeIP, sniffed, x) == x;
    OneRuleDecides(known, rule, files, x);
  }

  // An edit is not hot if the running engine sends a connection elsewhere.
  lemma NotAsStarted(
    known: KnownProxies, plan: Plan, usesFakeIP: bool, files: Files, policy: string,
    rules: seq<RoutingRule>, sets: seq<RuleSet>, sources: Sources,
    freshPlan: Plan, freshFiles: Files, manifest: Manifest, sniffed: bool, x: Connection)
    requires FreshStart(freshPlan, freshFiles, manifest, policy, rules, sets, sources)
    requires RouteDecision(known, plan, files, Seen(usesFakeIP, sniffed, x)) !=
             RouteDecision(known, freshPlan, freshFiles, Seen(manifest.usesFakeIP, sniffed, x))
    ensures !DecidesAsStarted(known, plan, usesFakeIP, files, rules, sets, sources)
  {
    assert !AllDecideAlike(known, plan, usesFakeIP, files, freshPlan, manifest.usesFakeIP, freshFiles);
  }

  // ---- two reasons that no other covers ----

  // The recomposed files of a plan that declares no lists.
  lemma RefreshedWithoutLists(files: Files, rule: RoutingRule, manifest: Manifest)
    requires Published(files, [rule], [], map[], [rule.outbound])
    requires manifest.outbounds == [rule.outbound] && manifest.externalSets == []
    ensures Refreshed(files, manifest, [rule], [], map[])
  {
  }

  // A manifest without custom priorities: without the restart, a known proxy
  // bypasses an IP rule that it is meant to follow.
  lemma PriorityRestartIsNeeded(
    known: KnownProxies, manifest: Manifest, rule: RoutingRule, before: Files, x: Connection)
    requires manifest == Manifest([rule.outbound], manifest.usesFakeIP, false, [])
    requires !rule.disabled && rule.priority > 0 && rule.matchType == MatchIP
    requires !IsAdapter(rule.outbound) && rule.outbound != SystemDirect
    requires RuleMatches(rule, x) && x.domain.None? && IsKnownProxy(known, x)
    ensures Started(PinnedPlan(manifest, []), manifest, [])
    ensures RestartRequirement(Read(manifest), [rule], [], map[]) == Some(PriorityChanged)
    ensures !EditIsHot(known, PinnedPlan(manifest, []), manifest.usesFakeIP, Read(manifest), before, [rule], [], map[])
  {
    var freshPlan, files, freshManifest := StartDecides(known, rule, true, x);
    OlderPlanBypasses(known, rule, files, x);
    assert Seen(manifest.usesFakeIP, true, x) == x;
    RefreshedWithoutLists(files, rule, manifest);
    StartedWithoutLists(manifest);
    PriorityIsAskedFor(manifest, rule);
    NotAsStarted(known, PinnedPlan(manifest, []), manifest.usesFakeIP, files, "off", [rule], [], map[],
           freshPlan, files, freshManifest, true, x);
  }

  lemma OlderPlanBypasses(known: KnownProxies, rule: RoutingRule, files: Files, x: Connection)
    requires Published(files, [rule], [], map[], [rule.outbound]) && !IsAdapter(rule.outbound)
    requires rule.matchType == MatchIP && !rule.disabled && RuleMatches(rule, x) && IsKnownProxy(known, x)
    ensures RouteDecision(known, OlderPlanOf([], [rule.outbound]), files, x) == Some(SystemDirect)
  {
    SelfReferences([], [rule.outbound], files, x);
    WinnerIsUnbeaten([rule], [], map[], x);
    assert rule in [rule];
    OlderPlanIgnoresPriority(known, OlderPlanOf([], [rule.outbound]), [], files, [rule], [], map[], [rule.outbound], x);
  }

  // An engine without FakeIP: without the restart, it does not see the domain
  // that a rule is about.
  lemma FakeIPRestartIsNeeded(known: KnownProxies, manifest: Manifest, rule: RoutingRule, before: Files, x: Connection)
    requires manifest == Manifest([rule.outbound], false, true, [])
    requires !rule.disabled && rule.priority >= 0 && rule.matchType == MatchDomain
    requires RuleMatches(rule, x) && !IsKnownProxy(known, x)
    ensures Started(PinnedPlan(manifest, []), manifest, [])
    ensures RestartRequirement(Read(manifest), [rule], [], map[]) == Some(EnableFakeIP)
    ensures !EditIsHot(known, PinnedPlan(manifest, []), false, Read(manifest), before, [rule], [], map[])
  {
    var freshPlan, files, freshManifest := StartDecides(known, rule, false, x);
    UnseenDomain(known, rule, files, x);
    RefreshedWithoutLists(files, rule, manifest);
    StartedWithoutLists(manifest);
    FakeIPIsAskedFor(manifest, rule);
    NotAsStarted(known, PinnedPlan(manifest, []), false, files, "off", [rule], [], map[],
           freshPlan, files, freshManifest, false, x);
  }

  lemma UnseenDomain(known: KnownProxies, rule: RoutingRule, files: Files, x: Connection)
    requires Published(files, [rule], [], map[], [rule.outbound]) && rule.priority >= 0 && !rule.disabled
    requires rule.matchType == MatchDomain && !IsKnownProxy(known, x)
    ensures RouteDecision(known, PlanOf([], [rule.outbound]), files, Seen(false, false, x)) == None
  {
    OneRuleDecides(known, rule, files, x.(domain := None));
  }

  lemma StartedWithoutLists(manifest: Manifest)
    requires manifest.externalSets == []
    ensures Started(PinnedPlan(manifest, []), manifest, [])
  {
  }

  lemma PriorityIsAskedFor(manifest: Manifest, rule: RoutingRule)
    requires manifest == Manifest([rule.outbound], manifest.usesFakeIP, false, [])
    requires !rule.disabled && rule.priority > 0
    ensures RestartRequirement(Read(manifest), [rule], [], map[]) == Some(PriorityChanged)
  {
  }

  lemma FakeIPIsAskedFor(manifest: Manifest, rule: RoutingRule)
    requires manifest == Manifest([rule.outbound], false, true, [])
    requires !rule.disabled && rule.matchType == MatchDomain
    ensures RestartRequirement(Read(manifest), [rule], [], map[]) == Some(EnableFakeIP)
  {
    assert rule in [rule];
    assert RuleReason(manifest, [rule][1..]).None?;
  }

  // ---- without a manifest ----

  function ProcessRule(outbound: string): RoutingRule {
    RoutingRule(false, 0, MatchProcess, "p", Prefix(0, 0, 0), outbound)
  }

  // Two starts that differ at one connection: the old files cannot agree with both.
  lemma MissingManifestIsStale(known: KnownProxies, plan: Plan, usesFakeIP: bool, before: Files)
    returns (rule: RoutingRule)
    ensures rule.priority == 0
    ensures !EditIsHot(known, plan, usesFakeIP, Missing, before, [rule], [], map[])
  {
    var x := Connection(Some("p"), None, None, None, {}, {});
    rule := ProcessRule("direct");
    if RouteDecision(known, plan, before, Seen(usesFakeIP, true, x)) == Some("direct") {
      rule := ProcessRule("aggregation");
      assert "direct"[0] != "aggregation"[0];
    }
    var freshPlan, files, manifest := StartDecides(known, rule, true, x);
    NotAsStarted(known, plan, usesFakeIP, before, "off", [rule], [], map[],
           freshPlan, files, manifest, true, x);
  }

  // No restart is ever asked for without a manifest, so exactly its absence
  // breaks the promise: every edit is then accepted and none takes effect.
  lemma HotReloadExactly(
    known: KnownProxies, plan: Plan, usesFakeIP: bool, file: ManifestFile, started: seq<RuleSet>, before: Files)
    requires file.Read? ==> Started(plan, file.manifest, started) && usesFakeIP == file.manifest.usesFakeIP
    ensures (forall rules, sets, sources |
               && DistinctIds(sets) && NoNegativePriority(rules, sets)
               && RestartRequirement(file, rules, sets, sources).None? ::
               EditIsHot(known, plan, usesFakeIP, file, before, rules, sets, sources)) <==>
            !file.Missing?
  {
    match file
    case Read(manifest) =>
      forall rules, sets, sources |
        DistinctIds(sets) && NoNegativePriority(rules, sets) && RestartRequirement(file, rules, sets, sources).None?
        ensures EditIsHot(known, plan, usesFakeIP, file, before, rules, sets, sources)
      {
        ReadableManifestIsHot(known, plan, manifest, started, before, rules, sets, sources);
      }
    case Unreadable =>
    case Missing =>
      var rule := MissingManifestIsStale(known, plan, usesFakeIP, before);
  }
}
