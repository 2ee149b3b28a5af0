/**
 tun_config.go: the compatibility bypass, placed ahead of every user reference.
 Traffic of a known third-party proxy leaves through system-direct unless the
 user's own rules say otherwise.
 */
module Compatibility {
  import opened Options
  import opened Routing
  import opened RuleSetPlan
  import opened RuleSetDecision
  import opened Sorting

  const SystemDirect := "system-direct"

  datatype KnownProxies = KnownProxies(names: seq<string>, paths: seq<string>)

  predicate IsKnownProxy(known: KnownProxies, x: Connection) {
    (x.path.Some? && x.path.value in known.paths) || (x.process.Some? && x.process.value in known.names)
  }

  function AdapterOutbounds(outbounds: seq<string>): seq<string> {
    Filter(o => IsAdapter(o), outbounds)
  }

  function ScopeTags(scope: Scope, outbounds: seq<string>): seq<Tag> {
    Map(o => Bound(scope, o), outbounds)
  }

  // The plan the compiler emits: what is referenced where, and what the bypass
  // must yield to.
  function PlanOf(sets: seq<RuleSet>, outbounds: seq<string>): Plan {
    var external := StableSort(SetLess, sets);
    Plan(ScopeReferences(EarlyIPScope, AdapterOutbounds(outbounds)),
         Map(s => ExternalReference(s), external),
         UserReferences(outbounds),
         ScopeTags(ProcessScope, outbounds) + ScopeTags(DomainScope, outbounds) + ScopeTags(CustomIPScope, outbounds)
         + Map((s: RuleSet) => External(s.id), external))
  }

  // The plan of a program that did not yet know custom priorities: the bypass
  // did not yield to IP rules.
  function OlderPlanOf(sets: seq<RuleSet>, outbounds: seq<string>): Plan {
    var external := StableSort(SetLess, sets);
    PlanOf(sets, outbounds).(
      priority := ScopeTags(ProcessScope, outbounds) + ScopeTags(DomainScope, outbounds)
                  + Map((s: RuleSet) => External(s.id), external))
  }

  predicate TagHits(tag: Tag, files: Files, x: Connection) {
    tag in files && FileMatches(files[tag], x)
  }

  // known process, and no user intent matches
  predicate Guard(known: KnownProxies, plan: Plan, files: Files, x: Connection) {
    IsKnownProxy(known, x) && !exists t | t in plan.priority :: TagHits(t, files, x)
  }

  // The compatibility rules, then the subscribed lists, then the manual files.
  function RouteDecision(known: KnownProxies, plan: Plan, files: Files, x: Connection): Option<string> {
    if Guard(known, plan, files, x) then
      var early := FirstReference(plan.early, files, x);
      if early.Some? then early else Some(SystemDirect)
    else FirstReference(plan.external + plan.user, files, x)
  }

  // Intents the bypass yields to.
  predicate IsExplicit(intent: Intent) {
    match intent
    case Subscribed(_) => true
    case Manual(rule) => rule.matchType != MatchIP || rule.priority > 0
  }

  // normalizeRule and validateRuleSets accept no other priorities.
  predicate NoNegativePriority(rules: seq<RoutingRule>, sets: seq<RuleSet>) {
    (forall r | r in rules :: r.priority >= 0) && (forall s | s in sets :: s.priority >= 0)
  }

  // The published files together with any references to the live sets.
  ghost predicate Referenced(
    plan: Plan, files: Files, rules: seq<RoutingRule>, sets: seq<RuleSet>, payloads: Payloads,
    outbounds: seq<string>, x: Connection)
  {
    && Published(files, rules, sets, payloads, outbounds)
    && ReferencesSets(plan.external, sets, files, x)
    && plan.early == ScopeReferences(EarlyIPScope, AdapterOutbounds(outbounds))
    && plan.user == UserReferences(outbounds)
  }

  // And the bypass yields to what it should.
  ghost predicate Installed(
    plan: Plan, files: Files, rules: seq<RoutingRule>, sets: seq<RuleSet>, payloads: Payloads,
    outbounds: seq<string>, x: Connection)
  {
    && Referenced(plan, files, rules, sets, payloads, outbounds, x)
    && (forall o | o in outbounds :: Bound(ProcessScope, o) in plan.priority
                                     && Bound(DomainScope, o) in plan.priority
                                     && Bound(CustomIPScope, o) in plan.priority)
    && (forall r | r in plan.external :: r.tag in plan.priority)
    && (forall t | t in plan.priority ::
          || (t.Bound? && t.outbound in outbounds && t.scope in {ProcessScope, DomainScope, CustomIPScope})
          || (exists r :: r in plan.external && r.tag == t))
  }

  lemma AdaptersOf(outbounds: seq<string>)
    ensures forall o :: o in AdapterOutbounds(outbounds) <==> o in outbounds && IsAdapter(o)
  {
    FilterMembers(o => IsAdapter(o), outbounds);
  }

  // An explicit winner is visible in a guarding rule-set.
  lemma ExplicitWinnerBlocksBypass(
    plan: Plan, files: Files, rules: seq<RoutingRule>, sets: seq<RuleSet>, payloads: Payloads, outbounds: seq<string>,
    x: Connection)
    requires Installed(plan, files, rules, sets, payloads, outbounds, x)
    requires WinnerIsReferenced(rules, sets, payloads, outbounds, x) && NoNegativePriority(rules, sets)
    requires Winner(rules, sets, payloads, x).Some? && IsExplicit(Winner(rules, sets, payloads, x).value)
    ensures exists t :: t in plan.priority && TagHits(t, files, x)
  {
    var w := Winner(rules, sets, payloads, x).value;
    WinnerIsUnbeaten(rules, sets, payloads, x);
    match w
    case Subscribed(s) =>
      BestSetHits(rules, sets, payloads, outbounds, files, x);
      assert ExternalReference(s) in plan.external;
      assert TagHits(External(s.id), files, x);
    case Manual(rule) =>
      var scope := match rule.matchType {
        case MatchProcess => ProcessScope
        case MatchDomain => DomainScope
        case MatchIP => CustomIPScope
      };
      WinnerFileHits(rules, sets, payloads, outbounds, files, scope, x);
      assert TagHits(Bound(scope, rule.outbound), files, x);
  }

  // Nothing explicit matches when the winner is a priority-0 IP rule or absent.
  lemma NoExplicitIntentMatches(rules: seq<RoutingRule>, sets: seq<RuleSet>, payloads: Payloads, x: Connection)
    requires NoNegativePriority(rules, sets)
    requires Winner(rules, sets, payloads, x).Some? ==> !IsExplicit(Winner(rules, sets, payloads, x).value)
    ensures forall r | r in rules && !r.disabled && RuleMatches(r, x) :: !IsExplicit(Manual(r))
    ensures forall s | s in sets :: !SetMatches(s, payloads, x)
  {
    WinnerIsUnbeaten(rules, sets, payloads, x);
  }

  lemma NothingExplicitMatches(
    plan: Plan, files: Files, rules: seq<RoutingRule>, sets: seq<RuleSet>, payloads: Payloads, outbounds: seq<string>,
    x: Connection)
    requires Installed(plan, files, rules, sets, payloads, outbounds, x) && NoNegativePriority(rules, sets)
    requires Winner(rules, sets, payloads, x).Some? ==> !IsExplicit(Winner(rules, sets, payloads, x).value)
    ensures !exists t | t in plan.priority :: TagHits(t, files, x)
  {
    NoExplicitIntentMatches(rules, sets, payloads, x);
    forall t | t in plan.priority
      ensures !TagHits(t, files, x)
    {
      if t.Bound? && t.outbound in outbounds && t.scope in {ProcessScope, DomainScope, CustomIPScope} {
        forall r | r in rules && Selected(r, t.scope, t.outbound)
          ensures !RuleMatches(r, x)
        {
          assert IsExplicit(Manual(r));
        }
        SilentFile(files, rules, outbounds, t.scope, t.outbound, x);
      } else {
        var r :| r in plan.external && r.tag == t;
        if Hits(r, files, x) {
          var s :| s in sets && r == ExternalReference(s);
          var i := SetHit(rules, sets, payloads, outbounds, files, s, x);
        }
      }
    }
  }

  // A file none of whose rules matches is silent.
  lemma SilentFile(
    files: Files, rules: seq<RoutingRule>, outbounds: seq<string>, scope: Scope, outbound: string, x: Connection)
    requires ManualPublished(files, StableSort(CandidateLess, rules), outbounds) && outbound in outbounds
    requires scope != EarlyIPScope
    requires forall r | r in rules && Selected(r, scope, outbound) :: !RuleMatches(r, x)
    ensures !TagHits(Bound(scope, outbound), files, x)
  {
    var c := StableSort(CandidateLess, rules);
    ManualHit(rules, outbounds, files, scope, outbound, x);
    SortPermutes(CandidateLess, rules);
    forall d | 0 <= d < |c| && Selected(c[d], scope, outbound)
      ensures !Claims(c, d, x)
    {
      assert c[d] in rules;
    }
  }

  // The adapter overrides then agree with the winner.
  lemma EarlyReferencesFollowWinner(
    plan: Plan, files: Files, rules: seq<RoutingRule>, sets: seq<RuleSet>, payloads: Payloads, outbounds: seq<string>,
    x: Connection)
    requires Installed(plan, files, rules, sets, payloads, outbounds, x) && NoNegativePriority(rules, sets)
    requires WinnerIsReferenced(rules, sets, payloads, outbounds, x)
    requires Winner(rules, sets, payloads, x).Some? ==> !IsExplicit(Winner(rules, sets, payloads, x).value)
    ensures var w := Winner(rules, sets, payloads, x);
            FirstReference(plan.early, files, x) ==
            if w.Some? && IsAdapter(OutboundOf(w.value)) then Some(OutboundOf(w.value)) else None
  {
    var w := Winner(rules, sets, payloads, x);
    var adapters := AdapterOutbounds(outbounds);
    AdaptersOf(outbounds);
    ScopeReferencesMembers(EarlyIPScope, adapters);
    if w.None? {
      NothingHits(rules, sets, payloads, outbounds, files, plan.external, x);
      AgreeingReferences(plan.early, files, x, "");
    } else {
      var rule := w.value.rule;
      WinnerIsUnbeaten(rules, sets, payloads, x);
      forall r | r in plan.early && Hits(r, files, x)
        ensures r.outbound == rule.outbound
      {
        HitFollowsWinner(rules, sets, payloads, outbounds, files, EarlyIPScope, r.outbound, x);
      }
      AgreeingReferences(plan.early, files, x, rule.outbound);
      if IsAdapter(rule.outbound) {
        WinnerFileHits(rules, sets, payloads, outbounds, files, EarlyIPScope, x);
        assert Reference(Bound(EarlyIPScope, rule.outbound), rule.outbound) in plan.early;
      }
    }
  }

  // The bypass is exact. A known proxy follows an explicit winner; otherwise an
  // adapter-bound IP winner; otherwise it leaves through system-direct. Any other
  // process follows the ranked list.
  lemma BypassIsExact(
    known: KnownProxies, plan: Plan, files: Files, rules: seq<RoutingRule>, sets: seq<RuleSet>, payloads: Payloads,
    outbounds: seq<string>, x: Connection)
    requires Installed(plan, files, rules, sets, payloads, outbounds, x)
    requires WinnerIsReferenced(rules, sets, payloads, outbounds, x) && NoNegativePriority(rules, sets)
    ensures var w := Winner(rules, sets, payloads, x);
            RouteDecision(known, plan, files, x) ==
            if !IsKnownProxy(known, x) then WinnerOutbound(rules, sets, payloads, x)
            else if w.Some? && IsExplicit(w.value) then Some(OutboundOf(w.value))
            else if w.Some? && IsAdapter(OutboundOf(w.value)) then Some(OutboundOf(w.value))
            else Some(SystemDirect)
  {
    var w := Winner(rules, sets, payloads, x);
    PlanFollowsRanking(rules, sets, payloads, outbounds, files, plan.external, x);
    if w.Some? && IsExplicit(w.value) {
      ExplicitWinnerBlocksBypass(plan, files, rules, sets, payloads, outbounds, x);
    } else {
      NothingExplicitMatches(plan, files, rules, sets, payloads, outbounds, x);
      EarlyReferencesFollowWinner(plan, files, rules, sets, payloads, outbounds, x);
    }
  }

  // A winner whose outbound has no reference yet, bypass included: what takes its
  // connections is the bypass itself or an equal-priority rule of a later type.
  lemma UnreferencedWinnerUnderBypass(
    known: KnownProxies, plan: Plan, files: Files, rules: seq<RoutingRule>, sets: seq<RuleSet>, payloads: Payloads,
    outbounds: seq<string>, x: Connection)
    requires Referenced(plan, files, rules, sets, payloads, outbounds, x)
    requires Winner(rules, sets, payloads, x).Some? && Winner(rules, sets, payloads, x).value.Manual?
    ensures var rule := Winner(rules, sets, payloads, x).value.rule;
            var taken := RouteDecision(known, plan, files, x);
            taken.Some? && taken.value != rule.outbound &&
            !(taken.value == SystemDirect && Guard(known, plan, files, x)) ==>
              exists r :: && r in rules && !r.disabled && RuleMatches(r, x) && r.outbound == taken.value
                          && r.priority == rule.priority && TypeRank(r.matchType) > TypeRank(rule.matchType)
  {
    if !Guard(known, plan, files, x) {
      UnreferencedWinner(rules, sets, payloads, outbounds, files, plan.external, x);
    } else if FirstReference(plan.early, files, x).Some? {
      var r := FirstReferenceMember(plan.early, files, x);
      ScopeReferencesMembers(EarlyIPScope, AdapterOutbounds(outbounds));
      AdaptersOf(outbounds);
      if r.outbound != Winner(rules, sets, payloads, x).value.rule.outbound {
        var later := ForeignHitIsLater(rules, sets, payloads, outbounds, files, EarlyIPScope, r.outbound, x);
      }
    }
  }

  // ---- the plan of an older program ----

  // Without custom priorities the older plan decides alike.
  lemma OlderPlanDecidesAlike(
    known: KnownProxies, sets: seq<RuleSet>, files: Files, rules: seq<RoutingRule>, outbounds: seq<string>,
    x: Connection)
    requires ManualPublished(files, StableSort(CandidateLess, rules), outbounds)
    requires forall r | r in rules && !r.disabled :: r.priority == 0
    ensures RouteDecision(known, OlderPlanOf(sets, outbounds), files, x) ==
            RouteDecision(known, PlanOf(sets, outbounds), files, x)
  {
    forall t | t in ScopeTags(CustomIPScope, outbounds)
      ensures !TagHits(t, files, x)
    {
      SilentFile(files, rules, outbounds, CustomIPScope, t.outbound, x);
    }
  }

  // With them it does not: a known proxy bypasses an IP rule of any priority
  // whenever nothing but IP rules matches.
  lemma OlderPlanIgnoresPriority(
    known: KnownProxies, plan: Plan, started: seq<RuleSet>, files: Files,
    rules: seq<RoutingRule>, sets: seq<RuleSet>, payloads: Payloads, outbounds: seq<string>, x: Connection)
    requires plan == OlderPlanOf(started, outbounds)
    requires Referenced(plan, files, rules, sets, payloads, outbounds, x) && IsKnownProxy(known, x)
    requires var w := Winner(rules, sets, payloads, x);
             w.Some? && w.value.Manual? && w.value.rule.matchType == MatchIP && !IsAdapter(w.value.rule.outbound)
    requires forall r | r in rules && !r.disabled && RuleMatches(r, x) :: r.matchType == MatchIP
    requires forall s | s in sets :: !SetMatches(s, payloads, x)
    ensures RouteDecision(known, plan, files, x) == Some(SystemDirect)
  {
    var adapters := AdapterOutbounds(outbounds);
    AdaptersOf(outbounds);
    ScopeReferencesMembers(EarlyIPScope, adapters);
    forall t | t in plan.priority
      ensures !TagHits(t, files, x)
    {
      OlderTagIsSilent(plan, started, files, rules, sets, payloads, outbounds, t, x);
    }
    forall r | r in plan.early
      ensures !Hits(r, files, x)
    {
      if Hits(r, files, x) {
        HitFollowsWinner(rules, sets, payloads, outbounds, files, EarlyIPScope, r.outbound, x);
      }
    }
    AgreeingReferences(plan.early, files, x, "");
  }

  lemma OlderTagIsSilent(
    plan: Plan, started: seq<RuleSet>, files: Files, rules: seq<RoutingRule>, sets: seq<RuleSet>, payloads: Payloads,
    outbounds: seq<string>, t: Tag, x: Connection)
    requires plan == OlderPlanOf(started, outbounds) && t in plan.priority
    requires Referenced(plan, files, rules, sets, payloads, outbounds, x)
    requires forall r | r in rules && !r.disabled && RuleMatches(r, x) :: r.matchType == MatchIP
    requires forall s | s in sets :: !SetMatches(s, payloads, x)
    ensures !TagHits(t, files, x)
  {
    if t.Bound? {
      SilentFile(files, rules, outbounds, t.scope, t.outbound, x);
    } else {
      var sorted := StableSort(SetLess, started);
      var tags := Map((s: RuleSet) => External(s.id), sorted);
      var k :| 0 <= k < |tags| && tags[k] == t;
      assert plan.external[k] == ExternalReference(sorted[k]);
      var r := plan.external[k];
      assert r in plan.external;
      if Hits(r, files, x) {
        var s :| s in sets && r == ExternalReference(s);
        var i := SetHit(rules, sets, payloads, outbounds, files, s, x);
      }
    }
  }

  // ---- a freshly compiled plan ----

  lemma SelfReferences(sets: seq<RuleSet>, outbounds: seq<string>, files: Files, x: Connection)
    ensures ReferencesSets(PlanOf(sets, outbounds).external, sets, files, x)
  {
    var external := StableSort(SetLess, sets);
    var references := PlanOf(sets, outbounds).external;
    SortPermutes(SetLess, sets);
    forall s | s in sets
      ensures ExternalReference(s) in references
    {
      assert s in external;
      var k :| 0 <= k < |external| && external[k] == s;
      assert references[k] == ExternalReference(s);
    }
  }

  // A compiled plan whose outbounds cover the enabled rules decides every
  // connection as the ranked list does, in whatever order its references to
  // subscribed lists are written.
  lemma CompiledPlanDecides(
    rules: seq<RoutingRule>, sets: seq<RuleSet>, payloads: Payloads, outbounds: seq<string>,
    files: Files, external: seq<Reference>, x: Connection)
    requires Published(files, rules, sets, payloads, outbounds)
    requires forall r | r in rules && !r.disabled :: r.outbound in outbounds
    requires multiset(external) == multiset(PlanOf(sets, outbounds).external)
    ensures FirstReference(external + PlanOf(sets, outbounds).user, files, x) ==
            WinnerOutbound(rules, sets, payloads, x)
  {
    var written := PlanOf(sets, outbounds).external;
    SelfReferences(sets, outbounds, files, x);
    WinnerIsUnbeaten(rules, sets, payloads, x);
    assert forall r :: r in external <==> r in multiset(external);
    assert forall r :: r in written <==> r in multiset(written);
    PlanFollowsRanking(rules, sets, payloads, outbounds, files, external, x);
  }
}
