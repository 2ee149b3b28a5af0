/**
 singbox_rules.go and tun_config.go, read as the user reads them: who wins when
 several rules and lists match one connection, by priorities, types, labels,
 prefix lengths and the characters of names; and what a known proxy does.
 */
module Precedence {
  import opened Compatibility
  import opened Options
  import opened Routing
  import opened RuleSetDecision
  import opened RuleSetPlan
  import opened Sorting
  import opened Text

  function PriorityOf(intent: Intent): int {
    match intent
    case Manual(rule) => rule.priority
    case Subscribed(ruleSet) => ruleSet.priority
  }

  // Processes before domains before lists before addresses.
  predicate EarlierKind(a: Intent, b: Intent) {
    match (a, b)
    case (Manual(p), Manual(q)) =>
      || (p.matchType == MatchProcess && q.matchType in {MatchDomain, MatchIP})
      || (p.matchType == MatchDomain && q.matchType == MatchIP)
    case (Manual(p), Subscribed(_)) => p.matchType in {MatchProcess, MatchDomain}
    case (Subscribed(_), Manual(q)) => q.matchType == MatchIP
    case (Subscribed(_), Subscribed(_)) => false
  }

  // More labels, or a longer prefix.
  predicate MoreSpecific(p: RoutingRule, q: RoutingRule) {
    || (p.matchType == MatchDomain && Dots(TrimDot(p.value)) > Dots(TrimDot(q.value)))
    || (p.matchType == MatchIP && p.network.bits > q.network.bits)
  }

  ghost predicate NameComesFirst(a: string, b: string) {
    exists k: nat :: DifferAt(Lower(a), Lower(b), k)
  }

  // Of two intents that both match, a is the one meant.
  ghost predicate Beats(a: Intent, b: Intent) {
    || PriorityOf(a) > PriorityOf(b)
    || (PriorityOf(a) == PriorityOf(b) && EarlierKind(a, b))
    || (PriorityOf(a) == PriorityOf(b) && !EarlierKind(b, a) && BeatsItsKind(a, b))
  }

  ghost predicate BeatsItsKind(a: Intent, b: Intent) {
    match (a, b)
    case (Manual(p), Manual(q)) =>
      MoreSpecific(p, q) || (!MoreSpecific(q, p) && NameComesFirst(p.value, q.value))
    case (Subscribed(s), Subscribed(t)) => NameComesFirst(s.name, t.name)
    case (_, _) => false
  }

  lemma BeatsIsRanksAhead(a: Intent, b: Intent)
    ensures Beats(a, b) <==> RanksAhead(a, b)
  {
    StringLessIsByteOrder(RankOf(a).name, RankOf(b).name);
  }

  // The intent at i matches and beats every other that matches; what it only
  // ties with was configured later.
  ghost predicate IsMeant(intents: seq<Intent>, i: nat, payloads: Payloads, x: Connection) {
    && i < |intents| && IntentMatches(intents[i], payloads, x)
    && forall j | 0 <= j < |intents| && j != i && IntentMatches(intents[j], payloads, x) ::
         Beats(intents[i], intents[j]) || (!Beats(intents[j], intents[i]) && i < j)
  }

  lemma {:induction false} MatchInsertedFirst(w: Intent, s: seq<Intent>, payloads: Payloads, x: Connection)
    requires IntentMatches(w, payloads, x)
    requires forall t | t in s && IntentMatches(t, payloads, x) :: !RanksAhead(t, w)
    ensures FirstMatch(Insert(RanksAhead, w, s), payloads, x) == Some(w)
  {
    if s != [] && RanksAhead(s[0], w) {
      assert s[0] in s;
      MatchInsertedFirst(w, s[1..], payloads, x);
    }
  }

  lemma {:induction false} MatchInsertedLater(h: Intent, s: seq<Intent>, payloads: Payloads, x: Connection)
    requires StrictWeakOrder(RanksAhead) && Ordered(RanksAhead, s)
    requires var w := FirstMatch(s, payloads, x);
             w.Some? && (IntentMatches(h, payloads, x) ==> RanksAhead(w.value, h))
    ensures FirstMatch(Insert(RanksAhead, h, s), payloads, x) == FirstMatch(s, payloads, x)
  {
    if RanksAhead(s[0], h) {
      if !IntentMatches(s[0], payloads, x) {
        MatchInsertedLater(h, s[1..], payloads, x);
      }
    } else {
      var k := FirstMatchIndex(s, payloads, x);
    }
  }

  lemma {:induction false} SortedMatchIsMeant(intents: seq<Intent>, i: nat, payloads: Payloads, x: Connection)
    requires IsMeant(intents, i, payloads, x)
    ensures FirstMatch(StableSort(RanksAhead, intents), payloads, x) == Some(intents[i])
  {
    var h, rest := intents[0], intents[1..];
    RanksAheadIsStrictWeak();
    SortOrders(RanksAhead, rest);
    SortPermutes(RanksAhead, rest);
    if i == 0 {
      forall t | t in rest && IntentMatches(t, payloads, x)
        ensures !RanksAhead(t, h)
      {
        var j :| 0 <= j < |rest| && rest[j] == t;
        assert intents[j + 1] == t;
        BeatsIsRanksAhead(h, t);
        BeatsIsRanksAhead(t, h);
      }
      MatchInsertedFirst(h, StableSort(RanksAhead, rest), payloads, x);
    } else {
      assert rest[i - 1] == intents[i];
      assert IsMeant(rest, i - 1, payloads, x) by {
        assert forall j | 0 <= j < |rest| :: rest[j] == intents[j + 1];
      }
      SortedMatchIsMeant(rest, i - 1, payloads, x);
      BeatsIsRanksAhead(intents[i], h);
      MatchInsertedLater(h, StableSort(RanksAhead, rest), payloads, x);
    }
  }

  // The compiled references give a connection to the intent that is meant, ties
  // between equals included.
  lemma PlanPicksWhatIsMeant(
    rules: seq<RoutingRule>, sets: seq<RuleSet>, payloads: Payloads, outbounds: seq<string>,
    files: Files, external: seq<Reference>, i: nat, x: Connection)
    requires Published(files, rules, sets, payloads, outbounds) && ReferencesSets(external, sets, files, x)
    requires forall r | r in rules && !r.disabled :: r.outbound in outbounds
    requires IsMeant(AllIntents(rules, sets), i, payloads, x)
    ensures FirstReference(external + UserReferences(outbounds), files, x) ==
            Some(OutboundOf(AllIntents(rules, sets)[i]))
  {
    SortedMatchIsMeant(AllIntents(rules, sets), i, payloads, x);
    WinnerIsUnbeaten(rules, sets, payloads, x);
    PlanFollowsRanking(rules, sets, payloads, outbounds, files, external, x);
  }

  // Of two matching lists of one priority, where no rule and no other list as
  // high matches, the one whose lower-case name comes first decides.
  lemma EarlierNameDecides(
    rules: seq<RoutingRule>, sets: seq<RuleSet>, payloads: Payloads, outbounds: seq<string>,
    files: Files, external: seq<Reference>, i: nat, j: nat, k: nat, x: Connection)
    requires Published(files, rules, sets, payloads, outbounds) && ReferencesSets(external, sets, files, x)
    requires forall r | r in rules && !r.disabled :: r.outbound in outbounds && !RuleMatches(r, x)
    requires i < |sets| && j < |sets| && SetMatches(sets[i], payloads, x) && SetMatches(sets[j], payloads, x)
    requires sets[i].priority == sets[j].priority && DifferAt(Lower(sets[i].name), Lower(sets[j].name), k)
    requires forall n | 0 <= n < |sets| && n != i && n != j && SetMatches(sets[n], payloads, x) ::
               sets[n].priority < sets[i].priority
    ensures FirstReference(external + UserReferences(outbounds), files, x) == Some(sets[i].outbound)
  {
    var all := AllIntents(rules, sets);
    assert all[|rules| + i] == Subscribed(sets[i]);
    assert NameComesFirst(sets[i].name, sets[j].name);
    forall m | 0 <= m < |all| && m != |rules| + i && IntentMatches(all[m], payloads, x)
      ensures Beats(all[|rules| + i], all[m])
    {
      if m >= |rules| {
        assert all[m] == Subscribed(sets[m - |rules|]);
      }
    }
    PlanPicksWhatIsMeant(rules, sets, payloads, outbounds, files, external, |rules| + i, x);
  }

  // ---- known proxies, by name and by path ----

  ghost predicate NothingMatches(rules: seq<RoutingRule>, sets: seq<RuleSet>, payloads: Payloads, x: Connection) {
    && (forall r | r in rules && !r.disabled :: !RuleMatches(r, x))
    && (forall s | s in sets :: !SetMatches(s, payloads, x))
  }

  predicate NamedProxy(names: seq<string>, x: Connection) {
    exists i :: 0 <= i < |names| && x.process == Some(names[i])
  }

  predicate PathProxy(paths: seq<string>, x: Connection) {
    exists i :: 0 <= i < |paths| && x.path == Some(paths[i])
  }

  // A process known by name, or by path, leaves directly when nothing matches it;
  // any other is left to the route's final outbound.
  lemma UnmatchedProxyLeavesDirectly(
    known: KnownProxies, plan: Plan, files: Files, rules: seq<RoutingRule>, sets: seq<RuleSet>, payloads: Payloads,
    outbounds: seq<string>, x: Connection)
    requires Installed(plan, files, rules, sets, payloads, outbounds, x)
    requires (forall r | r in rules :: r.priority >= 0) && (forall s | s in sets :: s.priority >= 0)
    requires NothingMatches(rules, sets, payloads, x)
    ensures NamedProxy(known.names, x) ==> RouteDecision(known, plan, files, x) == Some("system-direct")
    ensures PathProxy(known.paths, x) ==> RouteDecision(known, plan, files, x) == Some("system-direct")
    ensures !NamedProxy(known.names, x) && !PathProxy(known.paths, x) ==> RouteDecision(known, plan, files, x) == None
  {
    WinnerIsUnbeaten(rules, sets, payloads, x);
    BypassIsExact(known, plan, files, rules, sets, payloads, outbounds, x);
  }

  lemma AdapterIsNamedNic(outbound: string)
    ensures IsAdapter(outbound) <==> exists rest :: outbound == "nic_" + rest
  {
    if IsAdapter(outbound) {
      assert outbound == "nic_" + outbound[4..];
    }
  }

  // What else a known proxy does, intent by intent.
  lemma ProxyFollowsWhatIsMeant(
    known: KnownProxies, plan: Plan, files: Files, rules: seq<RoutingRule>, sets: seq<RuleSet>, payloads: Payloads,
    outbounds: seq<string>, i: nat, x: Connection)
    requires Installed(plan, files, rules, sets, payloads, outbounds, x)
    requires (forall r | r in rules :: r.priority >= 0) && (forall s | s in sets :: s.priority >= 0)
    requires forall r | r in rules && !r.disabled :: r.outbound in outbounds
    requires IsMeant(AllIntents(rules, sets), i, payloads, x)
    ensures var meant := AllIntents(rules, sets)[i];
            var decision := RouteDecision(known, plan, files, x);
            if !NamedProxy(known.names, x) && !PathProxy(known.paths, x) then decision == Some(OutboundOf(meant))
            else match meant
              case Subscribed(s) => decision == Some(s.outbound)
              case Manual(r) =>
                if r.matchType in {MatchProcess, MatchDomain} || r.priority > 0 then decision == Some(r.outbound)
                else
                  && (forall rest :: r.outbound == "nic_" + rest ==> decision == Some("nic_" + rest))
                  && ((forall rest :: r.outbound != "nic_" + rest) ==> decision == Some("system-direct"))
  {
    SortedMatchIsMeant(AllIntents(rules, sets), i, payloads, x);
    WinnerIsUnbeaten(rules, sets, payloads, x);
    BypassIsExact(known, plan, files, rules, sets, payloads, outbounds, x);
    AdapterIsNamedNic(OutboundOf(AllIntents(rules, sets)[i]));
  }
}
