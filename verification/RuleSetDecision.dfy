/**
 The compiled references decide every connection as the single ranked list does.
 */
module RuleSetDecision {
  import opened Options
  import opened Routing
  import opened RuleSetPlan
  import opened Sorting

  // References to subscribed lists, in any order and possibly with stale ones:
  // every live list is referenced, and whatever else is referenced matches nothing.
  ghost predicate ReferencesSets(external: seq<Reference>, sets: seq<RuleSet>, files: Files, x: Connection) {
    && (forall s | s in sets :: ExternalReference(s) in external)
    && (forall r | r in external && Hits(r, files, x) :: exists s :: s in sets && r == ExternalReference(s))
  }

  ghost predicate WinnerIsReferenced(
    rules: seq<RoutingRule>, sets: seq<RuleSet>, payloads: Payloads, outbounds: seq<string>, x: Connection)
  {
    var w := Winner(rules, sets, payloads, x);
    w.Some? && w.value.Manual? ==> w.value.rule.outbound in outbounds
  }

  // A matching list that does not beat a manual rule is carved out by it.
  lemma CarvesIsRank(rule: RoutingRule, ruleSet: RuleSet)
    ensures RanksAheadOfSet(rule, ruleSet) <==> RanksAhead(Manual(rule), Subscribed(ruleSet))
    ensures RanksAhead(Manual(rule), Subscribed(ruleSet)) <==> !RanksAhead(Subscribed(ruleSet), Manual(rule))
  {
  }

  // What a hit on a subscribed reference means.
  lemma SetHit(
    rules: seq<RoutingRule>, sets: seq<RuleSet>, payloads: Payloads, outbounds: seq<string>, files: Files, s: RuleSet,
    x: Connection)
    returns (i: nat)
    requires Published(files, rules, sets, payloads, outbounds) && s in sets
    ensures var e, c := StableSort(SetLess, sets), StableSort(CandidateLess, rules);
            && i < |e| && e[i] == s
            && (Hits(ExternalReference(s), files, x) <==>
                && SetMatches(s, payloads, x)
                && (forall r | r in rules && Carves(r, s) :: !RuleMatches(r, x))
                && (forall t | t in e[..i] && t.outbound != s.outbound :: !SetMatches(t, payloads, x)))
  {
    var e, c := StableSort(SetLess, sets), StableSort(CandidateLess, rules);
    SortPermutes(SetLess, sets);
    SortPermutes(CandidateLess, rules);
    i :| 0 <= i < |e| && e[i] == s;
    ExternalFileMatches(s, e[..i], c, payloads, x);
  }

  // What a hit on a manual reference means.
  lemma ManualHit(
    rules: seq<RoutingRule>, outbounds: seq<string>, files: Files, scope: Scope, outbound: string, x: Connection)
    requires ManualPublished(files, StableSort(CandidateLess, rules), outbounds) && outbound in outbounds
    requires scope == EarlyIPScope ==> IsAdapter(outbound)
    ensures var c := StableSort(CandidateLess, rules);
            Hits(Reference(Bound(scope, outbound), outbound), files, x) <==> SomeClaim(c, scope, outbound, |c|, x)
  {
    var c := StableSort(CandidateLess, rules);
    SourceRulesMatch(c, scope, outbound, |c|, x);
    assert files[Bound(scope, outbound)] == SourceRules(c, scope, outbound, |c|);
  }

  // Everything after the first enabled match c[i] that still claims the
  // connection for another outbound is of a later type and the same priority.
  lemma LaterClaim(c: seq<RoutingRule>, i: nat, d: nat, x: Connection)
    requires Ordered(CandidateLess, c) && i < |c| && d < |c|
    requires !c[i].disabled && RuleMatches(c[i], x)
    requires forall j | 0 <= j < i :: c[j].disabled || !RuleMatches(c[j], x)
    requires !c[d].disabled && Claims(c, d, x) && c[d].outbound != c[i].outbound
    ensures i < d && TypeRank(c[d].matchType) > TypeRank(c[i].matchType) && c[d].priority == c[i].priority
  {
    assert i < d;
    assert !CandidateLess(c[d], c[i]);
    if c[d].matchType == c[i].matchType {
      CommonMatchIsOverlap(c[i], c[d], x);
    }
  }

  lemma ScopeReferencesMembers(scope: Scope, outbounds: seq<string>)
    ensures forall r :: r in ScopeReferences(scope, outbounds) <==>
            r.outbound in outbounds && r == Reference(Bound(scope, r.outbound), r.outbound)
  {
  }

  // Case 1: a manual rule wins. Every subscribed hit already names its outbound,
  // and so does every manual hit up to its own scope, where its own file hits.
  lemma SetsYieldToManual(
    rules: seq<RoutingRule>, sets: seq<RuleSet>, payloads: Payloads, outbounds: seq<string>,
    files: Files, external: seq<Reference>, x: Connection)
    requires Published(files, rules, sets, payloads, outbounds) && ReferencesSets(external, sets, files, x)
    requires Winner(rules, sets, payloads, x).Some? && Winner(rules, sets, payloads, x).value.Manual?
    ensures forall r | r in external && Hits(r, files, x) ::
              r.outbound == Winner(rules, sets, payloads, x).value.rule.outbound
  {
    var rule := Winner(rules, sets, payloads, x).value.rule;
    WinnerIsUnbeaten(rules, sets, payloads, x);
    forall r | r in external && Hits(r, files, x)
      ensures r.outbound == rule.outbound
    {
      var s :| s in sets && r == ExternalReference(s);
      var i := SetHit(rules, sets, payloads, outbounds, files, s, x);
      CarvesIsRank(rule, s);
    }
  }

  // A manual file of a type no later than the winner's hits for its outbound only.
  lemma HitFollowsWinner(
    rules: seq<RoutingRule>, sets: seq<RuleSet>, payloads: Payloads, outbounds: seq<string>,
    files: Files, scope: Scope, outbound: string, x: Connection)
    requires ManualPublished(files, StableSort(CandidateLess, rules), outbounds) && outbound in outbounds
    requires scope == EarlyIPScope ==> IsAdapter(outbound)
    requires Winner(rules, sets, payloads, x).Some? && Winner(rules, sets, payloads, x).value.Manual?
    requires TypeRank(ScopeType(scope)) <= TypeRank(Winner(rules, sets, payloads, x).value.rule.matchType)
    requires Hits(Reference(Bound(scope, outbound), outbound), files, x)
    ensures outbound == Winner(rules, sets, payloads, x).value.rule.outbound
  {
    var c := StableSort(CandidateLess, rules);
    WinnerIsUnbeaten(rules, sets, payloads, x);
    ComparisonsAgreeWithRank();
    SortOrders(CandidateLess, rules);
    var i := WinningCandidate(rules, sets, payloads, x);
    ManualHit(rules, outbounds, files, scope, outbound, x);
    var d :| 0 <= d < |c| && Selected(c[d], scope, outbound) && Claims(c, d, x);
    if outbound != c[i].outbound {
      LaterClaim(c, i, d, x);
    }
  }

  // Every file that selects the winner hits.
  lemma WinnerFileHits(
    rules: seq<RoutingRule>, sets: seq<RuleSet>, payloads: Payloads, outbounds: seq<string>,
    files: Files, scope: Scope, x: Connection)
    requires ManualPublished(files, StableSort(CandidateLess, rules), outbounds)
    requires Winner(rules, sets, payloads, x).Some? && Winner(rules, sets, payloads, x).value.Manual?
    requires var rule := Winner(rules, sets, payloads, x).value.rule;
             && Selected(rule, scope, rule.outbound) && rule.outbound in outbounds
             && (scope == EarlyIPScope ==> IsAdapter(rule.outbound))
    ensures var rule := Winner(rules, sets, payloads, x).value.rule;
            Hits(Reference(Bound(scope, rule.outbound), rule.outbound), files, x)
  {
    var rule := Winner(rules, sets, payloads, x).value.rule;
    var c := StableSort(CandidateLess, rules);
    WinnerIsUnbeaten(rules, sets, payloads, x);
    var i := WinningCandidate(rules, sets, payloads, x);
    ManualHit(rules, outbounds, files, scope, rule.outbound, x);
    assert Selected(c[i], scope, rule.outbound) && Claims(c, i, x);
  }

  lemma ScopeHits(
    rules: seq<RoutingRule>, sets: seq<RuleSet>, payloads: Payloads, outbounds: seq<string>,
    files: Files, scope: Scope, x: Connection)
    requires Published(files, rules, sets, payloads, outbounds)
    requires scope in {ProcessScope, DomainScope, IPScope}
    requires Winner(rules, sets, payloads, x).Some? && Winner(rules, sets, payloads, x).value.Manual?
    ensures var rule := Winner(rules, sets, payloads, x).value.rule;
            && (TypeRank(ScopeType(scope)) <= TypeRank(rule.matchType) ==>
                forall r | r in ScopeReferences(scope, outbounds) && Hits(r, files, x) :: r.outbound == rule.outbound)
            && (ScopeType(scope) == rule.matchType && rule.outbound in outbounds ==>
                exists r :: r in ScopeReferences(scope, outbounds) && Hits(r, files, x))
  {
    var rule := Winner(rules, sets, payloads, x).value.rule;
    WinnerIsUnbeaten(rules, sets, payloads, x);
    ScopeReferencesMembers(scope, outbounds);
    if TypeRank(ScopeType(scope)) <= TypeRank(rule.matchType) {
      forall r | r in ScopeReferences(scope, outbounds) && Hits(r, files, x)
        ensures r.outbound == rule.outbound
      {
        HitFollowsWinner(rules, sets, payloads, outbounds, files, scope, r.outbound, x);
      }
    }
    if ScopeType(scope) == rule.matchType && rule.outbound in outbounds {
      WinnerFileHits(rules, sets, payloads, outbounds, files, scope, x);
      assert Reference(Bound(scope, rule.outbound), rule.outbound) in ScopeReferences(scope, outbounds);
    }
  }

  lemma ManualWins(
    rules: seq<RoutingRule>, sets: seq<RuleSet>, payloads: Payloads, outbounds: seq<string>,
    files: Files, external: seq<Reference>, x: Connection)
    requires Published(files, rules, sets, payloads, outbounds) && ReferencesSets(external, sets, files, x)
    requires Winner(rules, sets, payloads, x).Some? && Winner(rules, sets, payloads, x).value.Manual?
    requires WinnerIsReferenced(rules, sets, payloads, outbounds, x)
    ensures FirstReference(external + UserReferences(outbounds), files, x) == WinnerOutbound(rules, sets, payloads, x)
  {
    var rule := Winner(rules, sets, payloads, x).value.rule;
    SetsYieldToManual(rules, sets, payloads, outbounds, files, external, x);
    ScopeHits(rules, sets, payloads, outbounds, files, ProcessScope, x);
    ScopeHits(rules, sets, payloads, outbounds, files, DomainScope, x);
    ScopeHits(rules, sets, payloads, outbounds, files, IPScope, x);
    FirstReferenceOfJoin(external, UserReferences(outbounds), files, x);
    AgreeingReferences(external, files, x, rule.outbound);
    ThreeScopes(ScopeReferences(ProcessScope, outbounds), ScopeReferences(DomainScope, outbounds),
                ScopeReferences(IPScope, outbounds), files, x, rule.outbound, TypeRank(rule.matchType));
  }

  // The scopes up to the winner's agree on its outbound, and its own scope hits.
  lemma ThreeScopes(
    p: seq<Reference>, d: seq<Reference>, n: seq<Reference>, files: Files, x: Connection, outbound: string, rank: nat)
    requires rank <= 2
    requires forall r | r in p && Hits(r, files, x) :: r.outbound == outbound
    requires rank >= 1 ==> forall r | r in d && Hits(r, files, x) :: r.outbound == outbound
    requires rank == 2 ==> forall r | r in n && Hits(r, files, x) :: r.outbound == outbound
    requires exists r :: r in (if rank == 0 then p else if rank == 1 then d else n) && Hits(r, files, x)
    ensures FirstReference(p + d + n, files, x) == Some(outbound)
  {
    FirstReferenceOfJoin(p + d, n, files, x);
    FirstReferenceOfJoin(p, d, files, x);
    AgreeingReferences(p, files, x, outbound);
    if rank >= 1 {
      AgreeingReferences(d, files, x, outbound);
    }
    if rank == 2 {
      AgreeingReferences(n, files, x, outbound);
    }
  }

  // Case 2: a subscribed list wins. Its own file hits, and every list that also
  // hits for another outbound would have been carved out.
  lemma BestSetHits(
    rules: seq<RoutingRule>, sets: seq<RuleSet>, payloads: Payloads, outbounds: seq<string>, files: Files,
    x: Connection)
    requires Published(files, rules, sets, payloads, outbounds)
    requires Winner(rules, sets, payloads, x).Some? && Winner(rules, sets, payloads, x).value.Subscribed?
    ensures Hits(ExternalReference(Winner(rules, sets, payloads, x).value.ruleSet), files, x)
  {
    var best := Winner(rules, sets, payloads, x).value.ruleSet;
    var e := StableSort(SetLess, sets);
    WinnerIsUnbeaten(rules, sets, payloads, x);
    SortPermutes(CandidateLess, rules);
    var i := WinningSet(rules, sets, payloads, x);
    ExternalFileMatches(best, e[..i], StableSort(CandidateLess, rules), payloads, x);
    forall r | r in rules && Carves(r, best)
      ensures !RuleMatches(r, x)
    {
      CarvesIsRank(r, best);
    }
  }

  lemma RivalsAreCarved(
    rules: seq<RoutingRule>, sets: seq<RuleSet>, payloads: Payloads, outbounds: seq<string>, files: Files, s: RuleSet,
    x: Connection)
    requires Published(files, rules, sets, payloads, outbounds) && s in sets && Hits(ExternalReference(s), files, x)
    requires Winner(rules, sets, payloads, x).Some? && Winner(rules, sets, payloads, x).value.Subscribed?
    ensures s.outbound == Winner(rules, sets, payloads, x).value.ruleSet.outbound
  {
    var best := Winner(rules, sets, payloads, x).value.ruleSet;
    var e := StableSort(SetLess, sets);
    WinnerIsUnbeaten(rules, sets, payloads, x);
    var i := WinningSet(rules, sets, payloads, x);
    var j := SetHit(rules, sets, payloads, outbounds, files, s, x);
    if j > i {
      assert e[..j][i] == best;
    } else if j == i {
      assert s == best;
    }
  }

  lemma SubscribedWins(
    rules: seq<RoutingRule>, sets: seq<RuleSet>, payloads: Payloads, outbounds: seq<string>,
    files: Files, external: seq<Reference>, x: Connection)
    requires Published(files, rules, sets, payloads, outbounds) && ReferencesSets(external, sets, files, x)
    requires Winner(rules, sets, payloads, x).Some? && Winner(rules, sets, payloads, x).value.Subscribed?
    ensures FirstReference(external, files, x) == WinnerOutbound(rules, sets, payloads, x)
  {
    var best := Winner(rules, sets, payloads, x).value.ruleSet;
    WinnerIsUnbeaten(rules, sets, payloads, x);
    BestSetHits(rules, sets, payloads, outbounds, files, x);
    forall r | r in external && Hits(r, files, x)
      ensures r.outbound == best.outbound
    {
      var s :| s in sets && r == ExternalReference(s);
      RivalsAreCarved(rules, sets, payloads, outbounds, files, s, x);
    }
    AgreeingReferences(external, files, x, best.outbound);
  }

  // Case 3: nothing in the ranked list matches, so no reference hits.
  lemma NothingHits(
    rules: seq<RoutingRule>, sets: seq<RuleSet>, payloads: Payloads, outbounds: seq<string>,
    files: Files, external: seq<Reference>, x: Connection)
    requires Published(files, rules, sets, payloads, outbounds) && ReferencesSets(external, sets, files, x)
    requires Winner(rules, sets, payloads, x).None?
    ensures forall r | r in external :: !Hits(r, files, x)
    ensures forall scope, o | o in outbounds && (scope == EarlyIPScope ==> IsAdapter(o)) ::
              !Hits(Reference(Bound(scope, o), o), files, x)
  {
    WinnerIsUnbeaten(rules, sets, payloads, x);
    forall r | r in external
      ensures !Hits(r, files, x)
    {
      if Hits(r, files, x) {
        var s :| s in sets && r == ExternalReference(s);
        var i := SetHit(rules, sets, payloads, outbounds, files, s, x);
      }
    }
    var c := StableSort(CandidateLess, rules);
    SortPermutes(CandidateLess, rules);
    forall d | 0 <= d < |c|
      ensures c[d] in rules
    {
      assert c[d] in c;
    }
    forall scope, o | o in outbounds && (scope == EarlyIPScope ==> IsAdapter(o))
      ensures !Hits(Reference(Bound(scope, o), o), files, x)
    {
      ManualHit(rules, outbounds, files, scope, o, x);
    }
  }

  // The first matching reference has the outbound of the first match of the
  // ranked list, for every connection and every order of the external references.
  lemma PlanFollowsRanking(
    rules: seq<RoutingRule>, sets: seq<RuleSet>, payloads: Payloads, outbounds: seq<string>,
    files: Files, external: seq<Reference>, x: Connection)
    requires Published(files, rules, sets, payloads, outbounds) && ReferencesSets(external, sets, files, x)
    requires WinnerIsReferenced(rules, sets, payloads, outbounds, x)
    ensures FirstReference(external + UserReferences(outbounds), files, x) == WinnerOutbound(rules, sets, payloads, x)
  {
    var w := Winner(rules, sets, payloads, x);
    var p := ScopeReferences(ProcessScope, outbounds);
    var d := ScopeReferences(DomainScope, outbounds);
    var n := ScopeReferences(IPScope, outbounds);
    if w.Some? && w.value.Manual? {
      ManualWins(rules, sets, payloads, outbounds, files, external, x);
    } else if w.Some? {
      SubscribedWins(rules, sets, payloads, outbounds, files, external, x);
      FirstReferenceOfJoin(external, UserReferences(outbounds), files, x);
    } else {
      NothingHits(rules, sets, payloads, outbounds, files, external, x);
      ScopeReferencesMembers(ProcessScope, outbounds);
      ScopeReferencesMembers(DomainScope, outbounds);
      ScopeReferencesMembers(IPScope, outbounds);
      AgreeingReferences(external + UserReferences(outbounds), files, x, "");
    }
  }

  // A winner whose outbound has no reference yet never loses its connections to
  // a lower priority: only an equal-priority rule of a later type can take them.
  lemma UnreferencedWinner(
    rules: seq<RoutingRule>, sets: seq<RuleSet>, payloads: Payloads, outbounds: seq<string>,
    files: Files, external: seq<Reference>, x: Connection)
    requires Published(files, rules, sets, payloads, outbounds) && ReferencesSets(external, sets, files, x)
    requires Winner(rules, sets, payloads, x).Some? && Winner(rules, sets, payloads, x).value.Manual?
    ensures var rule := Winner(rules, sets, payloads, x).value.rule;
            var taken := FirstReference(external + UserReferences(outbounds), files, x);
            taken.Some? && taken.value != rule.outbound ==>
              exists r :: && r in rules && !r.disabled && RuleMatches(r, x) && r.outbound == taken.value
                          && r.priority == rule.priority && TypeRank(r.matchType) > TypeRank(rule.matchType)
  {
    var rule := Winner(rules, sets, payloads, x).value.rule;
    var references := external + UserReferences(outbounds);
    var taken := FirstReference(references, files, x);
    if taken.Some? && taken.value != rule.outbound {
      SetsYieldToManual(rules, sets, payloads, outbounds, files, external, x);
      var r := FirstReferenceMember(references, files, x);
      var scope := UserReferenceScope(outbounds, r);
      var later := ForeignHitIsLater(rules, sets, payloads, outbounds, files, scope, r.outbound, x);
    }
  }

  // A manual file that hits for another outbound than the winner's does so by an
  // equal-priority rule of a later type.
  lemma ForeignHitIsLater(
    rules: seq<RoutingRule>, sets: seq<RuleSet>, payloads: Payloads, outbounds: seq<string>,
    files: Files, scope: Scope, outbound: string, x: Connection) returns (r: RoutingRule)
    requires ManualPublished(files, StableSort(CandidateLess, rules), outbounds) && outbound in outbounds
    requires scope == EarlyIPScope ==> IsAdapter(outbound)
    requires Winner(rules, sets, payloads, x).Some? && Winner(rules, sets, payloads, x).value.Manual?
    requires outbound != Winner(rules, sets, payloads, x).value.rule.outbound
    requires Hits(Reference(Bound(scope, outbound), outbound), files, x)
    ensures r in rules && !r.disabled && RuleMatches(r, x) && r.outbound == outbound
    ensures var rule := Winner(rules, sets, payloads, x).value.rule;
            r.priority == rule.priority && TypeRank(r.matchType) > TypeRank(rule.matchType)
  {
    var c := StableSort(CandidateLess, rules);
    ComparisonsAgreeWithRank();
    SortOrders(CandidateLess, rules);
    SortPermutes(CandidateLess, rules);
    WinnerIsUnbeaten(rules, sets, payloads, x);
    var i := WinningCandidate(rules, sets, payloads, x);
    ManualHit(rules, outbounds, files, scope, outbound, x);
    var d :| 0 <= d < |c| && Selected(c[d], scope, outbound) && Claims(c, d, x);
    LaterClaim(c, i, d, x);
    assert c[d] in c;
    r := c[d];
  }

  lemma {:induction false} FirstReferenceMember(references: seq<Reference>, files: Files, x: Connection)
    returns (r: Reference)
    requires FirstReference(references, files, x).Some?
    ensures r in references && Hits(r, files, x) && FirstReference(references, files, x) == Some(r.outbound)
  {
    if Hits(references[0], files, x) {
      r := references[0];
    } else {
      r := FirstReferenceMember(references[1..], files, x);
    }
  }

  lemma UserReferenceScope(outbounds: seq<string>, r: Reference) returns (scope: Scope)
    requires r in UserReferences(outbounds)
    ensures scope in {ProcessScope, DomainScope, IPScope}
    ensures r.outbound in outbounds && r == Reference(Bound(scope, r.outbound), r.outbound)
  {
    ScopeReferencesMembers(ProcessScope, outbounds);
    ScopeReferencesMembers(DomainScope, outbounds);
    ScopeReferencesMembers(IPScope, outbounds);
    scope := if r in ScopeReferences(ProcessScope, outbounds) then ProcessScope
             else if r in ScopeReferences(DomainScope, outbounds) then DomainScope else IPScope;
  }
}
