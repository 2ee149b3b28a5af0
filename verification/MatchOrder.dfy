/**
 routing.go: the user's order of match types, encoded as priorities so that the
 rule-set files stay hot-reloadable.
 */
module MatchOrder {
  import opened Routing
  import opened RuleSetPlan
  import opened RuleSetDecision
  import opened Sorting
  import opened Text

  // Each of the three types exactly once.
  predicate ValidMatchOrder(order: seq<MatchType>) {
    |order| == 3 && forall i, j | 0 <= i < j < |order| :: order[i] != order[j]
  }

  // The rank of the last entry of a kind; the length when there is none.
  function Position(order: seq<MatchType>, kind: MatchType): (k: nat)
    ensures k <= |order|
  {
    if order == [] then 0
    else if order[|order| - 1] == kind then |order| - 1
    else
      var k := Position(order[..|order| - 1], kind);
      if k == |order| - 1 then |order| else k
  }

  function Reprioritized(rule: RoutingRule, order: seq<MatchType>): RoutingRule {
    var k := Position(order, rule.matchType);
    if k < |order| then rule.(priority := 2 - k) else rule
  }

  function WithMatchOrder(rules: seq<RoutingRule>, order: seq<MatchType>): seq<RoutingRule> {
    Map(r => Reprioritized(r, order), rules)
  }

  // rulesWithMatchOrder: a copy, with the priorities rewritten entry by entry.
  method RulesWithMatchOrder(rules: seq<RoutingRule>, order: seq<MatchType>) returns (result: seq<RoutingRule>)
    ensures result == WithMatchOrder(rules, order)
  {
    var copy := new RoutingRule[|rules|](i requires 0 <= i < |rules| => rules[i]);
    for i := 0 to |rules|
      invariant forall k | 0 <= k < i :: copy[k] == Reprioritized(rules[k], order)
      invariant forall k | i <= k < |rules| :: copy[k] == rules[k]
    {
      for rank := 0 to |order|
        invariant copy[i] == Reprioritized(rules[i], order[..rank])
        invariant forall k | 0 <= k < |rules| && k != i ::
                    copy[k] == if k < i then Reprioritized(rules[k], order) else rules[k]
      {
        assert order[..rank + 1][..rank] == order[..rank];
        if copy[i].matchType == order[rank] {
          copy[i] := copy[i].(priority := 2 - rank);
        }
      }
      assert order[..|order|] == order;
    }
    result := copy[..];
  }

  lemma {:induction false} PositionFinds(order: seq<MatchType>, kind: MatchType)
    ensures kind in order <==> Position(order, kind) < |order|
    ensures Position(order, kind) < |order| ==> order[Position(order, kind)] == kind
  {
    if order != [] {
      PositionFinds(order[..|order| - 1], kind);
    }
  }

  lemma ValidOrderNamesEveryType(order: seq<MatchType>, kind: MatchType)
    requires ValidMatchOrder(order)
    ensures Position(order, kind) < 3 && order[Position(order, kind)] == kind
  {
    PositionFinds(order, kind);
    assert order == [order[0], order[1], order[2]];
  }

  // How narrow a rule of its type is: the length of the suffix or of the prefix.
  function Narrowness(rule: RoutingRule): nat {
    match rule.matchType
    case MatchProcess => 0
    case MatchDomain => |TrimDot(rule.value)|
    case MatchIP => rule.network.bits
  }

  predicate EnabledMatch(rule: RoutingRule, x: Connection) {
    !rule.disabled && RuleMatches(rule, x)
  }

  // No enabled match has an earlier type, nor the same type and a narrower value.
  ghost predicate BestMatch(rules: seq<RoutingRule>, order: seq<MatchType>, best: RoutingRule, x: Connection) {
    && best in rules && EnabledMatch(best, x)
    && forall r | r in rules && EnabledMatch(r, x) ::
         || Position(order, best.matchType) < Position(order, r.matchType)
         || (r.matchType == best.matchType && Narrowness(r) <= Narrowness(best))
  }

  // A longer suffix of the same name has more labels.
  lemma LongerSuffixHasMoreDots(name: string, shorter: string, longer: string)
    requires DotSuffix(name, shorter) && DotSuffix(name, longer) && |shorter| < |longer|
    ensures Dots(longer) > Dots(shorter)
  {
    NestedSuffixes(name, shorter, longer);
    var k := |longer| - |shorter| - 1;
    assert longer == longer[..k] + ("." + shorter);
    DotsOfConcatenation(longer[..k], "." + shorter);
    assert ("." + shorter)[1..] == shorter;
  }

  lemma UnbeatenIsNarrowest(best: RoutingRule, r: RoutingRule, x: Connection)
    requires best.matchType == r.matchType && best.priority == r.priority
    requires RuleMatches(best, x) && RuleMatches(r, x) && !RanksAhead(Manual(r), Manual(best))
    ensures Narrowness(r) <= Narrowness(best)
  {
    if best.matchType == MatchDomain {
      DomainRuleIsDotSuffix(best, x);
      DomainRuleIsDotSuffix(r, x);
      if Narrowness(r) > Narrowness(best) {
        LongerSuffixHasMoreDots(Lower(x.domain.value), TrimDot(best.value), TrimDot(r.value));
      }
    }
  }

  // An encoded rule that does not rank ahead comes later in the user's order,
  // or is no narrower.
  lemma UnbeatenIsBest(order: seq<MatchType>, best: RoutingRule, r: RoutingRule, x: Connection)
    requires ValidMatchOrder(order) && RuleMatches(best, x) && RuleMatches(r, x)
    requires !RanksAhead(Manual(Reprioritized(r, order)), Manual(Reprioritized(best, order)))
    ensures || Position(order, best.matchType) < Position(order, r.matchType)
            || (r.matchType == best.matchType && Narrowness(r) <= Narrowness(best))
  {
    ValidOrderNamesEveryType(order, best.matchType);
    ValidOrderNamesEveryType(order, r.matchType);
    if r.matchType == best.matchType {
      UnbeatenIsNarrowest(Reprioritized(best, order), Reprioritized(r, order), x);
    }
  }

  lemma WinnerIsBest(rules: seq<RoutingRule>, order: seq<MatchType>, x: Connection)
    requires ValidMatchOrder(order)
    ensures var w := Winner(WithMatchOrder(rules, order), [], map[], x);
            && (w.None? <==> forall r | r in rules :: !EnabledMatch(r, x))
            && (w.Some? ==> exists best :: BestMatch(rules, order, best, x) && best.outbound == OutboundOf(w.value))
  {
    var encoded := WithMatchOrder(rules, order);
    var w := Winner(encoded, [], map[], x);
    WinnerIsUnbeaten(encoded, [], map[], x);
    EncodedMembers(rules, order);
    if w.Some? {
      var best :| best in rules && w.value.rule == Reprioritized(best, order);
      forall r | r in rules && EnabledMatch(r, x)
        ensures || Position(order, best.matchType) < Position(order, r.matchType)
                || (r.matchType == best.matchType && Narrowness(r) <= Narrowness(best))
      {
        assert Reprioritized(r, order) in encoded;
        UnbeatenIsBest(order, best, r, x);
      }
      assert BestMatch(rules, order, best, x);
    } else {
      forall r | r in rules
        ensures !EnabledMatch(r, x)
      {
        assert Reprioritized(r, order) in encoded;
      }
    }
  }

  // The compiled manual plan picks the first type of the user's order that has a
  // matching enabled rule, and its longest suffix or narrowest prefix.
  lemma MatchOrderDecides(
    rules: seq<RoutingRule>, order: seq<MatchType>, files: Files, outbounds: seq<string>, x: Connection)
    requires ValidMatchOrder(order)
    requires Published(files, WithMatchOrder(rules, order), [], map[], outbounds)
    requires forall r | r in rules && !r.disabled :: r.outbound in outbounds
    ensures var decision := FirstReference(UserReferences(outbounds), files, x);
            && (decision.None? <==> forall r | r in rules :: !EnabledMatch(r, x))
            && (decision.Some? ==> exists best :: BestMatch(rules, order, best, x) && best.outbound == decision.value)
  {
    var encoded := WithMatchOrder(rules, order);
    WinnerIsBest(rules, order, x);
    WinnerIsUnbeaten(encoded, [], map[], x);
    EncodedMembers(rules, order);
    assert [] + UserReferences(outbounds) == UserReferences(outbounds);
    PlanFollowsRanking(encoded, [], map[], outbounds, files, [], x);
  }

  lemma EncodedMembers(rules: seq<RoutingRule>, order: seq<MatchType>)
    ensures forall r | r in rules :: Reprioritized(r, order) in WithMatchOrder(rules, order)
    ensures forall e | e in WithMatchOrder(rules, order) :: exists r :: r in rules && e == Reprioritized(r, order)
  {
  }
}
