/**
 normalizeRulesStrict and ruleIdentity of routing.go: the list that is compiled
 is validated, freed of repetitions and sorted. Validation of a single rule is a
 parameter: what it accepts it returns in canonical form.
 */
module RuleNormalization {
  import opened Options
  import opened Routing
  import opened RuleSetPlan
  import opened Sorting
  import opened Text

  type Normalize = RoutingRule -> Option<RoutingRule>

  datatype Identity = Identity(matchType: MatchType, value: string)

  function RuleIdentity(rule: RoutingRule): Identity {
    Identity(rule.matchType, Lower(rule.value))
  }

  predicate HasIdentity(rules: seq<RoutingRule>, identity: Identity) {
    exists i :: 0 <= i < |rules| && RuleIdentity(rules[i]) == identity
  }

  // The normalized rules that repeat no earlier identity.
  function Unique(normalize: Normalize, rules: seq<RoutingRule>): seq<RoutingRule> {
    if rules == [] then []
    else
      var front := Unique(normalize, rules[..|rules| - 1]);
      var rule := normalize(rules[|rules| - 1]);
      if rule.None? || HasIdentity(front, RuleIdentity(rule.value)) then front else front + [rule.value]
  }

  predicate AllValid(normalize: Normalize, rules: seq<RoutingRule>) {
    forall i | 0 <= i < |rules| :: normalize(rules[i]).Some?
  }

  // The first invalid rule rejects the list.
  method NormalizeRulesStrict(normalize: Normalize, rules: seq<RoutingRule>) returns (result: Option<seq<RoutingRule>>)
    ensures result.Some? <==> AllValid(normalize, rules)
    ensures result.Some? ==> result.value == StableSort(CandidateLess, Unique(normalize, rules))
  {
    var kept: seq<RoutingRule> := [];
    var seen: set<Identity> := {};
    for i := 0 to |rules|
      invariant AllValid(normalize, rules[..i])
      invariant kept == Unique(normalize, rules[..i])
      invariant forall identity :: identity in seen <==> HasIdentity(kept, identity)
    {
      assert rules[..i + 1][..i] == rules[..i];
      var rule := normalize(rules[i]);
      if rule.None? {
        return None;
      }
      var identity := RuleIdentity(rule.value);
      if identity !in seen {
        seen := seen + {identity};
        HasIdentityOfJoin(kept, rule.value);
        kept := kept + [rule.value];
      }
    }
    assert rules[..|rules|] == rules;
    result := Some(StableSort(CandidateLess, kept));
  }

  lemma HasIdentityOfJoin(rules: seq<RoutingRule>, rule: RoutingRule)
    ensures forall identity :: HasIdentity(rules + [rule], identity) <==>
            HasIdentity(rules, identity) || RuleIdentity(rule) == identity
  {
    forall identity
      ensures HasIdentity(rules + [rule], identity) <==> HasIdentity(rules, identity) || RuleIdentity(rule) == identity
    {
      assert (rules + [rule])[|rules|] == rule;
      assert forall i | 0 <= i < |rules| :: (rules + [rule])[i] == rules[i];
    }
  }

  ghost predicate DistinctIdentities(rules: seq<RoutingRule>) {
    forall i, j | 0 <= i < j < |rules| :: RuleIdentity(rules[i]) != RuleIdentity(rules[j])
  }

  // No identity is kept twice, and the first rule of each is kept.
  lemma {:induction false} UniqueKeepsFirst(normalize: Normalize, rules: seq<RoutingRule>)
    requires AllValid(normalize, rules)
    ensures DistinctIdentities(Unique(normalize, rules))
    ensures forall i | 0 <= i < |rules| ::
              var rule := normalize(rules[i]).value;
              (forall j | 0 <= j < i :: RuleIdentity(normalize(rules[j]).value) != RuleIdentity(rule)) ==>
                rule in Unique(normalize, rules)
  {
    if rules != [] {
      var n := |rules| - 1;
      UniqueKeepsFirst(normalize, rules[..n]);
      UniqueHasIdentities(normalize, rules[..n]);
      assert forall i | 0 <= i < n :: rules[..n][i] == rules[i];
    }
  }

  // No identity is lost and none is invented.
  lemma {:induction false} UniqueHasIdentities(normalize: Normalize, rules: seq<RoutingRule>)
    requires AllValid(normalize, rules)
    ensures forall identity :: HasIdentity(Unique(normalize, rules), identity) <==>
              exists i :: 0 <= i < |rules| && RuleIdentity(normalize(rules[i]).value) == identity
  {
    if rules != [] {
      var n := |rules| - 1;
      UniqueHasIdentities(normalize, rules[..n]);
      HasIdentityOfJoin(Unique(normalize, rules[..n]), normalize(rules[n]).value);
      assert forall i | 0 <= i < n :: rules[..n][i] == rules[i];
    }
  }

  lemma {:induction false} SortOfOrdered(s: seq<RoutingRule>)
    requires StrictWeakOrder(CandidateLess) && Ordered(CandidateLess, s)
    ensures StableSort(CandidateLess, s) == s
  {
    if s != [] {
      SortOfOrdered(s[1..]);
      NothingAhead(CandidateLess, s[0], s[1..]);
    }
  }

  // A list that is already canonical and repeats no identity is compiled as it
  // is: every file of the plan is the same before and after.
  lemma CanonicalListCompilesAlike(
    normalize: Normalize, rules: seq<RoutingRule>, sets: seq<RuleSet>, payloads: Payloads, files: Files,
    outbounds: seq<string>)
    requires forall i | 0 <= i < |rules| :: normalize(rules[i]) == Some(rules[i])
    requires DistinctIdentities(rules)
    ensures var compiled := StableSort(CandidateLess, Unique(normalize, rules));
            Published(files, compiled, sets, payloads, outbounds) <==>
            Published(files, rules, sets, payloads, outbounds)
  {
    UniqueOfCanonical(normalize, rules);
    ComparisonsAgreeWithRank();
    SortOrders(CandidateLess, rules);
    SortOfOrdered(StableSort(CandidateLess, rules));
  }

  lemma {:induction false} UniqueOfCanonical(normalize: Normalize, rules: seq<RoutingRule>)
    requires forall i | 0 <= i < |rules| :: normalize(rules[i]) == Some(rules[i])
    requires DistinctIdentities(rules)
    ensures Unique(normalize, rules) == rules
  {
    if rules != [] {
      var n := |rules| - 1;
      UniqueOfCanonical(normalize, rules[..n]);
      assert rules == rules[..n] + [rules[n]];
    }
  }

  // A saved list is a fixed point: loading and normalizing it changes nothing.
  lemma SavedListIsStable(normalize: Normalize, rules: seq<RoutingRule>)
    requires AllValid(normalize, rules)
    requires forall r | normalize(r).Some? :: normalize(normalize(r).value) == normalize(r)
    ensures var saved := StableSort(CandidateLess, Unique(normalize, rules));
            StableSort(CandidateLess, Unique(normalize, saved)) == saved
  {
    var kept := Unique(normalize, rules);
    var saved := StableSort(CandidateLess, kept);
    UniqueKeepsFirst(normalize, rules);
    SortPermutes(CandidateLess, kept);
    SortKeepsIdentities(kept);
    UniqueIsCanonical(normalize, rules);
    forall i | 0 <= i < |saved|
      ensures normalize(saved[i]) == Some(saved[i])
    {
      assert saved[i] in saved;
    }
    UniqueOfCanonical(normalize, saved);
    ComparisonsAgreeWithRank();
    SortOrders(CandidateLess, kept);
    SortOfOrdered(saved);
  }

  lemma {:induction false} UniqueIsCanonical(normalize: Normalize, rules: seq<RoutingRule>)
    requires forall r | normalize(r).Some? :: normalize(normalize(r).value) == normalize(r)
    ensures forall r | r in Unique(normalize, rules) :: normalize(r) == Some(r)
  {
    if rules != [] {
      UniqueIsCanonical(normalize, rules[..|rules| - 1]);
    }
  }

  lemma SortKeepsIdentities(rules: seq<RoutingRule>)
    requires DistinctIdentities(rules)
    ensures DistinctIdentities(StableSort(CandidateLess, rules))
  {
    var sorted := StableSort(CandidateLess, rules);
    SortPermutes(CandidateLess, rules);
    forall i, j | 0 <= i < j < |sorted|
      ensures RuleIdentity(sorted[i]) != RuleIdentity(sorted[j])
    {
      assert sorted[i] in rules && sorted[j] in rules;
      if sorted[i] == sorted[j] {
        TwiceInMultiset(sorted, i, j);
        OnceInDistinct(rules, sorted[i]);
      }
    }
  }

  lemma TwiceInMultiset(rules: seq<RoutingRule>, i: nat, j: nat)
    requires i < j < |rules| && rules[i] == rules[j]
    ensures multiset(rules)[rules[i]] >= 2
  {
    assert rules == rules[..i] + [rules[i]] + rules[i + 1..j] + [rules[j]] + rules[j + 1..];
  }

  lemma {:induction false} OnceInDistinct(rules: seq<RoutingRule>, rule: RoutingRule)
    requires DistinctIdentities(rules)
    ensures multiset(rules)[rule] <= 1
  {
    if rules != [] {
      assert rules == [rules[0]] + rules[1..];
      OnceInDistinct(rules[1..], rule);
      assert rule in rules[1..] ==> rules[0] != rule;
    }
  }
}
