/**
 singbox_rules.go: the loops that build a plan and its files, and the outbounds
 a plan reserves files for.
 */
module RuleSetCompiler {
  import opened Routing
  import opened RuleSetPlan
  import opened Compatibility
  import opened Sorting
  import opened Text

  // ---- normalizedRuleSetOutbounds ----

  ghost predicate Distinct<T>(s: seq<T>) {
    forall i, j | 0 <= i < j < |s| :: s[i] != s[j]
  }

  // The non-empty ones in order, without repetition.
  function Given(outbounds: seq<string>): seq<string> {
    if outbounds == [] then []
    else
      var front, last := Given(outbounds[..|outbounds| - 1]), outbounds[|outbounds| - 1];
      if last == "" || last in front then front else front + [last]
  }

  // The given outbounds first, then whatever an enabled rule or a list still
  // needs, sorted; never one twice.
  method NormalizedOutbounds(outbounds: seq<string>, rules: seq<RoutingRule>, sets: seq<RuleSet>)
    returns (result: seq<string>)
    ensures Distinct(result)
    ensures Given(outbounds) <= result && Ordered(StringLess, result[|Given(outbounds)|..])
    ensures forall o :: o in result <==>
              ((o in outbounds && o != "")
               || (exists r :: r in rules && !r.disabled && r.outbound == o)
               || (exists s :: s in sets && s.outbound == o))
  {
    result := [];
    for i := 0 to |outbounds|
      invariant Distinct(result) && result == Given(outbounds[..i])
      invariant forall o :: o in result <==> o in outbounds[..i] && o != ""
    {
      assert outbounds[..i + 1] == outbounds[..i] + [outbounds[i]];
      assert outbounds[..i + 1][..i] == outbounds[..i];
      if outbounds[i] != "" && outbounds[i] !in result {
        result := result + [outbounds[i]];
      }
    }
    assert outbounds[..|outbounds|] == outbounds;
    var missing: seq<string> := [];
    for i := 0 to |rules|
      invariant Distinct(missing) && forall o | o in missing :: o !in result
      invariant forall o :: o in result || o in missing <==>
                  o in result || (exists r :: r in rules[..i] && !r.disabled && r.outbound == o)
    {
      assert rules[..i + 1] == rules[..i] + [rules[i]];
      if !rules[i].disabled && rules[i].outbound !in result && rules[i].outbound !in missing {
        missing := missing + [rules[i].outbound];
      }
    }
    assert rules[..|rules|] == rules;
    for i := 0 to |sets|
      invariant Distinct(missing) && forall o | o in missing :: o !in result
      invariant forall o :: o in result || o in missing <==>
                  (o in result || (exists r :: r in rules && !r.disabled && r.outbound == o)
                   || (exists s :: s in sets[..i] && s.outbound == o))
    {
      assert sets[..i + 1] == sets[..i] + [sets[i]];
      if sets[i].outbound !in result && sets[i].outbound !in missing {
        missing := missing + [sets[i].outbound];
      }
    }
    assert sets[..|sets|] == sets;
    SortPermutes(StringLess, missing);
    SortKeepsDistinct(missing);
    DistinctJoin(result, StableSort(StringLess, missing));
    StringLessIsAnOrder();
    SortOrders(StringLess, missing);
    assert (result + StableSort(StringLess, missing))[|result|..] == StableSort(StringLess, missing);
    result := result + StableSort(StringLess, missing);
  }

  lemma StringLessIsAnOrder()
    ensures StrictWeakOrder(StringLess)
  {
    forall a, b | StringLess(a, b)
      ensures !StringLess(b, a)
    {
      StringLessAsymmetric(a, b);
    }
    forall a, b, c | !StringLess(a, b) && !StringLess(b, c)
      ensures !StringLess(a, c)
    {
      StringLessNegativelyTransitive(a, b, c);
    }
  }

  lemma DistinctJoin(a: seq<string>, b: seq<string>)
    requires Distinct(a) && Distinct(b) && forall x | x in b :: x !in a
    ensures Distinct(a + b)
  {
    forall i, j | 0 <= i < j < |a + b|
      ensures (a + b)[i] != (a + b)[j]
    {
      if i < |a| <= j {
        assert b[j - |a|] in b;
      }
    }
  }

  lemma SortKeepsDistinct(s: seq<string>)
    requires Distinct(s)
    ensures Distinct(StableSort(StringLess, s))
  {
    SortPermutes(StringLess, s);
    DistinctIsOnce(s);
    OnceIsDistinct(StableSort(StringLess, s));
  }

  lemma OnceIsDistinct(t: seq<string>)
    requires forall x :: multiset(t)[x] <= 1
    ensures Distinct(t)
  {
    forall i, j | 0 <= i < j < |t|
      ensures t[i] != t[j]
    {
      var a, b := t[..j], t[j..];
      assert t == a + b;
      assert multiset(t)[t[i]] == multiset(a)[t[i]] + multiset(b)[t[i]];
      assert a[i] == t[i] && b[0] == t[j];
      assert multiset(a)[a[i]] >= 1 && multiset(b)[b[0]] >= 1;
    }
  }

  lemma {:induction false} DistinctIsOnce(s: seq<string>)
    requires Distinct(s)
    ensures forall x :: multiset(s)[x] <= 1
  {
    if s != [] {
      DistinctIsOnce(s[1..]);
      assert s == [s[0]] + s[1..];
      assert s[0] !in s[1..];
    }
  }

  // ---- building the files ----

  // buildSingBoxSourceRules: for every selected candidate, the earlier ones of
  // other outbounds that it must not swallow.
  method BuildSourceRules(candidates: seq<RoutingRule>, scope: Scope, outbound: string) returns (file: seq<Headless>)
    ensures file == SourceRules(candidates, scope, outbound, |candidates|)
  {
    file := [];
    for i := 0 to |candidates|
      invariant file == SourceRules(candidates, scope, outbound, i)
    {
      var candidate := candidates[i];
      if (scope == CustomIPScope && candidate.priority == 0)
         || candidate.disabled || candidate.matchType != ScopeType(scope) || candidate.outbound != outbound {
        assert !Selected(candidate, scope, outbound);
        continue;
      }
      var exclusions: seq<Headless> := [];
      ghost var excluded := e => Excludes(e, candidate);
      for j := 0 to i
        invariant exclusions == Map(r => HeadlessRule(r), Filter(excluded, candidates[..j]))
      {
        var earlier := candidates[j];
        assert candidates[..j + 1] == candidates[..j] + [earlier];
        FilterOfJoin(excluded, candidates[..j], [earlier]);
        if !earlier.disabled && earlier.outbound != candidate.outbound
           && ((earlier.matchType != candidate.matchType && earlier.priority > candidate.priority)
               || RulesCanOverlap(earlier, candidate)) {
          exclusions := exclusions + [HeadlessRule(earlier)];
        }
      }
      file := file + [Carve(HeadlessRule(candidate), exclusions)];
    }
  }

  ghost predicate ScopeFiles(files: Files, candidates: seq<RoutingRule>, scope: Scope, outbounds: seq<string>) {
    forall o | o in outbounds ::
      Bound(scope, o) in files && files[Bound(scope, o)] == SourceRules(candidates, scope, o, |candidates|)
  }

  // One file and one reference per outbound of one scope.
  method AddScope(candidates: seq<RoutingRule>, scope: Scope, outbounds: seq<string>, before: Files)
    returns (files: Files, references: seq<Reference>, tags: seq<Tag>)
    ensures references == ScopeReferences(scope, outbounds) && tags == ScopeTags(scope, outbounds)
    ensures ScopeFiles(files, candidates, scope, outbounds)
    ensures forall other, os | other != scope && ScopeFiles(before, candidates, other, os) ::
              ScopeFiles(files, candidates, other, os)
  {
    files, references, tags := before, [], [];
    for i := 0 to |outbounds|
      invariant references == ScopeReferences(scope, outbounds[..i]) && tags == ScopeTags(scope, outbounds[..i])
      invariant ScopeFiles(files, candidates, scope, outbounds[..i])
      invariant forall t | t in before && !(t.Bound? && t.scope == scope) :: t in files && files[t] == before[t]
    {
      var o := outbounds[i];
      assert outbounds[..i + 1] == outbounds[..i] + [o];
      var file := BuildSourceRules(candidates, scope, o);
      files := files[Bound(scope, o) := file];
      references := references + [Reference(Bound(scope, o), o)];
      tags := tags + [Bound(scope, o)];
    }
    assert outbounds[..|outbounds|] == outbounds;
  }

  ghost predicate SetsPublishedUpTo(
    files: Files, external: seq<RuleSet>, n: nat, candidates: seq<RoutingRule>, payloads: Payloads)
    requires n <= |external|
  {
    forall k | 0 <= k < n ::
      External(external[k].id) in files
      && files[External(external[k].id)] == ExternalFile(external[k], external[..k], candidates, payloads)
  }

  lemma PublishNext(
    before: Files, files: Files, external: seq<RuleSet>, n: nat, candidates: seq<RoutingRule>, payloads: Payloads)
    requires DistinctIds(external) && n < |external| && SetsPublishedUpTo(before, external, n, candidates, payloads)
    requires files == before[External(external[n].id) := ExternalFile(external[n], external[..n], candidates, payloads)]
    ensures SetsPublishedUpTo(files, external, n + 1, candidates, payloads)
  {
  }

  // One recomposed file and one reference per subscribed list, best first.
  method AddExternal(external: seq<RuleSet>, candidates: seq<RoutingRule>, payloads: Payloads, before: Files)
    returns (files: Files, references: seq<Reference>, tags: seq<Tag>)
    requires DistinctIds(external)
    ensures references == Map(s => ExternalReference(s), external) &&
            tags == Map((s: RuleSet) => External(s.id), external)
    ensures SetsPublished(files, external, candidates, payloads)
    ensures forall scope, os | ScopeFiles(before, candidates, scope, os) :: ScopeFiles(files, candidates, scope, os)
  {
    files, references, tags := before, [], [];
    for i := 0 to |external|
      invariant references == Map(s => ExternalReference(s), external[..i])
      invariant tags == Map((s: RuleSet) => External(s.id), external[..i])
      invariant SetsPublishedUpTo(files, external, i, candidates, payloads)
      invariant forall t | t in before && t.Bound? :: t in files && files[t] == before[t]
    {
      assert external[..i + 1] == external[..i] + [external[i]];
      ghost var earlier := files;
      files := files[External(external[i].id) := ExternalFile(external[i], external[..i], candidates, payloads)];
      PublishNext(earlier, files, external, i, candidates, payloads);
      references := references + [ExternalReference(external[i])];
      tags := tags + [External(external[i].id)];
    }
    assert external[..|external|] == external;
  }

  lemma SortKeepsDistinctIds(sets: seq<RuleSet>)
    requires DistinctIds(sets)
    ensures DistinctIds(StableSort(SetLess, sets))
  {
    var t := StableSort(SetLess, sets);
    SortPermutes(SetLess, sets);
    forall i, j | 0 <= i < j < |t|
      ensures t[i].id != t[j].id
    {
      assert t[i] in sets && t[j] in sets;
      if t[i].id == t[j].id {
        assert t[i] == t[j];
        assert t == t[..j] + [t[j]] + t[j + 1..];
        assert t[i] in t[..j];
        assert multiset(sets)[t[i]] >= 2;
        TwiceIsTwoPlaces(sets, t[i]);
      }
    }
  }

  lemma {:induction false} TwiceIsTwoPlaces(sets: seq<RuleSet>, s: RuleSet)
    requires multiset(sets)[s] >= 2
    ensures !DistinctIds(sets)
  {
    assert sets == [sets[0]] + sets[1..];
    if sets[0] == s {
      assert s in sets[1..];
      var k :| 0 <= k < |sets[1..]| && sets[1..][k] == s;
      assert sets[0].id == sets[k + 1].id;
    } else {
      TwiceIsTwoPlaces(sets[1..], s);
      var i, j :| 0 <= i < j < |sets[1..]| && sets[1..][i].id == sets[1..][j].id;
      assert sets[i + 1].id == sets[j + 1].id;
    }
  }

  lemma FiveScopes(files: Files, candidates: seq<RoutingRule>, outbounds: seq<string>)
    requires ScopeFiles(files, candidates, ProcessScope, outbounds) &&
             ScopeFiles(files, candidates, DomainScope, outbounds)
    requires ScopeFiles(files, candidates, IPScope, outbounds) &&
             ScopeFiles(files, candidates, CustomIPScope, outbounds)
    requires ScopeFiles(files, candidates, EarlyIPScope, AdapterOutbounds(outbounds))
    ensures ManualPublished(files, candidates, outbounds)
  {
    AdaptersOf(outbounds);
  }

  // writeSingBoxRuleSetPlanLocked: the files of a plan and its references.
  method ComposePlan(rules: seq<RoutingRule>, live: seq<RuleSet>, payloads: Payloads, outbounds: seq<string>)
    returns (plan: Plan, files: Files)
    requires DistinctIds(live)
    ensures Published(files, rules, live, payloads, outbounds)
    ensures plan == PlanOf(live, outbounds)
  {
    var candidates := StableSort(CandidateLess, rules);
    var external := StableSort(SetLess, live);
    SortKeepsDistinctIds(live);
    SortPermutes(SetLess, live);
    AdaptersOf(outbounds);
    var early, process, domain, ip, custom, sets;
    var earlyTags, processTags, domainTags, ipTags, customTags, setTags;
    files, early, earlyTags := AddScope(candidates, EarlyIPScope, AdapterOutbounds(outbounds), map[]);
    files, process, processTags := AddScope(candidates, ProcessScope, outbounds, files);
    files, domain, domainTags := AddScope(candidates, DomainScope, outbounds, files);
    files, ip, ipTags := AddScope(candidates, IPScope, outbounds, files);
    files, custom, customTags := AddScope(candidates, CustomIPScope, outbounds, files);
    files, sets, setTags := AddExternal(external, candidates, payloads, files);
    FiveScopes(files, candidates, outbounds);
    plan := Plan(early, sets, process + domain + ip, processTags + domainTags + customTags + setTags);
  }
}
