/**
 What the program compiles under a match order: the submitted list with its
 priorities rewritten (rulesWithMatchOrder), then freed of repetitions and sorted
 (normalizeRulesStrict). A repetition can hide the rule the user meant.
 */
module NormalizedOrder {
  import opened MatchOrder
  import opened NetworkRoutes
  import opened Options
  import opened Prefixes
  import opened Routing
  import opened RuleNormalization
  import opened RuleSetDecision
  import opened RuleSetPlan
  import opened Sorting
  import opened Text

  // ---- the compiled list ----

  const MAX_PRIORITY := 999

  function WithPriority(rule: RoutingRule, priority: int): RoutingRule {
    rule.(priority := priority)
  }

  // normalizeRule rewrites the value alone, whatever the priority.
  ghost predicate RewritesValues(normalize: Normalize) {
    && (forall r | normalize(r).Some? ::
          var n := normalize(r).value;
          n.disabled == r.disabled && n.priority == r.priority && n.matchType == r.matchType &&
          n.outbound == r.outbound)
    && (forall r, p: int | normalize(r).Some? && 0 <= p <= MAX_PRIORITY ::
          normalize(WithPriority(r, p)) == Some(WithPriority(normalize(r).value, p)))
  }

  // The rule in canonical form. Its own priority is overwritten by the order, so
  // it may lie outside the range that normalizeRule accepts.
  function Canonical(normalize: Normalize, rule: RoutingRule): RoutingRule {
    var plain := normalize(WithPriority(rule, 0));
    if plain.Some? then WithPriority(plain.value, rule.priority) else rule
  }

  // The submitted rules as the user means them, repetitions included.
  function Submitted(normalize: Normalize, rules: seq<RoutingRule>): seq<RoutingRule> {
    Map(r => Canonical(normalize, r), rules)
  }

  function Compiled(normalize: Normalize, rules: seq<RoutingRule>, order: seq<MatchType>): seq<RoutingRule> {
    StableSort(CandidateLess, Unique(normalize, WithMatchOrder(rules, order)))
  }

  ghost predicate IsFirst(rules: seq<RoutingRule>, i: int) {
    0 <= i < |rules| && forall j | 0 <= j < i :: RuleIdentity(rules[j]) != RuleIdentity(rules[i])
  }

  lemma EncodingCommutes(normalize: Normalize, rule: RoutingRule, order: seq<MatchType>)
    requires RewritesValues(normalize) && ValidMatchOrder(order) && normalize(Reprioritized(rule, order)).Some?
    ensures normalize(Reprioritized(rule, order)) == Some(Reprioritized(Canonical(normalize, rule), order))
  {
    ValidOrderNamesEveryType(order, rule.matchType);
    var encoded := Reprioritized(rule, order);
    assert WithPriority(encoded, 0) == WithPriority(rule, 0);
    assert normalize(WithPriority(encoded, 0)) == Some(WithPriority(normalize(encoded).value, 0));
  }

  lemma EncodedSubmission(normalize: Normalize, rules: seq<RoutingRule>, order: seq<MatchType>)
    requires RewritesValues(normalize) && ValidMatchOrder(order) && AllValid(normalize, WithMatchOrder(rules, order))
    ensures forall i | 0 <= i < |rules| ::
              normalize(WithMatchOrder(rules, order)[i]) == Some(Reprioritized(Submitted(normalize, rules)[i], order))
  {
    forall i | 0 <= i < |rules|
      ensures normalize(WithMatchOrder(rules, order)[i]) == Some(Reprioritized(Submitted(normalize, rules)[i], order))
    {
      assert normalize(WithMatchOrder(rules, order)[i]).Some?;
      EncodingCommutes(normalize, rules[i], order);
    }
  }

  // Only the first rule of an identity is ever kept.
  lemma {:induction false} UniqueAreFirst(normalize: Normalize, rules: seq<RoutingRule>, e: RoutingRule)
    returns (i: nat)
    requires AllValid(normalize, rules) && e in Unique(normalize, rules)
    ensures i < |rules| && normalize(rules[i]) == Some(e)
    ensures forall j | 0 <= j < i :: RuleIdentity(normalize(rules[j]).value) != RuleIdentity(e)
  {
    var n := |rules| - 1;
    var front := Unique(normalize, rules[..n]);
    if e in front {
      i := UniqueAreFirst(normalize, rules[..n], e);
    } else {
      i := n;
      UniqueHasIdentities(normalize, rules[..n]);
      assert forall j | 0 <= j < n :: rules[..n][j] == rules[j];
    }
  }

  // The compiled rules are the encodings of the first rules of every identity.
  ghost predicate Encodes(submitted: seq<RoutingRule>, compiled: seq<RoutingRule>, order: seq<MatchType>) {
    && (forall i | IsFirst(submitted, i) :: Reprioritized(submitted[i], order) in compiled)
    && (forall e | e in compiled :: exists i :: IsFirst(submitted, i) && e == Reprioritized(submitted[i], order))
  }

  lemma UniqueEncodes(
    normalize: Normalize, encoded: seq<RoutingRule>, submitted: seq<RoutingRule>, order: seq<MatchType>)
    requires |encoded| == |submitted| && AllValid(normalize, encoded)
    requires forall i | 0 <= i < |encoded| :: normalize(encoded[i]) == Some(Reprioritized(submitted[i], order))
    ensures Encodes(submitted, Unique(normalize, encoded), order)
  {
    UniqueKeepsFirst(normalize, encoded);
    forall i | IsFirst(submitted, i)
      ensures Reprioritized(submitted[i], order) in Unique(normalize, encoded)
    {
      assert normalize(encoded[i]).value == Reprioritized(submitted[i], order);
    }
    forall e | e in Unique(normalize, encoded)
      ensures exists i :: IsFirst(submitted, i) && e == Reprioritized(submitted[i], order)
    {
      var i := UniqueAreFirst(normalize, encoded, e);
      assert IsFirst(submitted, i);
    }
  }

  lemma CompiledEncodes(normalize: Normalize, rules: seq<RoutingRule>, order: seq<MatchType>)
    requires RewritesValues(normalize) && ValidMatchOrder(order) && AllValid(normalize, WithMatchOrder(rules, order))
    ensures Encodes(Submitted(normalize, rules), Compiled(normalize, rules, order), order)
  {
    var encoded := WithMatchOrder(rules, order);
    EncodedSubmission(normalize, rules, order);
    UniqueEncodes(normalize, encoded, Submitted(normalize, rules), order);
    SortPermutes(CandidateLess, Unique(normalize, encoded));
  }

  // ---- which rule decides ----

  // The rule that decides is a best match of the submitted list, and none
  // decides only if none matches.
  ghost predicate DecidesBest(
    submitted: seq<RoutingRule>, compiled: seq<RoutingRule>, order: seq<MatchType>, x: Connection)
  {
    var w := Winner(compiled, [], map[], x);
    && (w.None? <==> NoneMatches(submitted, x))
    && (w.Some? ==> exists best ::
                      BestMatch(submitted, order, best, x) && w.value == Manual(Reprioritized(best, order)))
  }

  predicate NoneMatches(rules: seq<RoutingRule>, x: Connection) {
    forall r | r in rules :: !EnabledMatch(r, x)
  }

  // Some best match comes first of its identity.
  ghost predicate BestIsFirst(submitted: seq<RoutingRule>, order: seq<MatchType>, x: Connection) {
    exists i :: IsFirst(submitted, i) && BestMatch(submitted, order, submitted[i], x)
  }

  // The winner of the compiled list, as a rule of the submitted one.
  ghost predicate WinsFirst(
    submitted: seq<RoutingRule>, compiled: seq<RoutingRule>, order: seq<MatchType>, i: int, x: Connection)
  {
    && IsFirst(submitted, i) && EnabledMatch(submitted[i], x)
    && Winner(compiled, [], map[], x) == Some(Manual(Reprioritized(submitted[i], order)))
    && forall k | IsFirst(submitted, k) && EnabledMatch(submitted[k], x) ::
         !RanksAhead(Manual(Reprioritized(submitted[k], order)), Manual(Reprioritized(submitted[i], order)))
  }

  lemma WinnerIsFirst(submitted: seq<RoutingRule>, compiled: seq<RoutingRule>, order: seq<MatchType>, x: Connection)
    requires Encodes(submitted, compiled, order)
    ensures if Winner(compiled, [], map[], x).Some? then exists i :: WinsFirst(submitted, compiled, order, i, x)
            else forall k | IsFirst(submitted, k) :: !EnabledMatch(submitted[k], x)
  {
    var w := Winner(compiled, [], map[], x);
    WinnerIsUnbeaten(compiled, [], map[], x);
    forall k | IsFirst(submitted, k) && EnabledMatch(submitted[k], x)
      ensures w.Some? && !RanksAhead(Manual(Reprioritized(submitted[k], order)), w.value)
    {
      var e := Reprioritized(submitted[k], order);
      assert e in compiled && RuleMatches(e, x);
    }
    if w.Some? {
      var i :| IsFirst(submitted, i) && w.value.rule == Reprioritized(submitted[i], order);
      assert WinsFirst(submitted, compiled, order, i, x);
    }
  }

  // Being at least as good as a best match is being one.
  lemma AsGoodAsBest(
    submitted: seq<RoutingRule>, order: seq<MatchType>, best: RoutingRule, r: RoutingRule, x: Connection)
    requires ValidMatchOrder(order) && BestMatch(submitted, order, best, x) && r in submitted && EnabledMatch(r, x)
    requires !RanksAhead(Manual(Reprioritized(best, order)), Manual(Reprioritized(r, order)))
    ensures BestMatch(submitted, order, r, x)
  {
    UnbeatenIsBest(order, r, best, x);
    assert EnabledMatch(best, x);
  }

  lemma SameEncoding(
    submitted: seq<RoutingRule>, order: seq<MatchType>, best: RoutingRule, r: RoutingRule, x: Connection)
    requires BestMatch(submitted, order, best, x) && r in submitted
    requires Reprioritized(best, order) == Reprioritized(r, order)
    ensures BestMatch(submitted, order, r, x)
  {
    assert best.(priority := r.priority) == r;
  }

  lemma FirstBestDecides(submitted: seq<RoutingRule>, compiled: seq<RoutingRule>, order: seq<MatchType>, x: Connection)
    requires ValidMatchOrder(order) && Encodes(submitted, compiled, order) && BestIsFirst(submitted, order, x)
    ensures DecidesBest(submitted, compiled, order, x)
  {
    WinnerIsFirst(submitted, compiled, order, x);
    var k :| IsFirst(submitted, k) && BestMatch(submitted, order, submitted[k], x);
    assert EnabledMatch(submitted[k], x);
    var i :| WinsFirst(submitted, compiled, order, i, x);
    AsGoodAsBest(submitted, order, submitted[k], submitted[i], x);
  }

  lemma DecidedBestIsFirst(
    submitted: seq<RoutingRule>, compiled: seq<RoutingRule>, order: seq<MatchType>, x: Connection)
    requires Encodes(submitted, compiled, order) && DecidesBest(submitted, compiled, order, x) &&
             !NoneMatches(submitted, x)
    ensures BestIsFirst(submitted, order, x)
  {
    WinnerIsFirst(submitted, compiled, order, x);
    var i :| WinsFirst(submitted, compiled, order, i, x);
    var best :| BestMatch(submitted, order, best, x) &&
                Reprioritized(submitted[i], order) == Reprioritized(best, order);
    SameEncoding(submitted, order, best, submitted[i], x);
  }

  // Exactly when the submitted list decides as meant: some best match is the
  // first of its identity, or nothing matches at all.
  lemma DecidesBestExactly(
    submitted: seq<RoutingRule>, compiled: seq<RoutingRule>, order: seq<MatchType>, x: Connection)
    requires ValidMatchOrder(order) && Encodes(submitted, compiled, order)
    ensures DecidesBest(submitted, compiled, order, x) <==>
            BestIsFirst(submitted, order, x) || NoneMatches(submitted, x)
  {
    if NoneMatches(submitted, x) {
      WinnerIsFirst(submitted, compiled, order, x);
    } else if BestIsFirst(submitted, order, x) {
      FirstBestDecides(submitted, compiled, order, x);
    } else if DecidesBest(submitted, compiled, order, x) {
      DecidedBestIsFirst(submitted, compiled, order, x);
    }
  }

  // ---- which lists decide as meant ----

  ghost predicate SameMatches(a: RoutingRule, b: RoutingRule) {
    forall x :: RuleMatches(a, x) <==> RuleMatches(b, x)
  }

  // An enabled IP rule at least as narrow as a prefix.
  predicate Narrows(rule: RoutingRule, network: Prefix) {
    !rule.disabled && rule.matchType == MatchIP && rule.network.bits >= network.bits
  }

  // One of the kept rules takes the address from a prefix, being as narrow.
  ghost predicate TakenByFirst(submitted: seq<RoutingRule>, network: Prefix, address: nat) {
    exists k :: IsFirst(submitted, k) && Narrows(submitted[k], network) &&
                submitted[k].network.Contains(network.width, address)
  }

  // Kept rules stand for the one at i: the first of its identity, or, address by
  // address, IP rules as narrow.
  ghost predicate StoodFor(submitted: seq<RoutingRule>, i: nat)
    requires i < |submitted|
  {
    var rule := submitted[i];
    if rule.matchType == MatchIP then
      forall address: nat | rule.network.Contains(rule.network.width, address) ::
        TakenByFirst(submitted, rule.network, address)
    else
      exists f :: IsFirst(submitted, f) && RuleIdentity(submitted[f]) == RuleIdentity(rule) &&
                  !submitted[f].disabled && SameMatches(submitted[f], rule)
  }

  ghost predicate RepeatsAreHarmless(submitted: seq<RoutingRule>) {
    forall i | 0 <= i < |submitted| && !submitted[i].disabled :: StoodFor(submitted, i)
  }

  lemma {:induction false} FirstOfIdentity(rules: seq<RoutingRule>, i: nat) returns (f: nat)
    requires i < |rules|
    ensures f <= i && IsFirst(rules, f) && RuleIdentity(rules[f]) == RuleIdentity(rules[i])
    decreases i
  {
    if IsFirst(rules, i) {
      f := i;
    } else {
      var j :| 0 <= j < i && RuleIdentity(rules[j]) == RuleIdentity(rules[i]);
      f := FirstOfIdentity(rules, j);
    }
  }

  lemma {:induction false} Pow2IsInjective(m: nat, n: nat)
    requires Pow2(m) == Pow2(n)
    ensures m == n
  {
    if m > 0 && n > 0 {
      Pow2IsInjective(m - 1, n - 1);
    }
  }

  // Prefixes that contain the same addresses are equally long.
  lemma SameAddressesSameLength(p: Prefix, q: Prefix)
    requires p.bits <= p.width && q.bits <= q.width && p.width == q.width
    requires forall t: nat :: p.Contains(p.width, t) <==> q.Contains(p.width, t)
    ensures p.bits == q.bits
  {
    ContainsIsInterval(p, p.First());
    ContainsIsInterval(q, p.First());
    ContainsIsInterval(p, p.Last());
    ContainsIsInterval(q, p.Last());
    ContainsIsInterval(p, q.First());
    ContainsIsInterval(q, q.First());
    ContainsIsInterval(p, q.Last());
    ContainsIsInterval(q, q.Last());
    Pow2IsInjective(p.width - p.bits, q.width - q.bits);
  }

  function At(family: nat, value: nat): Connection {
    Connection(None, None, None, Some(Address(family, value)), {}, {})
  }

  lemma IPMatch(rule: RoutingRule, x: Connection)
    requires rule.matchType == MatchIP
    ensures RuleMatches(rule, x) <==>
            x.address.Some? && rule.network.Contains(x.address.value.family, x.address.value.value)
  {
    assert rule.network in HeadlessRule(rule).cidrs;
  }

  lemma SameMatchesSameNarrowness(a: RoutingRule, b: RoutingRule, x: Connection)
    requires RuleIdentity(a) == RuleIdentity(b) && SameMatches(a, b) && RuleMatches(b, x)
    ensures Narrowness(a) == Narrowness(b)
  {
    match a.matchType
    case MatchProcess =>
    case MatchDomain =>
      LowerOfTrimDot(a.value);
      LowerOfTrimDot(b.value);
    case MatchIP =>
      IPMatch(a, x);
      IPMatch(b, x);
      forall t: nat
        ensures a.network.Contains(a.network.width, t) <==> b.network.Contains(a.network.width, t)
      {
        IPMatch(a, At(a.network.width, t));
        IPMatch(b, At(a.network.width, t));
      }
      SameAddressesSameLength(a.network, b.network);
  }

  // A rule stood for leaves none of its connections without a kept match of its
  // type that is as narrow.
  lemma StandIn(submitted: seq<RoutingRule>, i: nat, x: Connection) returns (k: nat)
    requires i < |submitted| && StoodFor(submitted, i) && EnabledMatch(submitted[i], x)
    ensures IsFirst(submitted, k) && EnabledMatch(submitted[k], x)
    ensures submitted[k].matchType == submitted[i].matchType && Narrowness(submitted[i]) <= Narrowness(submitted[k])
  {
    var rule := submitted[i];
    if rule.matchType == MatchIP {
      IPMatch(rule, x);
      assert TakenByFirst(submitted, rule.network, x.address.value.value);
      k :| IsFirst(submitted, k) && Narrows(submitted[k], rule.network) &&
           submitted[k].network.Contains(rule.network.width, x.address.value.value);
      IPMatch(submitted[k], x);
    } else {
      k :| IsFirst(submitted, k) && RuleIdentity(submitted[k]) == RuleIdentity(rule) &&
           !submitted[k].disabled && SameMatches(submitted[k], rule);
      SameMatchesSameNarrowness(submitted[k], rule, x);
    }
  }

  // What is at least as good as every kept rule is, where repetitions are
  // harmless, as good as every rule.
  lemma HarmlessWinnerIsBest(
    submitted: seq<RoutingRule>, compiled: seq<RoutingRule>, order: seq<MatchType>, i: int, x: Connection)
    requires ValidMatchOrder(order) && RepeatsAreHarmless(submitted) && WinsFirst(submitted, compiled, order, i, x)
    ensures BestMatch(submitted, order, submitted[i], x)
  {
    forall s | s in submitted && EnabledMatch(s, x)
      ensures || Position(order, submitted[i].matchType) < Position(order, s.matchType)
              || (s.matchType == submitted[i].matchType && Narrowness(s) <= Narrowness(submitted[i]))
    {
      var n :| 0 <= n < |submitted| && submitted[n] == s;
      var k := StandIn(submitted, n, x);
      UnbeatenIsBest(order, submitted[i], submitted[k], x);
    }
  }

  lemma HarmlessListsDecideBest(
    submitted: seq<RoutingRule>, compiled: seq<RoutingRule>, order: seq<MatchType>, x: Connection)
    requires ValidMatchOrder(order) && Encodes(submitted, compiled, order) && RepeatsAreHarmless(submitted)
    ensures DecidesBest(submitted, compiled, order, x)
  {
    DecidesBestExactly(submitted, compiled, order, x);
    WinnerIsFirst(submitted, compiled, order, x);
    if i :| WinsFirst(submitted, compiled, order, i, x) {
      HarmlessWinnerIsBest(submitted, compiled, order, i, x);
    }
    if r :| r in submitted && EnabledMatch(r, x) {
      var n :| 0 <= n < |submitted| && submitted[n] == r;
      var k := StandIn(submitted, n, x);
      assert EnabledMatch(submitted[k], x);
    }
  }

  // In particular where every enabled rule only repeats an enabled first one.
  lemma EqualRepeatsAreHarmless(submitted: seq<RoutingRule>)
    requires forall f, i | IsFirst(submitted, f) && f <= i < |submitted| && !submitted[i].disabled &&
                           RuleIdentity(submitted[f]) == RuleIdentity(submitted[i]) ::
               !submitted[f].disabled && SameMatches(submitted[f], submitted[i])
    ensures RepeatsAreHarmless(submitted)
  {
    forall i | 0 <= i < |submitted| && !submitted[i].disabled
      ensures StoodFor(submitted, i)
    {
      var rule := submitted[i];
      var f := FirstOfIdentity(submitted, i);
      if rule.matchType == MatchIP {
        forall address: nat | rule.network.Contains(rule.network.width, address)
          ensures TakenByFirst(submitted, rule.network, address)
        {
          var x := At(rule.network.width, address);
          IPMatch(rule, x);
          IPMatch(submitted[f], x);
          SameMatchesSameNarrowness(submitted[f], rule, x);
        }
      }
    }
  }

  // Whether kept rules stand for an IP rule is a search for a free block: is any
  // address of its prefix outside every kept prefix as narrow?
  lemma StoodForIsNoFreeBlock(submitted: seq<RoutingRule>, i: nat, narrower: seq<Prefix>)
    requires i < |submitted| && submitted[i].matchType == MatchIP && submitted[i].network.IsValid()
    requires forall q | q in narrower :: q.IsValid()
    requires forall q :: q in narrower <==>
               exists k ::
                 IsFirst(submitted, k) && Narrows(submitted[k], submitted[i].network) && submitted[k].network == q
    ensures StoodFor(submitted, i) <==>
            !exists block :: FreeBlock(submitted[i].network, submitted[i].network.width, narrower, block)
  {
    var pool := submitted[i].network;
    if block :| FreeBlock(pool, pool.width, narrower, block) {
      ContainsIsInterval(pool, block.address);
      if k :| IsFirst(submitted, k) && Narrows(submitted[k], pool) &&
              submitted[k].network.Contains(pool.width, block.address) {
        var q := submitted[k].network;
        assert q in narrower;
        ContainsIsInterval(q, block.address);
        OverlapIsInterval(block, q);
      }
      assert !TakenByFirst(submitted, pool, block.address);
    }
    if address: nat :| pool.Contains(pool.width, address) && !TakenByFirst(submitted, pool, address) {
      var block := Prefix(pool.width, address, pool.width);
      ContainsIsInterval(pool, address);
      TopOfFamily(pool);
      forall n | 0 <= n < |narrower|
        ensures !block.Overlaps(narrower[n])
      {
        var q := narrower[n];
        assert q in narrower;
        if block.Overlaps(q) {
          OverlapIsInterval(block, q);
          ContainsIsInterval(q, address);
        }
      }
      assert FreeBlock(pool, pool.width, narrower, block);
    }
  }

  // The published plan under a match order, repetitions and all: where they are
  // harmless it picks the first type in the user's order with a matching enabled
  // rule, and its longest suffix or narrowest prefix.
  lemma PublishedOrderDecides(
    normalize: Normalize, rules: seq<RoutingRule>, order: seq<MatchType>, files: Files, outbounds: seq<string>,
    x: Connection)
    requires RewritesValues(normalize) && ValidMatchOrder(order) && AllValid(normalize, WithMatchOrder(rules, order))
    requires RepeatsAreHarmless(Submitted(normalize, rules))
    requires Published(files, Compiled(normalize, rules, order), [], map[], outbounds)
    requires forall r | r in Compiled(normalize, rules, order) && !r.disabled :: r.outbound in outbounds
    ensures var submitted, decision := Submitted(normalize, rules), FirstReference(UserReferences(outbounds), files, x);
            && (decision.None? <==> NoneMatches(submitted, x))
            && (decision.Some? ==> exists best ::
                                     BestMatch(submitted, order, best, x) && best.outbound == decision.value)
  {
    CompiledEncodes(normalize, rules, order);
    PublishedEncodingDecides(
      Submitted(normalize, rules), Compiled(normalize, rules, order), order, files, outbounds, x);
  }

  lemma PublishedEncodingDecides(
    submitted: seq<RoutingRule>, compiled: seq<RoutingRule>, order: seq<MatchType>, files: Files,
    outbounds: seq<string>, x: Connection)
    requires ValidMatchOrder(order) && Encodes(submitted, compiled, order) && RepeatsAreHarmless(submitted)
    requires Published(files, compiled, [], map[], outbounds)
    requires forall r | r in compiled && !r.disabled :: r.outbound in outbounds
    ensures var decision := FirstReference(UserReferences(outbounds), files, x);
            && (decision.None? <==> NoneMatches(submitted, x))
            && (decision.Some? ==> exists best ::
                                     BestMatch(submitted, order, best, x) && best.outbound == decision.value)
  {
    HarmlessListsDecideBest(submitted, compiled, order, x);
    WinnerIsUnbeaten(compiled, [], map[], x);
    assert [] + UserReferences(outbounds) == UserReferences(outbounds);
    PlanFollowsRanking(compiled, [], map[], outbounds, files, [], x);
  }

  // ---- where a repetition does harm ----

  // normalizeRule leaves domains in lower case and without a leading dot.
  ghost predicate CanonicalDomains(submitted: seq<RoutingRule>) {
    forall i | 0 <= i < |submitted| && submitted[i].matchType == MatchDomain ::
      submitted[i].value != "" && Lower(submitted[i].value) == submitted[i].value &&
      TrimDot(submitted[i].value) == submitted[i].value
  }

  // A connection that only the rule's own type can match, and by its own value.
  function Witness(rule: RoutingRule): Connection {
    match rule.matchType
    case MatchProcess => Connection(Some(rule.value), None, None, None, {}, {})
    case MatchDomain => Connection(None, None, Some(rule.value), None, {}, {})
    case MatchIP => At(rule.network.width, rule.network.address)
  }

  lemma DomainMatch(rule: RoutingRule, x: Connection)
    requires rule.matchType == MatchDomain && TrimDot(rule.value) == rule.value
    ensures RuleMatches(rule, x) <==> x.domain.Some? && DotSuffix(Lower(x.domain.value), rule.value)
  {
    if x.domain.Some? {
      var suffix := "." + rule.value;
      assert suffix in HeadlessRule(rule).suffixes && rule.value in HeadlessRule(rule).domains;
      assert SuffixMatches(suffix, Lower(x.domain.value)) <==> HasSuffix(Lower(x.domain.value), suffix);
    }
  }

  // At its witness a rule is matched as narrowly only under its own identity.
  lemma OnlyOwnValue(submitted: seq<RoutingRule>, order: seq<MatchType>, i: nat, k: nat)
    requires CanonicalDomains(submitted) && i < |submitted| && k < |submitted|
    requires submitted[i].matchType != MatchIP && EnabledMatch(submitted[i], Witness(submitted[i]))
    requires BestMatch(submitted, order, submitted[k], Witness(submitted[i]))
    ensures submitted[k].matchType == submitted[i].matchType && submitted[k].value == submitted[i].value
  {
    var rule, best, x := submitted[i], submitted[k], Witness(submitted[i]);
    assert rule in submitted;
    match best.matchType
    case MatchProcess =>
    case MatchDomain =>
      DomainMatch(best, x);
      assert Narrowness(rule) <= Narrowness(best);
    case MatchIP =>
      IPMatch(best, x);
  }

  lemma RuleMatchesItsWitness(submitted: seq<RoutingRule>, i: nat)
    requires CanonicalDomains(submitted) && i < |submitted| && submitted[i].matchType != MatchIP
    ensures RuleMatches(submitted[i], Witness(submitted[i]))
  {
    if submitted[i].matchType == MatchDomain {
      DomainMatch(submitted[i], Witness(submitted[i]));
    }
  }

  // A process or domain rule hidden by the first rule of its identity: disabled,
  // or a process spelled in another case.
  ghost predicate Hidden(submitted: seq<RoutingRule>, f: nat, i: nat) {
    && IsFirst(submitted, f) && f < i < |submitted| && RuleIdentity(submitted[f]) == RuleIdentity(submitted[i])
    && !submitted[i].disabled && submitted[i].matchType != MatchIP
    && (submitted[f].disabled || !SameMatches(submitted[f], submitted[i]))
  }

  // It loses a connection of its own.
  lemma HiddenRuleLoses(submitted: seq<RoutingRule>, compiled: seq<RoutingRule>, order: seq<MatchType>, f: nat, i: nat)
    requires ValidMatchOrder(order) && Encodes(submitted, compiled, order) && CanonicalDomains(submitted)
    requires Hidden(submitted, f, i)
    ensures EnabledMatch(submitted[i], Witness(submitted[i]))
    ensures !DecidesBest(submitted, compiled, order, Witness(submitted[i]))
  {
    var x := Witness(submitted[i]);
    RuleMatchesItsWitness(submitted, i);
    assert submitted[i] in submitted;
    forall k | IsFirst(submitted, k)
      ensures !BestMatch(submitted, order, submitted[k], x)
    {
      if BestMatch(submitted, order, submitted[k], x) {
        OnlyOwnValue(submitted, order, i, k);
        FirstIsUnique(submitted, f, k);
        SameValueSameMatches(submitted[f], submitted[i]);
      }
    }
    DecidesBestExactly(submitted, compiled, order, x);
  }

  lemma FirstIsUnique(rules: seq<RoutingRule>, f: int, k: int)
    requires IsFirst(rules, f) && IsFirst(rules, k) && RuleIdentity(rules[f]) == RuleIdentity(rules[k])
    ensures f == k
  {
  }

  lemma SameValueSameMatches(a: RoutingRule, b: RoutingRule)
    requires a.matchType == b.matchType != MatchIP && a.value == b.value
    ensures SameMatches(a, b)
  {
  }

  // So does an IP rule with an address that no kept rule as narrow takes.
  lemma HiddenPrefixLoses(
    submitted: seq<RoutingRule>, compiled: seq<RoutingRule>, order: seq<MatchType>, i: nat, address: nat)
    requires ValidMatchOrder(order) && Encodes(submitted, compiled, order)
    requires i < |submitted| && !submitted[i].disabled && submitted[i].matchType == MatchIP
    requires submitted[i].network.Contains(submitted[i].network.width, address)
    requires !TakenByFirst(submitted, submitted[i].network, address)
    ensures var x := At(submitted[i].network.width, address);
            EnabledMatch(submitted[i], x) && !DecidesBest(submitted, compiled, order, x)
  {
    var rule, x := submitted[i], At(submitted[i].network.width, address);
    IPMatch(rule, x);
    assert rule in submitted && EnabledMatch(rule, x);
    forall k | IsFirst(submitted, k)
      ensures !BestMatch(submitted, order, submitted[k], x)
    {
      if BestMatch(submitted, order, submitted[k], x) {
        BestAddressIsNarrow(submitted, order, i, k, x);
      }
    }
    DecidesBestExactly(submitted, compiled, order, x);
  }

  // A best match where only addresses match is an IP rule as narrow as any.
  lemma BestAddressIsNarrow(submitted: seq<RoutingRule>, order: seq<MatchType>, i: nat, k: nat, x: Connection)
    requires i < |submitted| && submitted[i].matchType == MatchIP && EnabledMatch(submitted[i], x)
    requires x.process.None? && x.domain.None? && x.address.Some?
    requires k < |submitted| && BestMatch(submitted, order, submitted[k], x)
    ensures Narrows(submitted[k], submitted[i].network)
    ensures submitted[k].network.Contains(x.address.value.family, x.address.value.value)
  {
    assert submitted[i] in submitted;
    OnlyIPMatches(submitted[k], x);
    IPMatch(submitted[k], x);
    assert Narrowness(submitted[i]) <= Narrowness(submitted[k]);
  }

  lemma OnlyIPMatches(rule: RoutingRule, x: Connection)
    requires x.process.None? && x.domain.None? && RuleMatches(rule, x)
    ensures rule.matchType == MatchIP
  {
  }

  // Exactly the lists whose repetitions are harmless decide every connection as
  // meant.
  lemma HarmlessExactly(submitted: seq<RoutingRule>, compiled: seq<RoutingRule>, order: seq<MatchType>)
    requires ValidMatchOrder(order) && Encodes(submitted, compiled, order) && CanonicalDomains(submitted)
    ensures (forall x :: DecidesBest(submitted, compiled, order, x)) <==> RepeatsAreHarmless(submitted)
  {
    if RepeatsAreHarmless(submitted) {
      forall x
        ensures DecidesBest(submitted, compiled, order, x)
      {
        HarmlessListsDecideBest(submitted, compiled, order, x);
      }
    } else {
      var i :| 0 <= i < |submitted| && !submitted[i].disabled && !StoodFor(submitted, i);
      var rule := submitted[i];
      if rule.matchType == MatchIP {
        var address: nat :| rule.network.Contains(rule.network.width, address) &&
                            !TakenByFirst(submitted, rule.network, address);
        HiddenPrefixLoses(submitted, compiled, order, i, address);
      } else {
        var f := FirstOfIdentity(submitted, i);
        assert Hidden(submitted, f, i);
        HiddenRuleLoses(submitted, compiled, order, f, i);
      }
    }
  }

  const ORDER := [MatchProcess, MatchDomain, MatchIP]

  function ProcessRule(disabled: bool, name: string, outbound: string): RoutingRule {
    RoutingRule(disabled, 0, MatchProcess, name, Prefix(0, 0, 0), outbound)
  }

  // A disabled rule listed first hides the enabled one of the same value.
  lemma DisabledRepeatHides(outbound: string)
    ensures var rules := [ProcessRule(true, "a.exe", outbound), ProcessRule(false, "a.exe", outbound)];
            && Submitted(r => Some(r), rules) == rules
            && EnabledMatch(rules[1], Witness(rules[1]))
            && !DecidesBest(rules, Compiled(r => Some(r), rules, ORDER), ORDER, Witness(rules[1]))
  {
    var rules := [ProcessRule(true, "a.exe", outbound), ProcessRule(false, "a.exe", outbound)];
    var identity: Normalize := r => Some(r);
    assert Submitted(identity, rules) == rules;
    CompiledEncodes(identity, rules, ORDER);
    assert Hidden(rules, 0, 1);
    HiddenRuleLoses(rules, Compiled(identity, rules, ORDER), ORDER, 0, 1);
  }
}
