/**
 routing.go and the ordering half of singbox_rules.go: routing rules, what they
 match, when two of them can overlap, and the one order that ranks them.
 */
module Routing {
  import opened Options
  import opened Prefixes
  import opened Sorting
  import opened Text

  datatype MatchType = MatchProcess | MatchDomain | MatchIP

  // network is the parsed form of value, used when matchType is MatchIP.
  datatype RoutingRule = RoutingRule(
    disabled: bool, priority: int, matchType: MatchType, value: string, network: Prefix, outbound: string)

  // A subscribed list: one row bound to one outbound.
  datatype RuleSet = RuleSet(id: string, name: string, outbound: string, priority: int, disabled: bool)

  datatype Address = Address(family: nat, value: nat)

  // What sing-box knows of a connection. Keyword and regular-expression matches
  // are uninterpreted: the connection carries the patterns its domain satisfies.
  datatype Connection = Connection(
    process: Option<string>, path: Option<string>, domain: Option<string>, address: Option<Address>,
    keywords: set<string>, regexes: set<string>)

  // ---- headless rules ----

  datatype Headless =
    | ProcessName(name: string)
    | Destination(
        domains: seq<string>, suffixes: seq<string>, keywords: seq<string>, regexes: seq<string>, cidrs: seq<Prefix>)
    | Logical(all: bool, rules: seq<Headless>, invert: bool)

  // A suffix with a leading dot matches subdomains only.
  predicate SuffixMatches(suffix: string, name: string) {
    if |suffix| > 0 && suffix[0] == '.' then HasSuffix(name, suffix)
    else name == suffix || HasSuffix(name, "." + suffix)
  }

  predicate Matches(rule: Headless, x: Connection) {
    match rule
    case ProcessName(name) => x.process == Some(name)
    case Destination(domains, suffixes, keywords, regexes, cidrs) =>
      || (x.domain.Some? && (|| Lower(x.domain.value) in domains
                             || (exists s | s in suffixes :: SuffixMatches(s, Lower(x.domain.value)))
                             || (exists k | k in keywords :: k in x.keywords)
                             || (exists r | r in regexes :: r in x.regexes)))
      || (x.address.Some? && exists c | c in cidrs :: c.Contains(x.address.value.family, x.address.value.value))
    case Logical(all, rules, invert) =>
      var hit := if all then forall r | r in rules :: Matches(r, x) else exists r | r in rules :: Matches(r, x);
      hit != invert
  }

  // A rule-set matches when some rule in it matches.
  predicate FileMatches(file: seq<Headless>, x: Connection) {
    exists r | r in file :: Matches(r, x)
  }

  function HeadlessRule(rule: RoutingRule): Headless {
    match rule.matchType
    case MatchProcess => ProcessName(rule.value)
    case MatchDomain => Destination([rule.value], ["." + TrimDot(rule.value)], [], [], [])
    case MatchIP => Destination([], [], [], [], [rule.network])
  }

  predicate RuleMatches(rule: RoutingRule, x: Connection) {
    Matches(HeadlessRule(rule), x)
  }

  // "rule, and not any of the exclusions".
  function Carve(rule: Headless, exclusions: seq<Headless>): Headless {
    if |exclusions| == 0 then rule
    else Logical(true, [rule, Logical(false, exclusions, true)], false)
  }

  lemma CarveMatches(rule: Headless, exclusions: seq<Headless>, x: Connection)
    ensures Matches(Carve(rule, exclusions), x) <==> Matches(rule, x) && !FileMatches(exclusions, x)
  {
    if |exclusions| > 0 {
      var negated := Logical(false, exclusions, true);
      assert Matches(negated, x) <==> !FileMatches(exclusions, x);
      var both := [rule, negated];
      assert both[0] in both && both[1] in both;
      assert forall r | r in both :: r == rule || r == negated;
      assert Matches(Logical(true, both, false), x) <==> Matches(rule, x) && Matches(negated, x);
    }
  }

  // ---- overlap ----

  // name is s, or lies below s in the domain tree.
  predicate DotSuffix(name: string, s: string) {
    name == s || HasSuffix(name, "." + s)
  }

  predicate RulesCanOverlap(left: RoutingRule, right: RoutingRule) {
    && left.matchType == right.matchType
    && match left.matchType
       case MatchProcess => EqualFold(left.value, right.value)
       case MatchDomain =>
         var l, r := TrimDot(Lower(left.value)), TrimDot(Lower(right.value));
         l == r || HasSuffix(l, "." + r) || HasSuffix(r, "." + l)
       case MatchIP =>
         || left.network.Contains(right.network.width, right.network.address)
         || right.network.Contains(left.network.width, left.network.address)
  }

  // Two dot-aligned suffixes of one name are nested.
  lemma NestedSuffixes(name: string, a: string, b: string)
    requires DotSuffix(name, a) && DotSuffix(name, b) && |a| <= |b|
    ensures DotSuffix(b, a)
  {
    var n := |name|;
    assert name[n - |b|..] == b by {
      if name != b {
        assert name[n - |b|..] == ("." + b)[1..];
      }
    }
    if |a| == |b| {
      assert name[n - |a|..] == a by {
        if name != a {
          assert name[n - |a|..] == ("." + a)[1..];
        }
      }
    } else {
      assert name[n - |a| - 1..] == "." + a;
      assert b[|b| - |a| - 1..] == name[n - |a| - 1..];
    }
  }

  // A matched name lies at or below the trimmed rule value.
  lemma DomainRuleIsDotSuffix(rule: RoutingRule, x: Connection)
    requires rule.matchType == MatchDomain && RuleMatches(rule, x)
    ensures x.domain.Some? && DotSuffix(Lower(x.domain.value), TrimDot(rule.value))
  {
  }

  lemma LowerKeepsDotSuffix(name: string, s: string)
    requires DotSuffix(name, s)
    ensures DotSuffix(Lower(name), Lower(s))
  {
  }

  lemma LowerOfTrimDot(s: string)
    ensures Lower(TrimDot(s)) == TrimDot(Lower(s))
  {
  }

  // Whatever two rules of one type both match, the compiler sees them overlap.
  lemma CommonMatchIsOverlap(left: RoutingRule, right: RoutingRule, x: Connection)
    requires left.matchType == right.matchType
    requires RuleMatches(left, x) && RuleMatches(right, x)
    ensures RulesCanOverlap(left, right)
  {
    match left.matchType
    case MatchProcess =>
    case MatchDomain =>
      DomainRuleIsDotSuffix(left, x);
      DomainRuleIsDotSuffix(right, x);
      var name := Lower(x.domain.value);
      LowerKeepsDotSuffix(name, TrimDot(left.value));
      LowerKeepsDotSuffix(name, TrimDot(right.value));
      LowerOfTrimDot(left.value);
      LowerOfTrimDot(right.value);
      var l, r := TrimDot(Lower(left.value)), TrimDot(Lower(right.value));
      if |l| <= |r| {
        NestedSuffixes(Lower(name), l, r);
      } else {
        NestedSuffixes(Lower(name), r, l);
      }
    case MatchIP =>
      var a := x.address.value;
      var p, q := left.network, right.network;
      assert p.Contains(a.family, a.value) && q.Contains(a.family, a.value) by {
        assert p in HeadlessRule(left).cidrs && q in HeadlessRule(right).cidrs;
      }
      if p.bits <= q.bits {
        ContainingPrefixesNest(p, q, a.family, a.value);
        assert q.Contains(a.family, q.address);
      } else {
        ContainingPrefixesNest(q, p, a.family, a.value);
        assert p.Contains(a.family, p.address);
      }
  }

  // ---- the ranking ----

  function TypeRank(matchType: MatchType): nat {
    match matchType
    case MatchProcess => 0
    case MatchDomain => 1
    case MatchIP => 2
  }

  // sortCandidates' comparison.
  predicate CandidateLess(left: RoutingRule, right: RoutingRule) {
    if left.priority != right.priority then left.priority > right.priority
    else if TypeRank(left.matchType) != TypeRank(right.matchType)
    then TypeRank(left.matchType) < TypeRank(right.matchType)
    else if left.matchType == MatchDomain && Dots(TrimDot(left.value)) != Dots(TrimDot(right.value)) then
      Dots(TrimDot(left.value)) > Dots(TrimDot(right.value))
    else if left.matchType == MatchIP && left.network.bits != right.network.bits then
      left.network.bits > right.network.bits
    else StringLess(Lower(left.value), Lower(right.value))
  }

  // sortedExternalRuleSets' comparison.
  predicate SetLess(left: RuleSet, right: RuleSet) {
    if left.priority != right.priority then left.priority > right.priority
    else StringLess(Lower(left.name), Lower(right.name))
  }

  // Everything that can decide a connection: a manual rule or a subscribed list.
  datatype Intent = Manual(rule: RoutingRule) | Subscribed(ruleSet: RuleSet)

  // The single ranked list, by key: higher priority, then process, domain,
  // subscribed list, IP, then the more specific, then the name.
  datatype Rank = Rank(priority: int, kind: nat, specificity: nat, name: string)

  function RankOf(intent: Intent): Rank {
    match intent
    case Manual(rule) =>
      match rule.matchType {
        case MatchProcess => Rank(rule.priority, 0, 0, Lower(rule.value))
        case MatchDomain => Rank(rule.priority, 1, Dots(TrimDot(rule.value)), Lower(rule.value))
        case MatchIP => Rank(rule.priority, 3, rule.network.bits, Lower(rule.value))
      }
    case Subscribed(ruleSet) => Rank(ruleSet.priority, 2, 0, Lower(ruleSet.name))
  }

  predicate RankLess(a: Rank, b: Rank) {
    if a.priority != b.priority then a.priority > b.priority
    else if a.kind != b.kind then a.kind < b.kind
    else if a.specificity != b.specificity then a.specificity > b.specificity
    else StringLess(a.name, b.name)
  }

  predicate RanksAhead(a: Intent, b: Intent) {
    RankLess(RankOf(a), RankOf(b))
  }

  function Ranked(rules: seq<RoutingRule>, sets: seq<RuleSet>): seq<Intent> {
    StableSort(RanksAhead, Map(r => Manual(r), rules) + Map(s => Subscribed(s), sets))
  }

  lemma RanksAheadIsStrictWeak()
    ensures StrictWeakOrder(RanksAhead)
  {
    forall a, b | RanksAhead(a, b)
      ensures !RanksAhead(b, a)
    {
      if StringLess(RankOf(a).name, RankOf(b).name) {
        StringLessAsymmetric(RankOf(a).name, RankOf(b).name);
      }
    }
    forall a, b, c | !RanksAhead(a, b) && !RanksAhead(b, c)
      ensures !RanksAhead(a, c)
    {
      var p, q, r := RankOf(a).name, RankOf(b).name, RankOf(c).name;
      if !StringLess(p, q) && !StringLess(q, r) {
        StringLessNegativelyTransitive(p, q, r);
      }
    }
  }

  lemma ComparisonsAgreeWithRank()
    ensures forall l, r :: CandidateLess(l, r) <==> RanksAhead(Manual(l), Manual(r))
    ensures forall l, r :: SetLess(l, r) <==> RanksAhead(Subscribed(l), Subscribed(r))
    ensures StrictWeakOrder(CandidateLess) && StrictWeakOrder(SetLess)
  {
    RanksAheadIsStrictWeak();
    forall a, b, c | !CandidateLess(a, b) && !CandidateLess(b, c)
      ensures !CandidateLess(a, c)
    {
      assert !RanksAhead(Manual(a), Manual(b)) && !RanksAhead(Manual(b), Manual(c));
    }
    forall a, b, c | !SetLess(a, b) && !SetLess(b, c)
      ensures !SetLess(a, c)
    {
      assert !RanksAhead(Subscribed(a), Subscribed(b)) && !RanksAhead(Subscribed(b), Subscribed(c));
    }
    forall a, b | CandidateLess(a, b)
      ensures !CandidateLess(b, a)
    {
      assert RanksAhead(Manual(a), Manual(b));
    }
    forall a, b | SetLess(a, b)
      ensures !SetLess(b, a)
    {
      assert RanksAhead(Subscribed(a), Subscribed(b));
    }
  }
}
