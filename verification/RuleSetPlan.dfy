/**
 singbox_rules.go: compiling the ranked list of intents into a fixed sequence of
 rule-set references, one file per (scope, outbound) and one per subscribed
 list, with carve-outs that recover the intended winner.
 */
module RuleSetPlan {
  import opened Options
  import opened Routing
  import opened Sorting

  datatype Scope = ProcessScope | DomainScope | IPScope | CustomIPScope | EarlyIPScope

  // Tags and paths are digests of exactly these values.
  datatype Tag = Bound(scope: Scope, outbound: string) | External(id: string)

  datatype Reference = Reference(tag: Tag, outbound: string)

  datatype Plan = Plan(early: seq<Reference>, external: seq<Reference>, user: seq<Reference>, priority: seq<Tag>)

  type Files = map<Tag, seq<Headless>>

  // The normalized entries of each subscribed list, by list id.
  type Payloads = map<string, seq<Headless>>

  // ---- the manual files ----

  function ScopeType(scope: Scope): MatchType {
    match scope
    case ProcessScope => MatchProcess
    case DomainScope => MatchDomain
    case IPScope => MatchIP
    case CustomIPScope => MatchIP
    case EarlyIPScope => MatchIP
  }

  predicate Selected(candidate: RoutingRule, scope: Scope, outbound: string) {
    && !(scope == CustomIPScope && candidate.priority == 0)
    && !candidate.disabled && candidate.matchType == ScopeType(scope) && candidate.outbound == outbound
  }

  predicate Excludes(earlier: RoutingRule, candidate: RoutingRule) {
    && !earlier.disabled && earlier.outbound != candidate.outbound
    && ((earlier.matchType != candidate.matchType && earlier.priority > candidate.priority)
        || RulesCanOverlap(earlier, candidate))
  }

  function Exclusions(candidates: seq<RoutingRule>, i: nat): seq<Headless>
    requires i < |candidates|
  {
    Map(r => HeadlessRule(r), Filter(e => Excludes(e, candidates[i]), candidates[..i]))
  }

  // buildSingBoxSourceRules, after the first n candidates.
  function SourceRules(candidates: seq<RoutingRule>, scope: Scope, outbound: string, n: nat): seq<Headless>
    requires n <= |candidates|
  {
    if n == 0 then []
    else SourceRules(candidates, scope, outbound, n - 1)
         + if Selected(candidates[n - 1], scope, outbound)
           then [Carve(HeadlessRule(candidates[n - 1]), Exclusions(candidates, n - 1))]
           else []
  }

  // A candidate claims a connection it matches unless a carved-out one does too.
  ghost predicate Claims(candidates: seq<RoutingRule>, i: nat, x: Connection)
    requires i < |candidates|
  {
    && RuleMatches(candidates[i], x)
    && forall j | 0 <= j < i && Excludes(candidates[j], candidates[i]) :: !RuleMatches(candidates[j], x)
  }

  ghost predicate SomeClaim(candidates: seq<RoutingRule>, scope: Scope, outbound: string, n: nat, x: Connection)
    requires n <= |candidates|
  {
    exists i :: 0 <= i < n && Selected(candidates[i], scope, outbound) && Claims(candidates, i, x)
  }

  lemma FilteredFileMatches(p: RoutingRule -> bool, rules: seq<RoutingRule>, x: Connection)
    ensures FileMatches(Map(r => HeadlessRule(r), Filter(p, rules)), x) <==>
            exists j :: 0 <= j < |rules| && p(rules[j]) && RuleMatches(rules[j], x)
  {
    var kept := Filter(p, rules);
    var file := Map(r => HeadlessRule(r), kept);
    FilterMembers(p, rules);
    if r :| r in file && Matches(r, x) {
      var i :| 0 <= i < |file| && file[i] == r;
      assert kept[i] in rules && p(kept[i]) && RuleMatches(kept[i], x);
    }
    if j :| 0 <= j < |rules| && p(rules[j]) && RuleMatches(rules[j], x) {
      assert rules[j] in kept;
      var i :| 0 <= i < |kept| && kept[i] == rules[j];
      assert file[i] in file;
    }
  }

  lemma CarvedRuleClaims(candidates: seq<RoutingRule>, i: nat, x: Connection)
    requires i < |candidates|
    ensures Matches(Carve(HeadlessRule(candidates[i]), Exclusions(candidates, i)), x) <==> Claims(candidates, i, x)
  {
    CarveMatches(HeadlessRule(candidates[i]), Exclusions(candidates, i), x);
    FilteredFileMatches(e => Excludes(e, candidates[i]), candidates[..i], x);
  }

  lemma {:induction false} SourceRulesMatch(
    candidates: seq<RoutingRule>, scope: Scope, outbound: string, n: nat, x: Connection)
    requires n <= |candidates|
    ensures FileMatches(SourceRules(candidates, scope, outbound, n), x) <==>
            SomeClaim(candidates, scope, outbound, n, x)
  {
    if n > 0 {
      var c := candidates[n - 1];
      SourceRulesMatch(candidates, scope, outbound, n - 1, x);
      var before := SourceRules(candidates, scope, outbound, n - 1);
      if Selected(c, scope, outbound) {
        CarvedRuleClaims(candidates, n - 1, x);
        AppendedFileMatches(before, Carve(HeadlessRule(c), Exclusions(candidates, n - 1)), x);
      }
    }
  }

  lemma AppendedFileMatches(file: seq<Headless>, rule: Headless, x: Connection)
    ensures FileMatches(file + [rule], x) <==> FileMatches(file, x) || Matches(rule, x)
  {
  }

  // ---- the subscribed files ----

  predicate RanksAheadOfSet(candidate: RoutingRule, ruleSet: RuleSet) {
    if candidate.matchType == MatchIP then candidate.priority > ruleSet.priority
    else candidate.priority >= ruleSet.priority
  }

  predicate Carves(candidate: RoutingRule, ruleSet: RuleSet) {
    !candidate.disabled && candidate.outbound != ruleSet.outbound && RanksAheadOfSet(candidate, ruleSet)
  }

  function EntriesOf(payloads: Payloads, ruleSet: RuleSet): seq<Headless> {
    if ruleSet.id in payloads then payloads[ruleSet.id] else []
  }

  function HigherEntries(ruleSet: RuleSet, higher: seq<RuleSet>, payloads: Payloads): seq<Headless> {
    if higher == [] then []
    else HigherEntries(ruleSet, higher[..|higher| - 1], payloads)
         + if higher[|higher| - 1].outbound == ruleSet.outbound then [] else EntriesOf(payloads, higher[|higher| - 1])
  }

  // composeExternalRuleSetFile.
  function ExternalFile(
    ruleSet: RuleSet, higher: seq<RuleSet>, manual: seq<RoutingRule>, payloads: Payloads): seq<Headless>
  {
    var exclusions := Map(r => HeadlessRule(r), Filter(c => Carves(c, ruleSet), manual)) +
                      HigherEntries(ruleSet, higher, payloads);
    Map(r => Carve(r, exclusions), EntriesOf(payloads, ruleSet))
  }

  predicate SetMatches(ruleSet: RuleSet, payloads: Payloads, x: Connection) {
    FileMatches(EntriesOf(payloads, ruleSet), x)
  }

  lemma JoinedFileMatches(a: seq<Headless>, b: seq<Headless>, x: Connection)
    ensures FileMatches(a + b, x) <==> FileMatches(a, x) || FileMatches(b, x)
  {
  }

  lemma {:induction false} HigherEntriesMatch(ruleSet: RuleSet, higher: seq<RuleSet>, payloads: Payloads, x: Connection)
    ensures FileMatches(HigherEntries(ruleSet, higher, payloads), x) <==>
            exists j ::
              0 <= j < |higher| && higher[j].outbound != ruleSet.outbound && SetMatches(higher[j], payloads, x)
  {
    if higher != [] {
      var n := |higher| - 1;
      HigherEntriesMatch(ruleSet, higher[..n], payloads, x);
      JoinedFileMatches(HigherEntries(ruleSet, higher[..n], payloads),
                        if higher[n].outbound == ruleSet.outbound then [] else EntriesOf(payloads, higher[n]), x);
      assert forall j | 0 <= j < n :: higher[..n][j] == higher[j];
    }
  }

  lemma ExternalFileMatches(
    ruleSet: RuleSet, higher: seq<RuleSet>, manual: seq<RoutingRule>, payloads: Payloads, x: Connection)
    ensures FileMatches(ExternalFile(ruleSet, higher, manual, payloads), x) <==>
            && SetMatches(ruleSet, payloads, x)
            && (forall c | c in manual && Carves(c, ruleSet) :: !RuleMatches(c, x))
            && (forall s | s in higher && s.outbound != ruleSet.outbound :: !SetMatches(s, payloads, x))
  {
    var carved := Map(r => HeadlessRule(r), Filter(c => Carves(c, ruleSet), manual));
    var others := HigherEntries(ruleSet, higher, payloads);
    var entries := EntriesOf(payloads, ruleSet);
    var file := ExternalFile(ruleSet, higher, manual, payloads);
    FilteredFileMatches(c => Carves(c, ruleSet), manual, x);
    HigherEntriesMatch(ruleSet, higher, payloads, x);
    JoinedFileMatches(carved, others, x);
    forall i | 0 <= i < |entries|
      ensures Matches(file[i], x) <==> Matches(entries[i], x) && !FileMatches(carved + others, x)
    {
      CarveMatches(entries[i], carved + others, x);
    }
    if r :| r in file && Matches(r, x) {
      var i :| 0 <= i < |file| && file[i] == r;
      assert entries[i] in entries;
    }
    if r :| r in entries && Matches(r, x) {
      var i :| 0 <= i < |entries| && entries[i] == r;
      assert file[i] in file;
    }
  }

  // ---- references ----

  predicate Hits(reference: Reference, files: Files, x: Connection) {
    reference.tag in files && FileMatches(files[reference.tag], x)
  }

  // The first matching route rule wins.
  function FirstReference(references: seq<Reference>, files: Files, x: Connection): Option<string> {
    if references == [] then None
    else if Hits(references[0], files, x) then Some(references[0].outbound)
    else FirstReference(references[1..], files, x)
  }

  function ScopeReferences(scope: Scope, outbounds: seq<string>): seq<Reference> {
    Map(o => Reference(Bound(scope, o), o), outbounds)
  }

  function UserReferences(outbounds: seq<string>): seq<Reference> {
    ScopeReferences(ProcessScope, outbounds) + ScopeReferences(DomainScope, outbounds) +
    ScopeReferences(IPScope, outbounds)
  }

  function ExternalReference(ruleSet: RuleSet): Reference {
    Reference(External(ruleSet.id), ruleSet.outbound)
  }

  lemma {:induction false} FirstReferenceOfJoin(a: seq<Reference>, b: seq<Reference>, files: Files, x: Connection)
    ensures FirstReference(a + b, files, x) ==
            if FirstReference(a, files, x).Some? then FirstReference(a, files, x) else FirstReference(b, files, x)
  {
    if a == [] {
      assert a + b == b;
    } else {
      FirstReferenceOfJoin(a[1..], b, files, x);
      assert (a + b)[1..] == a[1..] + b;
    }
  }

  // Among references whose hits all name one outbound, the first hit names it.
  lemma {:induction false} AgreeingReferences(references: seq<Reference>, files: Files, x: Connection, outbound: string)
    requires forall r | r in references && Hits(r, files, x) :: r.outbound == outbound
    ensures FirstReference(references, files, x) ==
            if exists r :: r in references && Hits(r, files, x) then Some(outbound) else None
  {
    if references != [] {
      assert references[0] in references;
      assert forall r | r in references[1..] :: r in references;
      AgreeingReferences(references[1..], files, x, outbound);
      assert forall r | r in references :: r == references[0] || r in references[1..];
    }
  }

  // ---- what a published plan guarantees ----

  ghost predicate DistinctIds(sets: seq<RuleSet>) {
    forall i, j | 0 <= i < j < |sets| :: sets[i].id != sets[j].id
  }

  ghost predicate Published(
    files: Files, rules: seq<RoutingRule>, sets: seq<RuleSet>, payloads: Payloads, outbounds: seq<string>)
  {
    && ManualPublished(files, StableSort(CandidateLess, rules), outbounds)
    && SetsPublished(files, StableSort(SetLess, sets), StableSort(CandidateLess, rules), payloads)
  }

  ghost predicate ManualPublished(files: Files, candidates: seq<RoutingRule>, outbounds: seq<string>) {
    forall scope: Scope, o | o in outbounds && (scope == EarlyIPScope ==> IsAdapter(o)) ::
      Bound(scope, o) in files && files[Bound(scope, o)] == SourceRules(candidates, scope, o, |candidates|)
  }

  ghost predicate SetsPublished(
    files: Files, external: seq<RuleSet>, candidates: seq<RoutingRule>, payloads: Payloads)
  {
    forall i | 0 <= i < |external| ::
      External(external[i].id) in files
      && files[External(external[i].id)] == ExternalFile(external[i], external[..i], candidates, payloads)
  }

  predicate IsAdapter(outbound: string) {
    |outbound| >= 4 && outbound[..4] == "nic_"
  }

  // ---- the reference semantics: the first match of the ranked list ----

  predicate IntentMatches(intent: Intent, payloads: Payloads, x: Connection) {
    match intent
    case Manual(rule) => !rule.disabled && RuleMatches(rule, x)
    case Subscribed(ruleSet) => SetMatches(ruleSet, payloads, x)
  }

  function OutboundOf(intent: Intent): string {
    match intent
    case Manual(rule) => rule.outbound
    case Subscribed(ruleSet) => ruleSet.outbound
  }

  function FirstMatch(intents: seq<Intent>, payloads: Payloads, x: Connection): Option<Intent> {
    if intents == [] then None
    else if IntentMatches(intents[0], payloads, x) then Some(intents[0])
    else FirstMatch(intents[1..], payloads, x)
  }

  function Winner(rules: seq<RoutingRule>, sets: seq<RuleSet>, payloads: Payloads, x: Connection): Option<Intent> {
    FirstMatch(Ranked(rules, sets), payloads, x)
  }

  function WinnerOutbound(
    rules: seq<RoutingRule>, sets: seq<RuleSet>, payloads: Payloads, x: Connection): Option<string>
  {
    var w := Winner(rules, sets, payloads, x);
    if w.Some? then Some(OutboundOf(w.value)) else None
  }

  lemma {:induction false} FirstMatchIndex(intents: seq<Intent>, payloads: Payloads, x: Connection) returns (k: nat)
    ensures FirstMatch(intents, payloads, x).Some? ==>
              && k < |intents| && FirstMatch(intents, payloads, x) == Some(intents[k])
              && IntentMatches(intents[k], payloads, x)
    ensures FirstMatch(intents, payloads, x).None? ==> k == |intents|
    ensures forall j | 0 <= j < k :: !IntentMatches(intents[j], payloads, x)
  {
    k := 0;
    if intents != [] && !IntentMatches(intents[0], payloads, x) {
      k := FirstMatchIndex(intents[1..], payloads, x);
      k := k + 1;
    }
  }

  function AllIntents(rules: seq<RoutingRule>, sets: seq<RuleSet>): seq<Intent> {
    Map(r => Manual(r), rules) + Map(s => Subscribed(s), sets)
  }

  lemma AllIntentsMembers(rules: seq<RoutingRule>, sets: seq<RuleSet>)
    ensures forall r :: Manual(r) in AllIntents(rules, sets) <==> r in rules
    ensures forall s :: Subscribed(s) in AllIntents(rules, sets) <==> s in sets
  {
  }

  // No matching intent of an ordered list ranks ahead of its first match.
  lemma FirstMatchIsUnbeaten(ranked: seq<Intent>, payloads: Payloads, x: Connection)
    requires StrictWeakOrder(RanksAhead) && Ordered(RanksAhead, ranked)
    ensures var w := FirstMatch(ranked, payloads, x);
            && (w.Some? ==> w.value in ranked && IntentMatches(w.value, payloads, x))
            && (forall t | t in ranked && IntentMatches(t, payloads, x) :: w.Some? && !RanksAhead(t, w.value))
  {
  }

  // No matching intent ranks ahead of the winner; without a winner none matches.
  lemma WinnerIsUnbeaten(rules: seq<RoutingRule>, sets: seq<RuleSet>, payloads: Payloads, x: Connection)
    ensures var w := Winner(rules, sets, payloads, x);
            && (w.Some? ==> IntentMatches(w.value, payloads, x))
            && (w.Some? && w.value.Manual? ==> w.value.rule in rules)
            && (w.Some? && w.value.Subscribed? ==> w.value.ruleSet in sets)
            && (forall r | r in rules && !r.disabled && RuleMatches(r, x) :: w.Some? && !RanksAhead(Manual(r), w.value))
            && (forall s | s in sets && SetMatches(s, payloads, x) :: w.Some? && !RanksAhead(Subscribed(s), w.value))
  {
    var ranked := Ranked(rules, sets);
    RanksAheadIsStrictWeak();
    SortOrders(RanksAhead, AllIntents(rules, sets));
    FirstMatchIsUnbeaten(ranked, payloads, x);
    SortPermutes(RanksAhead, AllIntents(rules, sets));
    AllIntentsMembers(rules, sets);
    forall r | r in rules && !r.disabled && RuleMatches(r, x)
      ensures Manual(r) in ranked && IntentMatches(Manual(r), payloads, x)
    {
      assert Manual(r) in AllIntents(rules, sets);
    }
    forall s | s in sets && SetMatches(s, payloads, x)
      ensures Subscribed(s) in ranked && IntentMatches(Subscribed(s), payloads, x)
    {
      assert Subscribed(s) in AllIntents(rules, sets);
    }
  }

  // The manual part of the ranked list is the sorted candidate list, and its
  // subscribed part is the sorted list of sets.
  lemma RankedParts(rules: seq<RoutingRule>, sets: seq<RuleSet>)
    ensures Filter((i: Intent) => i.Manual?, Ranked(rules, sets)) ==
            Map(r => Manual(r), StableSort(CandidateLess, rules))
    ensures Filter((i: Intent) => i.Subscribed?, Ranked(rules, sets)) ==
            Map(s => Subscribed(s), StableSort(SetLess, sets))
  {
    var ms, ss := Map(r => Manual(r), rules), Map(s => Subscribed(s), sets);
    var manual, subscribed := (i: Intent) => i.Manual?, (i: Intent) => i.Subscribed?;
    RanksAheadIsStrictWeak();
    ComparisonsAgreeWithRank();
    FilterOfSort(RanksAhead, manual, ms + ss);
    FilterOfSort(RanksAhead, subscribed, ms + ss);
    FilterOfJoin(manual, ms, ss);
    FilterOfJoin(subscribed, ms, ss);
    FilterOfAll(manual, ms);
    FilterOfNone(manual, ss);
    FilterOfNone(subscribed, ms);
    FilterOfAll(subscribed, ss);
    MapOfSort(CandidateLess, RanksAhead, r => Manual(r), rules);
    MapOfSort(SetLess, RanksAhead, s => Subscribed(s), sets);
    assert ms + [] == ms && [] + ss == ss;
  }

  // A winning rule is the first enabled match of the sorted candidates.
  lemma WinningCandidate(rules: seq<RoutingRule>, sets: seq<RuleSet>, payloads: Payloads, x: Connection)
    returns (i: nat)
    requires Winner(rules, sets, payloads, x).Some? && Winner(rules, sets, payloads, x).value.Manual?
    ensures var c := StableSort(CandidateLess, rules);
            && i < |c| && c[i] == Winner(rules, sets, payloads, x).value.rule
            && forall j | 0 <= j < i :: c[j].disabled || !RuleMatches(c[j], x)
  {
    var ranked := Ranked(rules, sets);
    var k := FirstMatchIndex(ranked, payloads, x);
    RankedParts(rules, sets);
    i := FirstInFilter((t: Intent) => IntentMatches(t, payloads, x), (t: Intent) => t.Manual?, ranked, k);
    var c := StableSort(CandidateLess, rules);
    forall j | 0 <= j < i
      ensures c[j].disabled || !RuleMatches(c[j], x)
    {
      assert !IntentMatches(Map(r => Manual(r), c)[j], payloads, x);
    }
  }

  // A winning list is the first match of the sorted lists.
  lemma WinningSet(rules: seq<RoutingRule>, sets: seq<RuleSet>, payloads: Payloads, x: Connection) returns (i: nat)
    requires Winner(rules, sets, payloads, x).Some? && Winner(rules, sets, payloads, x).value.Subscribed?
    ensures var e := StableSort(SetLess, sets);
            && i < |e| && e[i] == Winner(rules, sets, payloads, x).value.ruleSet
            && forall j | 0 <= j < i :: !SetMatches(e[j], payloads, x)
  {
    var ranked := Ranked(rules, sets);
    var k := FirstMatchIndex(ranked, payloads, x);
    RankedParts(rules, sets);
    i := FirstInFilter((t: Intent) => IntentMatches(t, payloads, x), (t: Intent) => t.Subscribed?, ranked, k);
    var e := StableSort(SetLess, sets);
    forall j | 0 <= j < i
      ensures !SetMatches(e[j], payloads, x)
    {
      assert !IntentMatches(Map(s => Subscribed(s), e)[j], payloads, x);
    }
  }
}
