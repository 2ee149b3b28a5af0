/**
 connection_process_clash.go: pairing the core's connections with the router's
 by a stable sort and one greedy pass.

 Hosts and networks are trimmed and in lower case, endpoints are split, and a
 router connection carries the process and domain its metadata yields.
 */
module ConnectionMatching {
  import opened Sorting
  import opened Text

  const INT64_MIN := -0x8000_0000_0000_0000
  const INT64_MAX := 0x7FFF_FFFF_FFFF_FFFF
  const UINT64 := 0x1_0000_0000_0000_0000

  type Int64 = n: int | -0x8000_0000_0000_0000 <= n <= 0x7FFF_FFFF_FFFF_FFFF

  const SECOND := 1_000_000_000

  // Instants are nanoseconds; a connection without a start time has year 1.
  datatype Core = Core(id: nat, host: string, port: string, protocol: string, startedAt: int, up: Int64, down: Int64)

  datatype Clash = Clash(
    network: string, host: string, destinationIP: string, port: string,
    process: string, domain: string, start: int, up: Int64, down: Int64)

  datatype Details = Details(process: string, domain: string)

  datatype Match = Match(core: nat, clash: nat, score: nat, distance: int, byteDelta: nat)

  // ---- 64-bit arithmetic ----

  function Wrap64(n: int): Int64 {
    if n % UINT64 <= INT64_MAX then n % UINT64 else n % UINT64 - UINT64
  }

  function AbsoluteInt64Delta(left: Int64, right: Int64): (delta: nat)
    ensures delta == if left >= right then left - right else right - left
  {
    if left >= right then Wrap64(left - right) % UINT64 else Wrap64(right - left) % UINT64
  }

  function ByteDelta(core: Core, clash: Clash): nat {
    (AbsoluteInt64Delta(core.up, clash.up) + AbsoluteInt64Delta(core.down, clash.down)) % UINT64
  }

  // time.Sub saturates; negating the least duration leaves it as it is.
  function Sub(a: int, b: int): Int64 {
    if a - b > INT64_MAX then INT64_MAX else if a - b < INT64_MIN then INT64_MIN else a - b
  }

  function Distance(a: int, b: int): Int64 {
    var d: int := Sub(a, b);
    if d < 0 then Wrap64(-d) else d
  }

  // A limit on the distance is a limit on how far apart the starts are, except
  // when the core connection started at least 2^63 nanoseconds before the other
  // (it has no start time, say): the distance is then the least duration there
  // is, and passes every limit.
  lemma LimitHoldsExactly(a: int, b: int, limit: int)
    requires 0 <= limit < INT64_MAX
    ensures (Distance(a, b) <= limit <==> -limit <= a - b <= limit) <==> a - b > INT64_MIN
    ensures a - b <= INT64_MIN ==> Distance(a, b) == INT64_MIN
  {
  }

  // ---- which pairs are candidates ----

  predicate ContainsText(s: string, part: string) {
    (|part| <= |s| && s[..|part|] == part) || (s != "" && ContainsText(s[1..], part))
  }

  predicate NetworkMatches(protocol: string, network: string) {
    network == "" || (ContainsText(Lower(protocol), "udp") <==> network == "udp")
  }

  function TargetScore(host: string, clash: Clash): nat {
    if host == "" then 0 else if host == clash.host then 3 else if host == clash.destinationIP then 2 else 0
  }

  // Without a matching host, time and port alone have to be much closer.
  predicate Eligible(core: Core, clash: Clash) {
    && (clash.process != "" || clash.domain != "")
    && NetworkMatches(core.protocol, clash.network)
    && core.port != "" && core.port == clash.port
    && Distance(core.startedAt, clash.start) <= (if TargetScore(core.host, clash) == 0 then 2 else 8) * SECOND
  }

  function MatchOf(cores: seq<Core>, clashes: seq<Clash>, i: nat, j: nat): Match
    requires i < |cores| && j < |clashes|
  {
    var score := TargetScore(cores[i].host, clashes[j]);
    Match(i, j, if score == 0 then 1 else score,
          Distance(cores[i].startedAt, clashes[j].start), ByteDelta(cores[i], clashes[j]))
  }

  ghost predicate IsCandidate(cores: seq<Core>, clashes: seq<Clash>, m: Match) {
    && m.core < |cores| && m.clash < |clashes|
    && Eligible(cores[m.core], clashes[m.clash]) && m == MatchOf(cores, clashes, m.core, m.clash)
  }

  // ---- the greedy pass ----

  predicate Better(a: Match, b: Match) {
    if a.score != b.score then a.score > b.score
    else if a.distance != b.distance then a.distance < b.distance
    else a.byteDelta < b.byteDelta
  }

  // ---- what makes a pair plausible, and one pair better, on the fields ----

  predicate OccursAt(s: string, part: string, i: nat) {
    i + |part| <= |s| && s[i..i + |part|] == part
  }

  lemma {:induction false} ContainsTextExactly(s: string, part: string)
    ensures ContainsText(s, part) <==> exists i: nat :: OccursAt(s, part, i)
  {
    if s != "" {
      ContainsTextExactly(s[1..], part);
      if i: nat :| OccursAt(s[1..], part, i) {
        assert s[1..][i..i + |part|] == s[i + 1..i + 1 + |part|];
        assert OccursAt(s, part, i + 1);
      }
      if i: nat :| OccursAt(s, part, i) && i > 0 {
        assert s[1..][i - 1..i - 1 + |part|] == s[i..i + |part|];
        assert OccursAt(s[1..], part, i - 1);
      }
    }
    if |part| <= |s| && s[..|part|] == part {
      assert OccursAt(s, part, 0);
    }
    assert OccursAt(s, part, 0) ==> s[..|part|] == part;
  }

  ghost predicate MentionsUDP(protocol: string) {
    exists i: nat :: OccursAt(Lower(protocol), "udp", i)
  }

  // The starts differ by a duration, at most so many nanoseconds.
  predicate StartsWithin(core: Core, clash: Clash, limit: nat) {
    core.startedAt - clash.start <= limit && clash.start - core.startedAt <= limit
  }

  predicate SameHost(core: Core, clash: Clash) {
    core.host != "" && clash.host == core.host
  }

  predicate SameIP(core: Core, clash: Clash) {
    core.host != "" && clash.destinationIP == core.host
  }

  // No further apart than a duration can say.
  predicate Measurable(core: Core, clash: Clash) {
    StartsWithin(core, clash, 0x7FFF_FFFF_FFFF_FFFF)
  }

  lemma DistanceWithin(core: Core, clash: Clash, limit: nat)
    requires Measurable(core, clash)
    ensures Distance(core.startedAt, clash.start) <= limit <==> StartsWithin(core, clash, limit)
  {
  }

  // udp with udp, anything else with anything else, and all with the unknown.
  ghost predicate SameNetwork(protocol: string, network: string) {
    || network == ""
    || (network == "udp" && MentionsUDP(protocol))
    || (network != "udp" && !MentionsUDP(protocol))
  }

  lemma NetworkMatchesExactly(protocol: string, network: string)
    ensures NetworkMatches(protocol, network) <==> SameNetwork(protocol, network)
  {
    ContainsTextExactly(Lower(protocol), "udp");
  }

  lemma TargetIsKnown(core: Core, clash: Clash)
    ensures TargetScore(core.host, clash) != 0 <==> SameHost(core, clash) || SameIP(core, clash)
  {
  }

  // A pair is a candidate iff the router connection has something to report, the
  // network agrees where it is known, the ports are one, and the starts are eight
  // seconds apart at most, or two where the target says nothing.
  lemma EligibleExactly(core: Core, clash: Clash)
    requires Measurable(core, clash)
    ensures Eligible(core, clash) <==>
            && !(clash.process == "" && clash.domain == "")
            && SameNetwork(core.protocol, clash.network)
            && |core.port| > 0 && clash.port == core.port
            && StartsWithin(core, clash, if SameHost(core, clash) || SameIP(core, clash) then 8_000_000_000
                                         else 2_000_000_000)
  {
    NetworkMatchesExactly(core.protocol, clash.network);
    TargetIsKnown(core, clash);
    DistanceWithin(core, clash, 8_000_000_000);
    DistanceWithin(core, clash, 2_000_000_000);
  }

  // The bytes by which the counters differ, in both directions together.
  function BytesApart(core: Core, clash: Clash): nat {
    (if core.up < clash.up then clash.up - core.up else core.up - clash.up)
    + (if core.down < clash.down then clash.down - core.down else core.down - clash.down)
  }

  function NanosecondsApart(core: Core, clash: Clash): nat {
    if core.startedAt < clash.start then clash.start - core.startedAt else core.startedAt - clash.start
  }

  // The same host beats the same address, and that beats neither; then the nearer
  // start wins, then the nearer counters.
  predicate CloserMatch(a: Core, b: Clash, c: Core, d: Clash) {
    if SameHost(a, b) != SameHost(c, d) then SameHost(a, b)
    else if !SameHost(a, b) && SameIP(a, b) != SameIP(c, d) then SameIP(a, b)
    else if NanosecondsApart(a, b) != NanosecondsApart(c, d) then NanosecondsApart(a, b) < NanosecondsApart(c, d)
    else BytesApart(a, b) < BytesApart(c, d)
  }

  lemma BetterExactly(cores: seq<Core>, clashes: seq<Clash>, i: nat, j: nat, k: nat, l: nat)
    requires i < |cores| && j < |clashes| && k < |cores| && l < |clashes|
    requires Measurable(cores[i], clashes[j]) && Measurable(cores[k], clashes[l])
    requires BytesApart(cores[i], clashes[j]) < UINT64 && BytesApart(cores[k], clashes[l]) < UINT64
    ensures Better(MatchOf(cores, clashes, i, j), MatchOf(cores, clashes, k, l)) <==>
            CloserMatch(cores[i], clashes[j], cores[k], clashes[l])
  {
    MatchFields(cores, clashes, i, j);
    MatchFields(cores, clashes, k, l);
  }

  lemma MatchFields(cores: seq<Core>, clashes: seq<Clash>, i: nat, j: nat)
    requires i < |cores| && j < |clashes|
    requires Measurable(cores[i], clashes[j]) && BytesApart(cores[i], clashes[j]) < UINT64
    ensures var m := MatchOf(cores, clashes, i, j);
            && m.core == i && m.clash == j
            && m.distance == NanosecondsApart(cores[i], clashes[j]) && m.byteDelta == BytesApart(cores[i], clashes[j])
            && (m.score == 3 <==> SameHost(cores[i], clashes[j]))
            && (m.score == 2 <==> !SameHost(cores[i], clashes[j]) && SameIP(cores[i], clashes[j]))
            && 1 <= m.score <= 3
  {
  }

  // The order the candidates are found in: by core, then by router connection.
  predicate Earlier(a: Match, b: Match) {
    a.core < b.core || (a.core == b.core && a.clash < b.clash)
  }

  // Better, or found earlier: what the stable sort puts first.
  predicate Ahead(a: Match, b: Match) {
    Better(a, b) || (!Better(b, a) && Earlier(a, b))
  }

  predicate SharesEndpoint(a: Match, b: Match) {
    a.core == b.core || a.clash == b.clash
  }

  ghost predicate Injective(chosen: seq<Match>) {
    forall i, j | 0 <= i < j < |chosen| :: !SharesEndpoint(chosen[i], chosen[j])
  }

  // It is chosen, or somebody ahead of it has one of its ends.
  ghost predicate Blocked(m: Match, chosen: seq<Match>) {
    exists i :: 0 <= i < |chosen| && SharesEndpoint(m, chosen[i]) && (m == chosen[i] || Ahead(chosen[i], m))
  }

  ghost predicate AllBlocked(candidates: seq<Match>, chosen: seq<Match>) {
    forall i | 0 <= i < |candidates| :: Blocked(candidates[i], chosen)
  }

  lemma BlockedStays(m: Match, chosen: seq<Match>, next: Match)
    requires Blocked(m, chosen)
    ensures Blocked(m, chosen + [next])
  {
    var i :| 0 <= i < |chosen| && SharesEndpoint(m, chosen[i]) && (m == chosen[i] || Ahead(chosen[i], m));
    assert (chosen + [next])[i] == chosen[i];
  }

  // The first k of an ordered list after the pass: what is chosen is ahead of
  // everything still to come.
  ghost predicate ChosenFrom(matches: seq<Match>, k: nat, chosen: seq<Match>)
    requires k <= |matches|
  {
    && Injective(chosen)
    && (forall i, j | 0 <= i < |chosen| && k <= j < |matches| :: Ahead(chosen[i], matches[j]))
    && AllBlocked(matches[..k], chosen)
  }

  lemma TakenIsBlocked(matches: seq<Match>, k: nat, chosen: seq<Match>, i: nat)
    requires k < |matches| && ChosenFrom(matches, k, chosen)
    requires i < |chosen| && SharesEndpoint(matches[k], chosen[i])
    ensures ChosenFrom(matches, k + 1, chosen)
  {
  }

  lemma FreeIsChosen(matches: seq<Match>, k: nat, chosen: seq<Match>)
    requires k < |matches| && ChosenFrom(matches, k, chosen)
    requires forall i | 0 <= i < |chosen| :: !SharesEndpoint(chosen[i], matches[k])
    requires forall j | k < j < |matches| :: Ahead(matches[k], matches[j])
    ensures ChosenFrom(matches, k + 1, chosen + [matches[k]])
  {
    var next := chosen + [matches[k]];
    assert matches[..k + 1] == matches[..k] + [matches[k]];
    assert next[|chosen|] == matches[k];
    assert Blocked(matches[k], next);
    forall i | 0 <= i < |matches[..k]|
      ensures Blocked(matches[..k][i], next)
    {
      BlockedStays(matches[..k][i], chosen, matches[k]);
    }
  }

  ghost predicate TakesCore(chosen: seq<Match>, c: nat) {
    exists i :: 0 <= i < |chosen| && chosen[i].core == c
  }

  ghost predicate TakesClash(chosen: seq<Match>, c: nat) {
    exists i :: 0 <= i < |chosen| && chosen[i].clash == c
  }

  ghost predicate Marked(usedCore: seq<bool>, usedClash: seq<bool>, chosen: seq<Match>) {
    && (forall c | 0 <= c < |usedCore| :: usedCore[c] <==> TakesCore(chosen, c))
    && (forall c | 0 <= c < |usedClash| :: usedClash[c] <==> TakesClash(chosen, c))
  }

  lemma MarkNext(usedCore: seq<bool>, usedClash: seq<bool>, chosen: seq<Match>, m: Match)
    requires Marked(usedCore, usedClash, chosen) && m.core < |usedCore| && m.clash < |usedClash|
    ensures Marked(usedCore[m.core := true], usedClash[m.clash := true], chosen + [m])
  {
    var next := chosen + [m];
    assert next[|chosen|] == m;
    forall c: nat
      ensures TakesCore(next, c) <==> TakesCore(chosen, c) || c == m.core
      ensures TakesClash(next, c) <==> TakesClash(chosen, c) || c == m.clash
    {
      assert forall i | 0 <= i < |chosen| :: next[i] == chosen[i];
    }
  }

  // ---- the result, keyed by the core's connection id ----

  function DetailsOf(clash: Clash): Details {
    Details(clash.process, clash.domain)
  }

  ghost predicate AllCandidates(cores: seq<Core>, clashes: seq<Clash>, chosen: seq<Match>) {
    forall i | 0 <= i < |chosen| :: IsCandidate(cores, clashes, chosen[i])
  }

  // Every id of a chosen connection is there, with the details of a router
  // connection chosen for a connection of that id.
  ghost predicate Reports(cores: seq<Core>, clashes: seq<Clash>, chosen: seq<Match>, result: map<nat, Details>) {
    && AllCandidates(cores, clashes, chosen)
    && (forall i | 0 <= i < |chosen| :: cores[chosen[i].core].id in result)
    && forall id | id in result ::
         exists i ::
           0 <= i < |chosen| && cores[chosen[i].core].id == id && result[id] == DetailsOf(clashes[chosen[i].clash])
  }

  lemma ReportNext(cores: seq<Core>, clashes: seq<Clash>, chosen: seq<Match>, result: map<nat, Details>, m: Match)
    requires Reports(cores, clashes, chosen, result) && IsCandidate(cores, clashes, m)
    ensures Reports(cores, clashes, chosen + [m], result[cores[m.core].id := DetailsOf(clashes[m.clash])])
  {
    var next := chosen + [m];
    var extended := result[cores[m.core].id := DetailsOf(clashes[m.clash])];
    assert next[|chosen|] == m;
    forall id | id in extended
      ensures exists i ::
                0 <= i < |next| && cores[next[i].core].id == id && extended[id] == DetailsOf(clashes[next[i].clash])
    {
      if id == cores[m.core].id {
        assert extended[id] == DetailsOf(clashes[next[|chosen|].clash]);
      } else {
        var i :| 0 <= i < |chosen| && cores[chosen[i].core].id == id &&
                 result[id] == DetailsOf(clashes[chosen[i].clash]);
        assert next[i] == chosen[i];
      }
    }
  }

  // With distinct ids each chosen connection gets its own partner's details.
  lemma ReportsArePartners(cores: seq<Core>, clashes: seq<Clash>, chosen: seq<Match>, result: map<nat, Details>, k: nat)
    requires Reports(cores, clashes, chosen, result) && Injective(chosen) && k < |chosen|
    requires forall i, j | 0 <= i < j < |cores| :: cores[i].id != cores[j].id
    ensures result[cores[chosen[k].core].id] == DetailsOf(clashes[chosen[k].clash])
  {
  }

  lemma BetterIsAnOrder()
    ensures StrictWeakOrder(Better)
  {
  }

  // ---- the method ----

  // Every candidate once, in the order Earlier gives.
  ghost predicate InOrder(matches: seq<Match>) {
    forall i, j | 0 <= i < j < |matches| :: Earlier(matches[i], matches[j])
  }

  method BuildMatches(cores: seq<Core>, clashes: seq<Clash>) returns (matches: seq<Match>)
    ensures forall m :: m in matches <==> IsCandidate(cores, clashes, m)
    ensures InOrder(matches)
  {
    matches := [];
    for i := 0 to |cores|
      invariant forall m :: m in matches <==> m.core < i && IsCandidate(cores, clashes, m)
      invariant InOrder(matches)
    {
      for j := 0 to |clashes|
        invariant forall m :: m in matches <==> Earlier(m, Match(i, j, 0, 0, 0)) && IsCandidate(cores, clashes, m)
        invariant InOrder(matches)
      {
        if Eligible(cores[i], clashes[j]) {
          matches := Append(cores, clashes, i, j, matches);
        }
      }
    }
  }

  method Append(cores: seq<Core>, clashes: seq<Clash>, i: nat, j: nat, before: seq<Match>) returns (matches: seq<Match>)
    requires i < |cores| && j < |clashes| && Eligible(cores[i], clashes[j])
    requires forall m :: m in before <==> Earlier(m, Match(i, j, 0, 0, 0)) && IsCandidate(cores, clashes, m)
    requires InOrder(before)
    ensures forall m :: m in matches <==> Earlier(m, Match(i, j + 1, 0, 0, 0)) && IsCandidate(cores, clashes, m)
    ensures InOrder(matches)
  {
    var found := MatchOf(cores, clashes, i, j);
    matches := before + [found];
    assert forall k | 0 <= k < |before| :: before[k] in before;
    assert forall m :: m in matches <==> m in before || m == found;
  }

  // Sorted by a strict total order: each match is ahead of all later ones.
  ghost predicate InTurn(matches: seq<Match>) {
    forall i, j | 0 <= i < j < |matches| :: Ahead(matches[i], matches[j])
  }

  method SortedMatches(cores: seq<Core>, clashes: seq<Clash>) returns (matches: seq<Match>)
    ensures forall m :: m in matches <==> IsCandidate(cores, clashes, m)
    ensures InTurn(matches)
  {
    var built := BuildMatches(cores, clashes);
    matches := StableSort(Better, built);
    SortPermutes(Better, built);
    BetterIsAnOrder();
    SortOrders(Better, built);
    SortIsStable(Better, Earlier, built);
  }

  ghost predicate EligibleBlocked(cores: seq<Core>, clashes: seq<Clash>, chosen: seq<Match>) {
    forall i, j | 0 <= i < |cores| && 0 <= j < |clashes| && Eligible(cores[i], clashes[j]) ::
      Blocked(MatchOf(cores, clashes, i, j), chosen)
  }

  lemma AllBlockedIsEligibleBlocked(cores: seq<Core>, clashes: seq<Clash>, matches: seq<Match>, chosen: seq<Match>)
    requires forall m :: m in matches <==> IsCandidate(cores, clashes, m)
    requires AllBlocked(matches, chosen)
    ensures EligibleBlocked(cores, clashes, chosen)
  {
    forall i, j | 0 <= i < |cores| && 0 <= j < |clashes| && Eligible(cores[i], clashes[j])
      ensures Blocked(MatchOf(cores, clashes, i, j), chosen)
    {
      assert IsCandidate(cores, clashes, MatchOf(cores, clashes, i, j));
      var k :| 0 <= k < |matches| && matches[k] == MatchOf(cores, clashes, i, j);
    }
  }

  // One match of the pass.
  method Consider(cores: seq<Core>, clashes: seq<Clash>, ghost matches: seq<Match>, ghost k: nat, m: Match,
      usedCore: array<bool>, usedClash: array<bool>, chosen: seq<Match>) returns (take: bool)
    requires usedCore != usedClash && usedCore.Length == |cores| && usedClash.Length == |clashes|
    requires k < |matches| && m == matches[k] && IsCandidate(cores, clashes, m)
    requires forall j | k < j < |matches| :: Ahead(m, matches[j])
    requires ChosenFrom(matches, k, chosen) && Marked(usedCore[..], usedClash[..], chosen)
    modifies usedCore, usedClash
    ensures var next := if take then chosen + [m] else chosen;
            ChosenFrom(matches, k + 1, next) && Marked(usedCore[..], usedClash[..], next)
  {
    assert usedCore[..][m.core] == usedCore[m.core] && usedClash[..][m.clash] == usedClash[m.clash];
    take := !usedCore[m.core] && !usedClash[m.clash];
    if !take {
      ghost var i :| 0 <= i < |chosen| && SharesEndpoint(m, chosen[i]);
      TakenIsBlocked(matches, k, chosen, i);
      return;
    }
    FreeIsChosen(matches, k, chosen);
    MarkNext(usedCore[..], usedClash[..], chosen, m);
    usedCore[m.core] := true;
    usedClash[m.clash] := true;
    assert usedCore[..] == old(usedCore[..])[m.core := true] && usedClash[..] == old(usedClash[..])[m.clash := true];
  }

  // No two pairs share a connection, and every candidate pair left out shares
  // one with a chosen pair that is ahead of it, so at least as good.
  method MatchConnections(cores: seq<Core>, clashes: seq<Clash>) returns (result: map<nat, Details>, chosen: seq<Match>)
    ensures Injective(chosen) && Reports(cores, clashes, chosen, result)
    ensures EligibleBlocked(cores, clashes, chosen)
  {
    var matches := SortedMatches(cores, clashes);
    var usedCore := new bool[|cores|](_ => false);
    var usedClash := new bool[|clashes|](_ => false);
    result, chosen := map[], [];
    for k := 0 to |matches|
      invariant ChosenFrom(matches, k, chosen)
      invariant Marked(usedCore[..], usedClash[..], chosen)
      invariant Reports(cores, clashes, chosen, result)
    {
      var m := matches[k];
      assert m in matches;
      var take := Consider(cores, clashes, matches, k, m, usedCore, usedClash, chosen);
      if take {
        ReportNext(cores, clashes, chosen, result, m);
        chosen := chosen + [m];
        result := result[cores[m.core].id := DetailsOf(clashes[m.clash])];
      }
    }
    assert matches[..|matches|] == matches;
    AllBlockedIsEligibleBlocked(cores, clashes, matches, chosen);
  }

  // ---- there is only one such choice ----

  ghost predicate StableChoice(cores: seq<Core>, clashes: seq<Clash>, chosen: seq<Match>) {
    Injective(chosen) && AllCandidates(cores, clashes, chosen) && EligibleBlocked(cores, clashes, chosen)
  }

  lemma {:induction false} ChosenAlike(matches: seq<Match>, a: seq<Match>, b: seq<Match>, k: nat)
    requires InTurn(matches) && k < |matches|
    requires Injective(a) && Injective(b) && AllBlocked(matches, a) && AllBlocked(matches, b)
    requires (forall m | m in a :: m in matches) && (forall m | m in b :: m in matches)
    ensures matches[k] in a <==> matches[k] in b
    decreases k, 2
  {
    ChosenIn(matches, a, b, k);
    ChosenIn(matches, b, a, k);
  }

  lemma {:induction false} ChosenIn(matches: seq<Match>, a: seq<Match>, b: seq<Match>, k: nat)
    requires InTurn(matches) && k < |matches|
    requires Injective(a) && Injective(b) && AllBlocked(matches, a) && AllBlocked(matches, b)
    requires (forall m | m in a :: m in matches) && (forall m | m in b :: m in matches)
    ensures matches[k] in a ==> matches[k] in b
    decreases k, 1
  {
    var m := matches[k];
    if m in a {
      assert Blocked(m, b);
      var i :| 0 <= i < |b| && SharesEndpoint(m, b[i]) && (m == b[i] || Ahead(b[i], m));
      assert b[i] in matches;
      var j :| 0 <= j < |matches| && matches[j] == b[i];
      if j != k {
        ChosenAlike(matches, a, b, j);
      }
    }
  }

  // The pass finds the one choice in which nobody is passed over for a pair
  // behind it, ties included.
  lemma ChoiceIsUnique(cores: seq<Core>, clashes: seq<Clash>, matches: seq<Match>, a: seq<Match>, b: seq<Match>)
    requires InTurn(matches) && forall m :: m in matches <==> IsCandidate(cores, clashes, m)
    requires StableChoice(cores, clashes, a) && StableChoice(cores, clashes, b)
    ensures forall m :: m in a <==> m in b
  {
    EligibleBlockedIsAllBlocked(cores, clashes, matches, a);
    EligibleBlockedIsAllBlocked(cores, clashes, matches, b);
    forall m
      ensures m in a <==> m in b
    {
      if m in a || m in b {
        assert IsCandidate(cores, clashes, m);
        var k :| 0 <= k < |matches| && matches[k] == m;
        ChosenAlike(matches, a, b, k);
      }
    }
  }

  lemma EligibleBlockedIsAllBlocked(cores: seq<Core>, clashes: seq<Clash>, matches: seq<Match>, chosen: seq<Match>)
    requires forall m | m in matches :: IsCandidate(cores, clashes, m)
    requires StableChoice(cores, clashes, chosen)
    ensures AllBlocked(matches, chosen)
  {
    forall k | 0 <= k < |matches|
      ensures Blocked(matches[k], chosen)
    {
      assert matches[k] in matches;
    }
  }
}
