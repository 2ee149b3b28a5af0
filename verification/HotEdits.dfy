/**
 singbox_rules.go and rule_sets.go: which edits need no restart. A running
 configuration must not ask for a restart that would change nothing.
 */
module HotEdits {
  import opened Compatibility
  import opened Options
  import opened Routing
  import opened RuleSetCompiler
  import opened RuleSetDecision
  import opened RuleSetPlan
  import opened RuleSetReload
  import opened Sorting
  import opened Text

  // ---- the records of one configuration ----

  predicate OneRecordPerId(s: seq<Record>) {
    forall i, j | 0 <= i < |s| && 0 <= j < |s| && s[i].id == s[j].id :: s[i] == s[j]
  }

  lemma {:induction false} OrderedPermutation(s: seq<Record>, t: seq<Record>)
    requires multiset(s) == multiset(t) && Ordered(ById, s) && Ordered(ById, t) && OneRecordPerId(s)
    ensures s == t
  {
    assert |multiset(s)| == |s| && |multiset(t)| == |t|;
    if s != [] {
      FirstOfOrdered(s, t);
      RestOfPermutation(s, t);
      OrderedPermutation(s[1..], t[1..]);
      assert s == [s[0]] + s[1..] && t == [t[0]] + t[1..];
    }
  }

  lemma RestOfPermutation(s: seq<Record>, t: seq<Record>)
    requires s != [] && t != [] && s[0] == t[0] && multiset(s) == multiset(t)
    ensures multiset(s[1..]) == multiset(t[1..])
  {
    assert s == [s[0]] + s[1..] && t == [t[0]] + t[1..];
    assert multiset(s[1..]) == multiset(s) - multiset{s[0]};
    assert multiset(t[1..]) == multiset(t) - multiset{t[0]};
  }

  lemma FirstOfOrdered(s: seq<Record>, t: seq<Record>)
    requires s != [] && t != [] && multiset(s) == multiset(t) && Ordered(ById, s) && Ordered(ById, t)
    requires OneRecordPerId(s)
    ensures s[0] == t[0]
  {
    assert s[0] in multiset(t) && t[0] in multiset(s);
    var i :| 0 <= i < |t| && t[i] == s[0];
    var j :| 0 <= j < |s| && s[j] == t[0];
    StringLessIsTotal(s[0].id, t[0].id);
    assert i > 0 ==> !ById(t[i], t[0]);
    assert j > 0 ==> !ById(s[j], s[0]);
  }

  lemma ByIdIsStrictWeak()
    ensures StrictWeakOrder(ById)
  {
    forall a, b | ById(a, b)
      ensures !ById(b, a)
    {
      StringLessAsymmetric(a.id, b.id);
    }
    forall a, b, c | !ById(a, b) && !ById(b, c)
      ensures !ById(a, c)
    {
      StringLessNegativelyTransitive(a.id, b.id, c.id);
    }
  }

  lemma RowsCons(x: RuleSet, s: seq<RuleSet>)
    ensures Rows([x] + s) == [RecordOf(x)] + Rows(s)
  {
  }

  lemma {:induction false} RowsOfInserted(x: RuleSet, s: seq<RuleSet>)
    ensures multiset(Rows(Insert(SetLess, x, s))) == multiset(Rows(s)) + multiset{RecordOf(x)}
  {
    if s != [] && SetLess(s[0], x) {
      RowsOfInserted(x, s[1..]);
      assert s == [s[0]] + s[1..];
      RowsCons(s[0], s[1..]);
      RowsCons(s[0], Insert(SetLess, x, s[1..]));
    } else {
      RowsCons(x, s);
    }
  }

  lemma {:induction false} RowsOfSorted(s: seq<RuleSet>)
    ensures multiset(Rows(StableSort(SetLess, s))) == multiset(Rows(s))
  {
    if s != [] {
      RowsOfSorted(s[1..]);
      RowsOfInserted(s[0], StableSort(SetLess, s[1..]));
      assert s == [s[0]] + s[1..];
      RowsCons(s[0], s[1..]);
    }
  }

  lemma RecordsAreUnique(s: seq<RuleSet>)
    requires DistinctIds(s)
    ensures OneRecordPerId(Records(s))
  {
    var records := Records(s);
    RecordsMembers(s);
    forall i, j | 0 <= i < |records| && 0 <= j < |records| && records[i].id == records[j].id
      ensures records[i] == records[j]
    {
      assert records[i] in records && records[j] in records;
    }
  }

  // The records do not depend on the order the lists are ranked in.
  lemma RecordsOfRanked(s: seq<RuleSet>)
    requires DistinctIds(s)
    ensures Records(StableSort(SetLess, s)) == Records(s)
  {
    var left, right := Rows(StableSort(SetLess, s)), Rows(s);
    ByIdIsStrictWeak();
    SortOrders(ById, left);
    SortOrders(ById, right);
    SortPermutes(ById, left);
    SortPermutes(ById, right);
    RowsOfSorted(s);
    RecordsAreUnique(s);
    OrderedPermutation(Records(s), StableSort(ById, left));
  }

  // ---- a start needs no restart ----

  lemma {:induction false} CoveredRulesGiveNoReason(manifest: Manifest, rules: seq<RoutingRule>)
    requires forall r | r in rules && !r.disabled ::
               r.outbound in manifest.outbounds && (manifest.customPriority || r.priority <= 0)
    ensures RuleReason(manifest, rules).None?
  {
    if rules != [] {
      assert rules[0] in rules;
      assert forall r | r in rules[1..] :: r in rules;
      CoveredRulesGiveNoReason(manifest, rules[1..]);
    }
  }

  ghost predicate AllReadable(sources: Sources, sets: seq<RuleSet>) {
    forall s | s in sets && !s.disabled && s.id in sources :: sources[s.id].Decoded?
  }

  // The configuration a start was made with needs no restart exactly when every
  // enabled list that has a payload has a readable one; a start leaves one that
  // has not undeclared, so no number of restarts is enough for it.
  lemma StartNeedsNoRestartExactly(
    plan: Plan, files: Files, manifest: Manifest, policy: string,
    rules: seq<RoutingRule>, sets: seq<RuleSet>, sources: Sources)
    requires DistinctIds(sets) && FreshStart(plan, files, manifest, policy, rules, sets, sources)
    ensures RestartRequirement(Read(manifest), rules, sets, sources).None? <==> AllReadable(sources, sets)
    ensures !AllReadable(sources, sets) ==>
              RestartRequirement(Read(manifest), rules, sets, sources) == Some(ExternalRuleSetChanged)
  {
    FilterMembers(s => IsLive(sources, s), sets);
    if AllReadable(sources, sets) {
      FilterOfAll(s => IsReadable(sources, s), LiveSets(sources, sets));
      FilterKeepsDistinctIds(s => IsLive(sources, s), sets);
      RecordsOfRanked(LiveSets(sources, sets));
      CoveredRulesGiveNoReason(manifest, rules);
    } else {
      UnreadableListIsUndeclared(sources, sets);
    }
  }

  lemma UnreadableListIsUndeclared(sources: Sources, sets: seq<RuleSet>)
    requires !AllReadable(sources, sets)
    ensures var readable := ReadableSets(sources, LiveSets(sources, sets));
            !SameRecords(Records(StableSort(SetLess, readable)), Records(LiveSets(sources, sets)))
  {
    var live := LiveSets(sources, sets);
    var readable := ReadableSets(sources, live);
    FilterMembers(s => IsLive(sources, s), sets);
    SortPermutes(SetLess, readable);
    SortPermutes(ById, Rows(live));
    SortPermutes(ById, Rows(StableSort(SetLess, readable)));
    var s :| s in sets && IsLive(sources, s) && !IsReadable(sources, s);
    FilterDrops(s => IsReadable(sources, s), live, s);
  }

  // A start uses FakeIP iff the DNS policy is one of the program's own, an enabled
  // rule matches a domain, or an enabled list has a payload.
  lemma StartUsesFakeIPExactly(
    plan: Plan, files: Files, manifest: Manifest, policy: string,
    rules: seq<RoutingRule>, sets: seq<RuleSet>, sources: Sources)
    requires FreshStart(plan, files, manifest, policy, rules, sets, sources)
    ensures manifest.usesFakeIP <==>
            || policy !in {"off", "system"}
            || (exists r | r in rules :: r.matchType == MatchDomain && !r.disabled)
            || (exists s | s in sets :: !s.disabled && s.id in sources)
  {
    var live := LiveSets(sources, sets);
    FilterMembers(s => IsLive(sources, s), sets);
    assert |live| > 0 ==> live[0] in live;
    assert (exists s | s in live :: true) ==> |live| > 0;
  }

  lemma {:induction false} FilterDrops(p: RuleSet -> bool, s: seq<RuleSet>, dropped: RuleSet)
    requires dropped in s && !p(dropped)
    ensures |Filter(p, s)| < |s|
  {
    if s[0] == dropped {
      FilterShortens(p, s[1..]);
    } else {
      FilterDrops(p, s[1..], dropped);
    }
  }

  lemma {:induction false} FilterShortens(p: RuleSet -> bool, s: seq<RuleSet>)
    ensures |Filter(p, s)| <= |s|
  {
    if s != [] {
      FilterShortens(p, s[1..]);
    }
  }

  // ---- edits that change nothing about the need ----

  ghost predicate OnlyPrioritiesDiffer(sets: seq<RuleSet>, edited: seq<RuleSet>) {
    && |sets| == |edited|
    && forall i | 0 <= i < |sets| :: edited[i] == sets[i].(priority := edited[i].priority, name := edited[i].name)
  }

  lemma {:induction false} LiveSetsAlike(sources: Sources, sets: seq<RuleSet>, edited: seq<RuleSet>)
    requires OnlyPrioritiesDiffer(sets, edited)
    ensures OnlyPrioritiesDiffer(LiveSets(sources, sets), LiveSets(sources, edited))
  {
    if sets != [] {
      LiveSetsAlike(sources, sets[1..], edited[1..]);
      assert edited[0] == sets[0].(priority := edited[0].priority, name := edited[0].name);
    }
  }

  // Whatever records sort by, those of edited lists sort alike.
  lemma {:induction false} InsertAlike(x: Record, y: Record, s: seq<Record>, t: seq<Record>)
    requires x.id == y.id && x.outbound == y.outbound && SameRecords(s, t)
    ensures SameRecords(Insert(ById, x, s), Insert(ById, y, t))
  {
    if s != [] {
      assert s[0].id == t[0].id;
      assert SameRecords(s[1..], t[1..]);
      InsertAlike(x, y, s[1..], t[1..]);
    }
  }

  lemma {:induction false} SortAlike(s: seq<Record>, t: seq<Record>)
    requires SameRecords(s, t)
    ensures SameRecords(StableSort(ById, s), StableSort(ById, t))
  {
    if s != [] {
      assert SameRecords(s[1..], t[1..]);
      SortAlike(s[1..], t[1..]);
      InsertAlike(s[0], t[0], StableSort(ById, s[1..]), StableSort(ById, t[1..]));
    }
  }

  // New priorities or names of lists change no answer of the restart check.
  lemma ListPrioritiesAreHot(
    file: ManifestFile, rules: seq<RoutingRule>, sets: seq<RuleSet>, edited: seq<RuleSet>, sources: Sources)
    requires OnlyPrioritiesDiffer(sets, edited)
    ensures RestartRequirement(file, rules, edited, sources) == RestartRequirement(file, rules, sets, sources)
  {
    LiveSetsAlike(sources, sets, edited);
    var s, t := LiveSets(sources, sets), LiveSets(sources, edited);
    SortAlike(Rows(s), Rows(t));
  }

  lemma {:induction false} ReasonOfJoin(manifest: Manifest, a: seq<RoutingRule>, b: seq<RoutingRule>)
    ensures RuleReason(manifest, a + b) ==
            if RuleReason(manifest, a).Some? then RuleReason(manifest, a) else RuleReason(manifest, b)
  {
    if a == [] {
      assert a + b == b;
    } else {
      ReasonOfJoin(manifest, a[1..], b);
      assert (a + b)[1..] == a[1..] + b;
    }
  }

  // Neither does a disabled rule, wherever it is put in.
  lemma DisabledRulesAreHot(
    file: ManifestFile, before: seq<RoutingRule>, rule: RoutingRule, after: seq<RoutingRule>, sets: seq<RuleSet>,
    sources: Sources)
    requires rule.disabled
    ensures RestartRequirement(file, before + [rule] + after, sets, sources) ==
            RestartRequirement(file, before + after, sets, sources)
  {
    if file.Read? {
      RuleAddsNoReason(file.manifest, before, rule, after);
      assert forall r | r in before + [rule] + after :: r in before + after || r == rule;
      assert forall r | r in before + after :: r in before + [rule] + after;
    }
  }

  lemma RuleAddsNoReason(manifest: Manifest, before: seq<RoutingRule>, rule: RoutingRule, after: seq<RoutingRule>)
    requires RuleReason(manifest, [rule]).None?
    ensures RuleReason(manifest, before + [rule] + after) == RuleReason(manifest, before + after)
  {
    ReasonOfJoin(manifest, before, after);
    ReasonOfJoin(manifest, before + [rule], after);
    ReasonOfJoin(manifest, before, [rule]);
  }

  // Nor an enabled rule for a declared outbound, where the engine already sees
  // what the rule is about.
  lemma DeclaredRulesAreHot(
    manifest: Manifest, before: seq<RoutingRule>, rule: RoutingRule, after: seq<RoutingRule>, sets: seq<RuleSet>,
    sources: Sources)
    requires !rule.disabled && rule.outbound in manifest.outbounds && (manifest.customPriority || rule.priority <= 0)
    requires manifest.usesFakeIP || rule.matchType in {MatchProcess, MatchIP}
    ensures RestartRequirement(Read(manifest), before + [rule] + after, sets, sources) ==
            RestartRequirement(Read(manifest), before + after, sets, sources)
  {
    CoveredRulesGiveNoReason(manifest, [rule]);
    RuleAddsNoReason(manifest, before, rule, after);
    assert forall r | r in before + [rule] + after :: r in before + after || r == rule;
    assert forall r | r in before + after :: r in before + [rule] + after;
  }

  // ---- edits that need a restart, and the reason given ----

  lemma UndeclaredOutboundNeedsRestart(
    manifest: Manifest, before: seq<RoutingRule>, rule: RoutingRule, after: seq<RoutingRule>, sets: seq<RuleSet>,
    sources: Sources)
    requires RestartRequirement(Read(manifest), before + after, sets, sources).None?
    requires !rule.disabled && rule.outbound !in manifest.outbounds && (manifest.customPriority || rule.priority <= 0)
    ensures RestartRequirement(Read(manifest), before + [rule] + after, sets, sources) == Some(OutboundChanged)
  {
    ReasonOfJoin(manifest, before, after);
    ReasonOfJoin(manifest, before + [rule], after);
    ReasonOfJoin(manifest, before, [rule]);
  }

  // Enabling, disabling or rebinding a list with a payload.
  lemma ListMembershipNeedsRestart(
    manifest: Manifest, rules: seq<RoutingRule>, sets: seq<RuleSet>, i: nat, edited: RuleSet, sources: Sources)
    requires DistinctIds(sets) && i < |sets| && edited.id == sets[i].id && edited.id in sources
    requires edited.disabled != sets[i].disabled || (!edited.disabled && edited.outbound != sets[i].outbound)
    requires RestartRequirement(Read(manifest), rules, sets, sources).None?
    ensures RestartRequirement(Read(manifest), rules, sets[i := edited], sources) == Some(ExternalRuleSetChanged)
  {
    var changed := sets[i := edited];
    if SameRecords(manifest.externalSets, Records(LiveSets(sources, changed))) {
      SameOutbounds(manifest.externalSets, sources, sets, sets[i]);
      assert changed[i] == edited;
      SameOutbounds(manifest.externalSets, sources, changed, edited);
    }
  }

  // The records of the live lists tell, for each list, whether and to what it is bound.
  lemma SameOutbounds(records: seq<Record>, sources: Sources, sets: seq<RuleSet>, s: RuleSet)
    requires DistinctIds(sets) && SameRecords(records, Records(LiveSets(sources, sets))) && s in sets && s.id in sources
    ensures DeclaredOutbound(records, s.id) == if s.disabled then None else Some(s.outbound)
  {
    var live := LiveSets(sources, sets);
    FilterMembers(t => IsLive(sources, t), sets);
    FilterKeepsDistinctIds(t => IsLive(sources, t), sets);
    SameRecordsDeclare(records, live);
    if s.disabled && DeclaredOutbound(records, s.id).Some? {
      var t := DeclaredIsLive(records, live, s.id);
      SameIdSameSet(sets, s, t);
    }
  }

  lemma DeclaredIsLive(records: seq<Record>, live: seq<RuleSet>, id: string) returns (t: RuleSet)
    requires SameRecords(records, Records(live)) && DeclaredOutbound(records, id).Some?
    ensures t in live && t.id == id
  {
    DeclaredOutboundIsRecorded(records, id);
    var d :| d in records && d.id == id;
    var k :| 0 <= k < |records| && records[k] == d;
    RecordsMembers(live);
    assert Records(live)[k] in Records(live);
    t :| t in live && Records(live)[k] == RecordOf(t);
  }

  // ---- hot edits after a start ----

  // After a start with readable lists, new list priorities take effect without a
  // restart: the edit is accepted as hot and decides as a restart would.
  lemma NewPrioritiesTakeEffect(
    known: KnownProxies, plan: Plan, started: Files, manifest: Manifest, policy: string,
    rules: seq<RoutingRule>, sets: seq<RuleSet>, edited: seq<RuleSet>, sources: Sources)
    requires FreshStart(plan, started, manifest, policy, rules, sets, sources) && AllReadable(sources, sets)
    requires DistinctIds(sets) && OnlyPrioritiesDiffer(sets, edited) && NoNegativePriority(rules, edited)
    ensures RestartRequirement(Read(manifest), rules, edited, sources).None?
    ensures EditIsHot(known, plan, manifest.usesFakeIP, Read(manifest), started, rules, edited, sources)
  {
    StartNeedsNoRestartExactly(plan, started, manifest, policy, rules, sets, sources);
    ListPrioritiesAreHot(Read(manifest), rules, sets, edited, sources);
    var live := ReadableSets(sources, LiveSets(sources, sets));
    assert DistinctIds(edited) by {
      assert forall i | 0 <= i < |sets| :: edited[i].id == sets[i].id;
    }
    ReadableManifestIsHot(known, plan, manifest, live, started, rules, edited, sources);
  }

  // ---- which lists take effect ----

  // An enabled list whose payload is there, readable and has a matching entry.
  ghost predicate ListMatches(s: RuleSet, sources: Sources, x: Connection) {
    && !s.disabled && s.id in sources && sources[s.id].Decoded?
    && exists i :: 0 <= i < |sources[s.id].entries| && Matches(sources[s.id].entries[i], x)
  }

  // Only such lists decide a connection after a start, and they all take part.
  lemma StartRanksMatchingLists(rules: seq<RoutingRule>, sets: seq<RuleSet>, sources: Sources, x: Connection)
    ensures var w := Winner(rules, ReadableSets(sources, LiveSets(sources, sets)), ReadablePayloads(sources), x);
            && (w.Some? && w.value.Subscribed? ==> w.value.ruleSet in sets && ListMatches(w.value.ruleSet, sources, x))
            && (forall s | s in sets && ListMatches(s, sources, x) ::
                  w.Some? && !RanksAhead(Subscribed(s), w.value))
  {
    var live, payloads := ReadableSets(sources, LiveSets(sources, sets)), ReadablePayloads(sources);
    LiveMembers(sources, sets);
    WinnerIsUnbeaten(rules, live, payloads, x);
    forall s | s in sets && ListMatches(s, sources, x)
      ensures s in live && SetMatches(s, payloads, x)
    {
      var i :| 0 <= i < |sources[s.id].entries| && Matches(sources[s.id].entries[i], x);
      assert sources[s.id].entries[i] in EntriesOf(payloads, s);
    }
  }
}
