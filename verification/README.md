# HypoMux: a verified model

HypoMux shapes traffic by generating a sing-box routing configuration, and touches
Windows state that must survive crashes. This project models the seven places where
that logic is hard and proves what they are for.

| area | files |
|---|---|
| address arithmetic: free-block search, interval sweep, which route can win | `Prefixes`, `NetworkRoutes`, `TunAddress` |
| routing-rule compiler: ranking, carve-outs, compatibility bypass, hot reload, match order | `Routing`, `RuleSetPlan`, `RuleSetDecision`, `Compatibility`, `Precedence`, `RuleSetCompiler`, `RuleSetReload`, `HotEdits`, `MatchOrder`, `RuleNormalization`, `NormalizedOrder` |
| publication of watched files with settings and subscription source | `RuleSetPublish` |
| installer transaction | `SetupTransaction` |
| system-proxy ownership journal | `ProxyJournal` |
| RPC multiplexer | `EngineClient` |
| lifecycle protocols: automatic rebinding, quarantine removal | `RuntimeBindings`, `Quarantine`, `QuarantineProtocol` |
| connection matching, release versions, release selection | `ConnectionMatching`, `ReleaseVersion`, `ReleaseSelection`, `Updater` |
| shared vocabulary | `Options`, `Text`, `Sorting` |

`dafny verify dfyconfig.toml` checks everything.

## How the source is represented

- A connection carries a process, a domain and one destination address. A headless rule is a
  predicate, a file matches when some rule in it does, and the first matching route rule wins.
  Keyword and regular-expression matches are uninterpreted.
- Code that changes state is a class or a method with a loop. Its contract equates the new state
  with a function of the old one, or states the property outright; the lemmas beside it say what
  those functions mean. A fault is a nondeterministic failure before or after each primitive step,
  inside a copy as well, and a crash is a failure after which only what was written remains.
- Concurrent code is a state machine whose steps are the regions under the mutex, with one
  method of a class per region. Whole runs are sequences of steps in any order.
- SHA-256 and the tag and path digests are injective. Renaming over a file and replacing a file
  atomically are single steps.
- Go integers are unbounded except where width matters: the sweep's 64-bit cursor, the DWORD of
  `ProxyEnable`, durations and byte deltas.

## Where the code falls short of the property

For each of these the model keeps the code as it is, a lemma exhibits the failure, and the exact
condition is proved.

- **Proxy restore.** `ProxyEnable` is read as 64 bits and written as 32
  (`system_proxy_restore_windows.go:110-118`). A wider value does not come back, and a crash after the
  first write is then mistaken for someone else's edit. Everything comes back iff the value fits a
  DWORD (`ProxyJournal.Proxy.EnableThenRestore`, `ProxyJournal.WideEnableLosesTheRestore`).
- **Proxy edits.** A marker of an older program without ownership fields takes whatever the registry holds for
  its own (`system_proxy_restore_windows.go:76-88`), so an edit by somebody else is overwritten
  (`ProxyJournal.RestoreUnderLegacyMarker`). A third value survives, and the marker is dropped, iff the marker
  records what is ours (`ProxyJournal.EditsAreRespectedExactly`); a restoring marker that does not say from
  where leaves the registry alone but is an error on every attempt (`ProxyJournal.EditsAreKeptExactly`).
- **Repeated rules.** Under a match order the list is freed of repetitions before it is compiled, and the first
  rule of an identity is kept even when it is disabled, so it can hide an enabled one
  (`NormalizedOrder.DisabledRepeatHides`, `NormalizedOrder.HiddenRuleLoses`, `NormalizedOrder.HiddenPrefixLoses`).
  The submitted list decides a connection as meant iff some best match comes first of its identity
  (`NormalizedOrder.DecidesBestExactly`), and every connection iff kept rules stand for every enabled one
  (`NormalizedOrder.HarmlessExactly`): the first of its identity is enabled and matches the same, or every address
  of its prefix is taken by kept prefixes as narrow, which is a free-block question
  (`NormalizedOrder.StoodForIsNoFreeBlock`). A saved list has no repetitions.
- **Hot reload without a manifest.** The restart check answers no when the manifest is missing, and an edit is
  then saved without recomposing a file (`singbox_rules.go:438-441`, `514-517`). Every edit without a restart is
  hot iff the manifest is not missing (`RuleSetReload.HotReloadExactly`).
- **An unreadable list.** A list whose payload exists but cannot be decoded counts as live in the restart check
  and is dropped by a start (`rule_sets.go:139-151`, `singbox_rules.go:290-307`), so the check asks for a restart
  after every restart. A start's own configuration needs none iff every such payload is readable
  (`HotEdits.StartNeedsNoRestartExactly`).
- **Close.** A `Close` that overlaps another returns as soon as it sees the flag, when the session can
  still be up (`client.go:146-151`). The `Close` that set the flag is final in every interleaving; one that
  overtakes it returns with the session up iff nothing has killed or failed it by then, and one that comes
  after it leaves none (`EngineClient.CloseIsFinal`, `EngineClient.EarlyCloseExactly`,
  `EngineClient.EarlyCloseReturns`).
- **Stop against the binding refresh.** An explicit start already in flight can commit after a stop has
  cancelled; a tick can then get the gate first, and its failed restart leaves a recovery that the stop
  keeps (`engine.go:1279-1287`). The stop returns with monitoring on and the next tick restarts the engine
  (`RuntimeBindings.StopIsOvertaken`). The stop is final iff the guard of that branch holds; it is in every run
  in which no refresh takes the gate between a late commit and the stop's turn
  (`RuntimeBindings.StopEndsMonitoringExactly`, `RuntimeBindings.StopWinsUnlessOvertaken`). The window is
  narrower than the model's steps suggest: a stop already parked on the gate's channel is handed the slot by
  the goroutine that releases it, so the tick has to come before the stop has parked.
- **Quarantine removal.** The comment on `commitRemoval` promises that a later sample cannot contain the
  record. That needs a core that advertises `domain_quarantine.update`, or that does not hold the record
  (`QuarantineProtocol.RemovedStaysRemoved`, `QuarantineProtocol.IncapableCoreRestores`).
- **Release selection.** A first candidate whose tag has no key is never replaced, so the outcome can
  depend on the order (`Updater.BlockedExample`, `Updater.SelectIgnoresOrderExactly`).
  `releaseFromManifest` rejects such tags, so its caller meets the condition.
- **Connection matching.** Negating the least duration leaves it negative, so a core connection that starts
  2^63 nanoseconds or more before the other (one without a start time) passes every distance limit and
  sorts first within its score (`ConnectionMatching.LimitHoldsExactly`). The byte delta is compared modulo 2^64.

## Model

| member | source | states |
|---|---|---|
| `Prefixes.ContainsIsInterval` | desktop/internal/services/singbox_rules.go:741-761 | a prefix contains exactly the addresses from its first to its last |
| `Prefixes.ContainingPrefixesNest` | desktop/internal/services/singbox_rules.go:741-761 | two prefixes that contain one address are nested: the wider contains every address of the narrower (section 5.1 of RFC 4632) |
| `Prefixes.OverlapIsInterval` | desktop/internal/services/network_routes.go:66-74 | prefix overlap is symmetric and is exactly overlap of the two address intervals |
| `Prefixes.CoarserBlock` | desktop/internal/services/network_routes.go:98-127 | the block of a shorter length around an address holds the whole longer block |
| `NetworkRoutes.FindUnoccupiedPrefix` | desktop/internal/services/network_routes.go:98-127 | for any width, pool, length and occupied list: terminates, returns the lowest block of that length in the pool overlapping nothing occupied, and nothing iff no such block exists or the length does not fit the pool |
| `NetworkRoutes.FindInMasked` | desktop/internal/services/network_routes.go:98-127 | the recursive step over a masked pool: the filtering loop, the covered-subtree cut and the two halves return the lowest free block or prove there is none |
| `NetworkRoutes.SameFreeBlocks` | desktop/internal/services/network_routes.go:104-112 | passing only the prefixes that overlap the pool to the recursion changes no block's freedom |
| `NetworkRoutes.CoveredPoolHasNothing` | desktop/internal/services/network_routes.go:104-112 | an overlapping prefix at least as wide as the pool leaves no free block, so cutting the subtree loses nothing |
| `NetworkRoutes.HalfBlocks` | desktop/internal/services/network_routes.go:113-127 | the free blocks of a pool are those of its two halves, every left one below every right one |
| `NetworkRoutes.LowestFreeBlockIsUnique` | desktop/internal/services/network_routes.go:98-127 | the lowest free block is one block, so two correct searches agree |
| `NetworkRoutes.WinningIsAFreeAddress` | desktop/internal/services/network_routes.go:66-77 | a full-length block of the route is free of the overriding prefixes iff some destination of the route is beaten by no connected route |
| `NetworkRoutes.RouteWins` | desktop/internal/services/network_routes.go:66-77 | the wins test is true iff a destination exists for which no connected route is longer, or equally long with a lower metric |
| `NetworkRoutes.AssessNetworkRoutes` | desktop/internal/services/network_routes.go:54-94 | exactly which aliases and risks are reported: broad connected own-TUN routes, and broad routes that win some destination and are tunnels or of unknown or virtual hardware |
| `NetworkRoutes.OccupiedRoutePrefixes` | desktop/internal/services/network_routes.go:129-139 | a block avoids the returned prefixes iff it overlaps no connected foreign route longer than a split default |
| `TunAddress.FirstUnoccupied` | desktop/internal/services/tun_address.go:134-141 | the first preferred address whose block overlaps nothing, or none of them is free |
| `TunAddress.CollectIntervals` | desktop/internal/services/tun_address.go:142-160 | the sorted intervals are exactly the valid IPv4 prefixes of the list, and no end leaves 32 bits |
| `TunAddress.SweepIntervals` | desktop/internal/services/tun_address.go:161-178 | the 64-bit cursor never overflows; it stops at the first multiple of four from the start on that meets no interval |
| `TunAddress.SweepPool` | desktop/internal/services/tun_address.go:161-178 | within a pool the sweep returns the lowest aligned /30 that overlaps nothing, and nothing iff there is none |
| `TunAddress.SweepAgreesWithTreeSearch` | desktop/internal/services/tun_address.go:161-178 | on every pool the sweep and the prefix-tree search return the same block, or both nothing |
| `TunAddress.SelectTunIPv4Address` | desktop/internal/services/tun_address.go:124-181 | the first free preferred address, else host one of the lowest free /30 of the pools in order; none iff no pool has a free aligned /30 (section 3 of RFC 1918) |
| `TunAddress.SelectTunIPv6Address` | desktop/internal/services/tun_address.go:95-122 | the same with the preferred addresses of fd00::/8 and its lowest free /126 (section 3.1 of RFC 4193) |
| `TunAddress.CandidatesInPools` | desktop/internal/services/tun_address.go:124-141 | every preferred IPv4 address is host one of an aligned /30 inside one of the three pools |
| `TunAddress.IPv6CandidatesInPool` | desktop/internal/services/tun_address.go:95-110 | every preferred IPv6 address is host one of an aligned /126 inside fd00::/8 |
| `TunAddress.PreferredIPv4` | desktop/internal/services/tun_address.go:122-133 | the preferred IPv4 addresses are 172.19.0.1, then 172.16.255.1 to 172.31.255.1, then 10.255.255.1 down to 10.0.255.1, each a /30 |
| `TunAddress.PreferredIPv6` | desktop/internal/services/tun_address.go:95-103 | the preferred IPv6 addresses are fdfe:dcba:9876::1 and its 255 successors, then fd00:dcba:9876::1 to fdff:dcba:9876::1, each a /126 |
| `TunAddress.IdleMachineIPv4` | desktop/internal/services/tun_address.go:122-148 | where nothing is in use 172.19.0.1 is selected |
| `TunAddress.IdleMachineIPv6` | desktop/internal/services/tun_address.go:95-117 | where nothing is in use fdfe:dcba:9876::1 is selected |
| `Sorting.FilterOfSort` | desktop/internal/services/singbox_rules.go:694-725 | a stable sort keeps the order of every selected subsequence, so rules and lists sorted apart are the parts of one ranked list |
| `Sorting.SortOrders` | desktop/internal/services/singbox_rules.go:694-725 | sorting by a strict weak order leaves nothing later ranked ahead of anything earlier |
| `Sorting.SortIsStable` | desktop/internal/services/connection_process_clash.go:131-139 | what a stable sort does not set apart keeps its order |
| `Sorting.SortPermutes` | desktop/internal/services/singbox_rules.go:694-725 | sorting keeps every element and its multiplicity |
| `Routing.NestedSuffixes` | desktop/internal/services/singbox_rules.go:741-761 | two dot-aligned suffixes of one name are nested |
| `Routing.CommonMatchIsOverlap` | desktop/internal/services/singbox_rules.go:741-761 | whenever two rules of one type both match some connection, routingRulesCanOverlap says so: no needed carve-out is missing |
| `Routing.CarveMatches` | desktop/internal/services/singbox_rules.go:628-678 | and(rule, not(or exclusions)) matches iff the rule does and no exclusion does |
| `Routing.ComparisonsAgreeWithRank` | desktop/internal/services/singbox_rules.go:372-387 | the comparisons of rules and of lists are the two restrictions of the one ranking, and strict weak orders |
| `Routing.RanksAheadIsStrictWeak` | desktop/internal/services/singbox_rules.go:694-725 | the ranking by priority, kind, specificity and name is a strict weak order over rules and lists together |
| `Text.StringLessIsByteOrder` | desktop/internal/services/singbox_rules.go:374-379 | names are compared in byte order: a proper prefix comes first, and otherwise the first difference decides |
| `Text.LowerOfLetters` | desktop/internal/services/singbox_rules.go:374-379 | names are compared with exactly the letters A to Z lowered |
| `RuleSetPlan.SourceRulesMatch` | desktop/internal/services/singbox_rules.go:628-678 | a manual file matches iff one of its rules matches and no earlier rule it carves out does |
| `RuleSetPlan.ExternalFileMatches` | desktop/internal/services/singbox_rules.go:314-368 | a subscribed file matches iff the list does and no rule ranked ahead and no better list of another outbound does |
| `RuleSetPlan.WinnerIsUnbeaten` | desktop/internal/services/singbox_rules.go:164-235 | the first match of the ranked list exists iff anything matches, and nothing that matches ranks ahead of it |
| `RuleSetPlan.RankedParts` | desktop/internal/services/singbox_rules.go:164-235 | the sorted candidates and the sorted lists are exactly the two parts of the single ranked list |
| `RuleSetPlan.WinningCandidate` | desktop/internal/services/singbox_rules.go:628-678 | a winning rule is the first enabled match of the sorted candidates |
| `RuleSetPlan.WinningSet` | desktop/internal/services/singbox_rules.go:314-368 | a winning list is the first match of the sorted lists |
| `RuleSetPlan.AgreeingReferences` | desktop/internal/services/tun_config.go:197-203 | if all references that hit name one outbound, the first hit names it |
| `RuleSetDecision.LaterClaim` | desktop/internal/services/singbox_rules.go:628-678 | a later rule that still claims a connection for another outbound has the same priority and a later type |
| `RuleSetDecision.SetsYieldToManual` | desktop/internal/services/singbox_rules.go:314-368 | when a rule wins, every subscribed file that hits names its outbound |
| `RuleSetDecision.HitFollowsWinner` | desktop/internal/services/singbox_rules.go:628-678 | up to the winner's type, a manual file hits for the winner's outbound only |
| `RuleSetDecision.WinnerFileHits` | desktop/internal/services/singbox_rules.go:628-678 | every file that selects the winning rule hits |
| `RuleSetDecision.RivalsAreCarved` | desktop/internal/services/singbox_rules.go:314-368 | when a list wins, a list bound elsewhere never hits |
| `RuleSetDecision.NothingHits` | desktop/internal/services/singbox_rules.go:147-287 | when nothing in the ranked list matches, no reference hits |
| `RuleSetDecision.PlanFollowsRanking` | desktop/internal/services/singbox_rules.go:164-235 | for every rules, lists and connection, and any order of the external references, stale ones included: the first reference that hits has the outbound of the first match of the ranked list |
| `RuleSetDecision.ForeignHitIsLater` | desktop/internal/services/singbox_rules.go:628-678 | a manual file that hits for another outbound than the winner's does so by an equal-priority rule of a later type |
| `RuleSetDecision.UnreferencedWinner` | desktop/internal/services/singbox_rules.go:164-235 | a winning rule whose outbound has no reference yet can lose its connections only to an equal-priority rule of a later type |
| `Precedence.BeatsIsRanksAhead` | desktop/internal/services/singbox_rules.go:690-733 | the one ranking is: higher priority, then process before domain before list before address, then more labels or the longer prefix, then the name whose lower-case characters come first |
| `Precedence.SortedMatchIsMeant` | desktop/internal/services/singbox_rules.go:690-733 | the first match of the ranked list is the intent that beats every other that matches and was configured before what it ties with |
| `Precedence.PlanPicksWhatIsMeant` | desktop/internal/services/singbox_rules.go:147-235 | the compiled references give a connection to exactly that intent |
| `Precedence.EarlierNameDecides` | desktop/internal/services/singbox_rules.go:371-382 | of two matching lists of one priority, where nothing else as high matches, the one whose lower-case name comes first decides |
| `Compatibility.CompiledPlanDecides` | desktop/internal/services/singbox_rules.go:164-235 | the plan the compiler emits, its external references permuted at will, decides every connection as the ranked list |
| `Compatibility.ExplicitWinnerBlocksBypass` | desktop/internal/services/tun_config.go:381-408 | an explicit winner is always visible in a rule-set the bypass yields to |
| `Compatibility.NothingExplicitMatches` | desktop/internal/services/tun_config.go:381-408 | without an explicit winner none of those rule-sets hits |
| `Compatibility.EarlyReferencesFollowWinner` | desktop/internal/services/singbox_rules.go:600-616 | the early adapter references then name the winner's outbound iff it is an adapter |
| `Compatibility.UnreferencedWinnerUnderBypass` | desktop/internal/services/tun_config.go:381-408 | the same for known proxies: an unreferenced winner loses only to the bypass or to an equal-priority rule of a later type |
| `Compatibility.BypassIsExact` | desktop/internal/services/tun_config.go:381-408 | a known proxy follows the winner iff it is a process or domain rule, a list or an IP rule of positive priority, else an adapter-bound IP winner, else system-direct; other processes follow the ranked list |
| `Precedence.UnmatchedProxyLeavesDirectly` | desktop/internal/services/tun_config.go:381-408 | a process whose name or whose path is known leaves by system-direct when nothing matches it; any other is left to the final outbound |
| `Precedence.ProxyFollowsWhatIsMeant` | desktop/internal/services/tun_config.go:381-408 | what a known proxy does, intent by intent: lists, processes, domains and prioritized addresses are followed, other addresses only to outbounds named nic_ |
| `Precedence.AdapterIsNamedNic` | desktop/internal/services/singbox_rules.go:600-616 | an adapter outbound is one whose name starts with nic_ |
| `Compatibility.OlderPlanDecidesAlike` | desktop/internal/services/singbox_rules.go:196-205 | without custom priorities a plan whose bypass does not yield to custom-priority IP files decides alike |
| `Compatibility.OlderPlanIgnoresPriority` | desktop/internal/services/singbox_rules.go:196-205 | with them it does not: where only IP rules match, a known proxy bypasses a winner of any priority that is not bound to an adapter |
| `RuleSetCompiler.NormalizedOutbounds` | desktop/internal/services/singbox_rules.go:559-598 | without repetition: the given outbounds in order, then, sorted, everything else an enabled rule or a list needs |
| `RuleSetCompiler.BuildSourceRules` | desktop/internal/services/singbox_rules.go:628-678 | the nested loops compute the file specified by SourceRules |
| `RuleSetCompiler.AddScope` | desktop/internal/services/singbox_rules.go:600-626 | one file, reference and tag per outbound of a scope, other scopes' files untouched |
| `RuleSetCompiler.AddExternal` | desktop/internal/services/singbox_rules.go:205-235 | one recomposed file and one reference per list, best first, manual files untouched |
| `RuleSetCompiler.ComposePlan` | desktop/internal/services/singbox_rules.go:147-235 | writes every file of the plan with its specified content and emits exactly the plan's references |
| `RuleSetReload.WriteFreshPlan` | desktop/internal/services/singbox_rules.go:140-287 | a start publishes the files of the readable lists, pins the references, covers every enabled rule, declares exactly what it pinned, records custom priorities and the given FakeIP decision, and never an empty outbound unless a rule or list has one |
| `RuleSetReload.RefreshRuleSets` | desktop/internal/services/singbox_rules.go:248-274 | an edit recomposes every file of a non-empty declared outbound from the declared lists and empties the file of each declared list no longer in effect |
| `RuleSetReload.EmptyDropped` | desktop/internal/services/singbox_rules.go:248-274 | files in use keep their content, every other declared file becomes empty |
| `RuleSetReload.PinnedAreDeclared` | desktop/internal/services/singbox_rules.go:108-131 | the pinned external references are exactly the manifest's declaration, outbound by outbound |
| `RuleSetReload.PinnedReferencesSets` | desktop/internal/services/singbox_rules.go:108-131 | after a refresh every effective list is referenced with its declared outbound and every other pinned reference matches nothing |
| `RuleSetReload.SameRecordsDeclare` | desktop/internal/services/rule_sets.go:163-188 | equal records (priorities ignored) declare every live list with its current outbound |
| `RuleSetReload.NoReasonCoversRules` | desktop/internal/services/singbox_rules.go:511-557 | no rule reason for a restart means every enabled rule's outbound has its files, and under an older manifest no enabled rule has a positive priority |
| `RuleSetReload.RefreshFollowsRanking` | desktop/internal/services/singbox_rules.go:437-458 | with a restart pending, decisions follow the ranked list of the new rules and the declared lists, each with its declared outbound, also under an older plan if no priority is set; new, disabled and deleted lists match nothing |
| `RuleSetReload.RefreshWithoutReference` | desktop/internal/services/singbox_rules.go:437-458 | a winning rule whose outbound has no pinned reference loses its connections only to the bypass or to an equal-priority rule of a later type, known proxies included |
| `RuleSetReload.ReadableManifestIsHot` | desktop/internal/services/singbox_rules.go:511-557 | with a readable manifest every edit for which no restart is asked decides, by what the running engine sees, as a restart would |
| `RuleSetReload.MissingManifestIsStale` | desktop/internal/services/singbox_rules.go:437-441 | without a manifest some accepted edit decides otherwise than a restart, whatever the old files are |
| `RuleSetReload.HotReloadExactly` | desktop/internal/services/singbox_rules.go:511-517 | every edit for which no restart is asked is hot iff the manifest is not missing; an unreadable one refuses the edit |
| `RuleSetReload.HotReloadEqualsRestart` | desktop/internal/services/singbox_rules.go:511-557 | whenever a readable manifest requires no restart, the pinned references over the recomposed files, and what the running engine sees of a connection, decide it as a fresh start would, the bypass and any DNS policy of that start included |
| `HotEdits.StartNeedsNoRestartExactly` | desktop/internal/services/singbox_rules.go:511-557 | the configuration a start was made with needs no restart iff every enabled list with a payload has a readable one; otherwise it asks for one for ever |
| `HotEdits.StartUsesFakeIPExactly` | desktop/internal/services/tun_config.go:549-561 | a start uses FakeIP iff the DNS policy is neither off nor system, an enabled rule matches a domain, or an enabled list has a payload |
| `HotEdits.ListPrioritiesAreHot` | desktop/internal/services/rule_sets.go:175-188 | new priorities or names of lists change no answer of the restart check |
| `HotEdits.DisabledRulesAreHot` | desktop/internal/services/singbox_rules.go:530-540 | a disabled rule put in anywhere changes no answer of the restart check |
| `HotEdits.DeclaredRulesAreHot` | desktop/internal/services/singbox_rules.go:530-555 | neither does an enabled rule for a declared outbound, if FakeIP is on or it matches no domains |
| `HotEdits.UndeclaredOutboundNeedsRestart` | desktop/internal/services/singbox_rules.go:537-539 | an enabled rule for an undeclared outbound asks for a restart, for that reason |
| `HotEdits.ListMembershipNeedsRestart` | desktop/internal/services/singbox_rules.go:520-525 | enabling, disabling or rebinding a list with a payload asks for a restart, for that reason |
| `HotEdits.NewPrioritiesTakeEffect` | desktop/internal/services/singbox_rules.go:511-557 | after a start with readable lists, new list priorities need no restart and decide as a restart would |
| `HotEdits.StartRanksMatchingLists` | desktop/internal/services/rule_sets.go:139-151 | exactly the enabled lists with a readable payload and a matching entry take part in a decision |
| `RuleSetReload.DomainIsIgnored` | desktop/internal/services/singbox_rules.go:541-555 | where no enabled rule or live list matches by domain, no decision depends on whether the domain is known |
| `RuleSetReload.PriorityRestartIsNeeded` | desktop/internal/services/singbox_rules.go:534-536 | under a manifest without custom priorities a restart is asked for any IP rule of positive priority, and for any that is not bound to an adapter a known proxy it matches would go another way without it |
| `RuleSetReload.FakeIPRestartIsNeeded` | desktop/internal/services/singbox_rules.go:541-555 | an engine without FakeIP is asked to restart for any enabled domain rule, and without it the connections that rule matches would go another way |
| `MatchOrder.RulesWithMatchOrder` | desktop/internal/services/routing.go:357-369 | the in-place loops compute a copy with each priority rewritten from the order |
| `MatchOrder.LongerSuffixHasMoreDots` | desktop/internal/services/singbox_rules.go:694-725 | of two suffixes of one name the longer has more labels, so ranking by dots is ranking by length |
| `MatchOrder.WinnerIsBest` | desktop/internal/services/routing.go:346-369 | the ranked winner under an encoded order has the first type of the order with an enabled match, and its narrowest value |
| `MatchOrder.MatchOrderDecides` | desktop/internal/services/routing.go:346-369 | compiled from the encoded list as it stands, the manual plan picks the first type in the user's order with a matching enabled rule, and within it the longest suffix or narrowest CIDR |
| `RuleNormalization.NormalizeRulesStrict` | desktop/internal/services/routing.go:580-597 | rejects the list iff some rule is invalid; otherwise returns the sorted normalized rules that repeat no earlier identity |
| `RuleNormalization.UniqueKeepsFirst` | desktop/internal/services/routing.go:580-597 | no identity is kept twice and the first rule of each is kept |
| `RuleNormalization.UniqueHasIdentities` | desktop/internal/services/routing.go:580-597 | no identity of the list is lost and none is invented |
| `RuleNormalization.CanonicalListCompilesAlike` | desktop/internal/services/routing.go:580-597 | a canonical list without repetitions compiles to the same files before and after normalization |
| `RuleNormalization.SavedListIsStable` | desktop/internal/services/routing.go:580-597 | normalizing a normalized list again changes nothing, provided a single rule's normalization is idempotent |
| `NormalizedOrder.CompiledEncodes` | desktop/internal/services/routing.go:395-399 | whatever priorities the submitted rules had, what is compiled under a match order are exactly the encodings of the first rule of every identity |
| `NormalizedOrder.SameMatchesSameNarrowness` | desktop/internal/services/routing.go:727-729 | rules of one identity that match the same connections are equally narrow |
| `NormalizedOrder.DecidesBestExactly` | desktop/internal/services/routing.go:580-597 | for each connection the rule that decides is a best match of the submitted list iff some best match comes first of its identity, or nothing matches |
| `NormalizedOrder.HarmlessListsDecideBest` | desktop/internal/services/routing.go:580-597 | where a kept rule stands for every enabled one (the first of its identity, or for an IP rule, address by address, kept rules as narrow), every connection is decided by a best match of the submitted list |
| `NormalizedOrder.HarmlessExactly` | desktop/internal/services/routing.go:580-597 | exactly the lists with harmless repetitions, repeated IP rules included, decide every connection as submitted |
| `NormalizedOrder.PublishedOrderDecides` | desktop/internal/services/engine.go:725-731 | the published plan of a submitted list with harmless repetitions, whose outbounds cover what was compiled, picks the first type in the user's order with a matching enabled rule, and its longest suffix or narrowest CIDR |
| `NormalizedOrder.HiddenRuleLoses` | desktop/internal/services/routing.go:580-597 | a process or domain rule behind a disabled rule of its identity, or behind a process spelled in another case, loses a connection of its own |
| `NormalizedOrder.HiddenPrefixLoses` | desktop/internal/services/routing.go:580-597 | an enabled IP rule loses every connection to an address of its prefix that no kept IP rule as narrow takes |
| `NormalizedOrder.StoodForIsNoFreeBlock` | desktop/internal/services/routing.go:727-729 | kept rules stand for an IP rule iff no full-length block of its prefix is free of the kept prefixes as narrow |
| `NormalizedOrder.EqualRepeatsAreHarmless` | desktop/internal/services/routing.go:580-597 | repetitions are harmless in particular where every enabled rule only repeats an enabled first one that matches the same |
| `NormalizedOrder.DisabledRepeatHides` | desktop/internal/services/routing.go:580-597 | the two-rule list in which a disabled rule hides the enabled one of the same value |
| `RuleSetPublish.RollBackRestores` | desktop/internal/services/singbox_rules.go:491-509 | restoring snapshots from the last to the first recovers the store exactly, even when a path was published twice |
| `RuleSetPublish.PublishThenRollBack` | desktop/internal/services/singbox_rules.go:460-489 | rolling back after any number of replacements undoes them |
| `RuleSetPublish.OverwrittenHolds` | desktop/internal/services/singbox_rules.go:460-489 | after success each path holds the data last published there |
| `RuleSetPublish.OverwrittenOutside` | desktop/internal/services/singbox_rules.go:460-489 | publishing touches no other path |
| `RuleSetPublish.RuleSetDirectory.RollbackSnapshots` | desktop/internal/services/singbox_rules.go:491-509 | if it reports no failure, the files are those of a complete rollback |
| `RuleSetPublish.RuleSetDirectory.PublishRuleSetFiles` | desktop/internal/services/singbox_rules.go:460-489 | all files new, or a failing read or replacement and every file as before, unless a rollback step itself fails |
| `RuleSetPublish.RuleSetDirectory.RefreshAndCommit` | desktop/internal/services/singbox_rules.go:437-458 | files and settings change together or not at all, unless a rollback step itself fails; without a manifest only settings are committed |
| `RuleSetPublish.RuleSetDirectory.Update` | desktop/internal/services/rule_sets_service.go:208-239 | subscription source, watched files and settings change together or not at all, unless a rollback step itself fails |
| `SetupTransaction.TargetWriteFrame` | desktop/internal/setup/transaction.go:309-337 | writing one item's target, even partly, disturbs no backup, no staged payload and no target outside the plan |
| `SetupTransaction.AllItemsBack` | desktop/internal/setup/transaction.go:423-450 | once every item is back every target is back |
| `SetupTransaction.SameTargetsKeepSound` | desktop/internal/setup/transaction.go:461-469 | cleaning up after a finished journal leaves all its guarantees |
| `SetupTransaction.StagingFrame` | desktop/internal/setup/transaction.go:199-247 | staging a later item keeps the earlier items' backups and payloads intact |
| `SetupTransaction.OtherTargetsStay` | desktop/internal/setup/transaction.go:309-337 | installing one item leaves every other target and everything installed before as it was |
| `SetupTransaction.OtherItemsStay` | desktop/internal/setup/transaction.go:423-450 | restoring one item leaves the items restored before it restored |
| `SetupTransaction.Transaction.CopyFile` | desktop/internal/setup/transaction.go:86-109 | a failing or interrupted copy leaves any prefix at the destination and touches nothing else; success copies exactly |
| `SetupTransaction.Transaction.CheckItems` | desktop/internal/setup/transaction.go:136-185 | accepts a journal's items iff there are 1 to 64 of them and no target is listed twice |
| `SetupTransaction.Transaction.Load` | desktop/internal/setup/transaction.go:136-185 | the journal's checks never refuse a journal that a transaction saved |
| `SetupTransaction.Transaction.StageItem` | desktop/internal/setup/transaction.go:199-247 | backup and staged payload of one item are exact copies with their recorded hashes, and only that slot's files change |
| `SetupTransaction.Transaction.StageAll` | desktop/internal/setup/transaction.go:199-247 | stages every item of a plan without repeated targets, changing no target |
| `SetupTransaction.Transaction.Begin` | desktop/internal/setup/transaction.go:190-263 | keeps the invariant under any fault; the targets stand as they did, or will once what is under way is rolled back; over a finished journal no target changes, and what is left is the old journal or, even when it fails, a prepared one that remembers this disk; without faults every stageable plan is prepared |
| `SetupTransaction.Transaction.FindUnchanged` | desktop/internal/setup/transaction.go:289-302 | a target is skipped only if it holds the new content; without faults exactly if the old file was the new one and still is |
| `SetupTransaction.Transaction.InstallAll` | desktop/internal/setup/transaction.go:309-337 | on success every staged target, skipped ones included, holds its payload; backups stay intact throughout |
| `SetupTransaction.Transaction.Apply` | desktop/internal/setup/transaction.go:264-338 | no target changes before the applying phase is saved; targets without a payload never change; success means everything is installed |
| `SetupTransaction.Transaction.Commit` | desktop/internal/setup/transaction.go:340-365 | the committed journal is saved only from applying and only with every staged entry installed; no target changes; once it succeeds without faults no backup or staged payload is left |
| `SetupTransaction.Transaction.TargetsUntouched` | desktop/internal/setup/transaction.go:405-421 | the service configuration alone is restored only when every target is still the old one, and without faults whenever it is |
| `SetupTransaction.Transaction.RestoreItem` | desktop/internal/setup/transaction.go:423-450 | gives a target its old content or absence back, touching nothing else |
| `SetupTransaction.Transaction.Rollback` | desktop/internal/setup/transaction.go:380-460 | never touches files after commit or rollback; keeps every backup intact until all targets are back; from any reachable state it succeeds when nothing fails |
| `SetupTransaction.Transaction.Recover` | desktop/internal/setup/transaction.go:366-379 | success leaves a finished journal and, unless committed, the pre-Begin targets; without faults it always succeeds, and over a finished journal leaves no backup or staged payload |
| `SetupTransaction.Transaction.Cleanup` | desktop/internal/setup/transaction.go:461-469 | removes nothing but the journal's own files, whatever fails; without faults every backup and every staged payload is gone |
| `SetupTransaction.Transaction.Perform` | desktop/internal/setup/transaction.go:188-469 | any one operation, whatever fails in it, leaves the targets that stand, or will after a rollback, unless it saves a commit |
| `SetupTransaction.Transaction.Run` | desktop/internal/setup/transaction.go:188-469 | any sequence of operations, each failing or crashing anywhere, started over no journal, a finished one or an unfinished one, keeps the invariant; until one of its commits is saved, the targets that stand, or will after a rollback, never change |
| `SetupTransaction.Transaction.RunAndRecover` | desktop/internal/setup/transaction.go:188-469 | installer atomicity from every start, also over an earlier installation: after any run, a recovery that succeeds has put every target back unless a commit of the run was saved, and then every staged target holds its payload; without faults it succeeds |
| `SetupTransaction.Transaction.Install` | desktop/internal/setup/transaction.go:188-365 | without faults, over no journal or a finished one, Begin, Apply and Commit install exactly the plan: every payload on its target, no other target changed, and no backup or staged payload left |
| `ProxyJournal.Proxy.Restore` | desktop/internal/services/system_proxy_restore_windows.go:65-150 | a third value in any field, under a marker that records what is ours: no registry write and the marker dropped; what is taken as ours is kept or given back field by field, restoring is journalled before the first write, and the marker goes only when all three are back; a restoring marker that does not say from where is an error and never dropped |
| `ProxyJournal.ThirdValueIsForeign` | desktop/internal/services/system_proxy_restore_windows.go:70-93 | under a marker that records what is ours, values are taken as ours iff no field is a third value and, for an active marker, nothing changed at all; without such a record anything is |
| `ProxyJournal.EditsAreRespectedExactly` | desktop/internal/services/system_proxy_restore_windows.go:70-102 | every third value survives a restoration that drops the marker iff the marker records what is ours |
| `ProxyJournal.EditsAreKeptExactly` | desktop/internal/services/system_proxy_restore_windows.go:70-102 | no third value is ever overwritten iff the marker is restoring or has ownership fields |
| `ProxyJournal.RestoreUnderLegacyMarker` | desktop/internal/services/system_proxy_restore_windows.go:76-88 | under a marker without ownership fields a proxy set by somebody else since is overwritten |
| `ProxyJournal.Proxy.Enable` | desktop/internal/services/system_proxy_windows.go:40-93 | takes ownership of exactly the values it read, after finishing an earlier restoration, and remembers as original what that restoration leaves: the values read when no marker or a foreign edit was there; keeps the protocol's invariant whatever fails |
| `ProxyJournal.Proxy.WriteValues` | desktop/internal/services/system_proxy_restore_windows.go:110-142 | the switch, the server and the bypass list are written in this order, stopped anywhere by a failure |
| `ProxyJournal.SchemesAreServed` | desktop/internal/services/system_proxy_windows.go:55-55 | the list written has an entry for http and https at the HTTP port and one for socks at the SOCKS port |
| `ProxyJournal.OwnershipByMarker` | desktop/internal/services/system_proxy_restore_windows.go:70-93 | which values are taken as ours, marker by marker, on the three fields: exactly ours under an active marker of version 2, field by field ours or the original before that and while restoring |
| `ProxyJournal.Proxy.Run` | desktop/internal/services/system_proxy_restore_windows.go:73-150 | without foreign edits any sequence of enables, crashes and restores ends, once a restore succeeds, with exactly the values before the first enable and no marker; a restore without faults succeeds |
| `ProxyJournal.Proxy.EnableThenRestore` | desktop/internal/services/system_proxy_restore_windows.go:110-118 | the original values come back iff ProxyEnable was absent or fits a DWORD |
| `ProxyJournal.WrittenIsExact` | desktop/internal/services/system_proxy_restore_windows.go:110-118 | what restoration writes is the original iff ProxyEnable fits the DWORD it is written as |
| `ProxyJournal.WideEnableLosesTheRestore` | desktop/internal/services/system_proxy_restore_windows.go:55-59 | with ProxyEnable 2^32, a crash after the first write is taken for an edit by someone else |
| `EngineClient.KillKeepsSound` | desktop/internal/engineclient/client.go:467-482 | killing a session hands over every pending request once and keeps all invariants |
| `EngineClient.ReceiveKeepsSound` | desktop/internal/engineclient/client.go:483-517 | a response takes its request out of pending once, and only on the current session's loop |
| `EngineClient.ConnectKeepsSound` | desktop/internal/engineclient/client.go:279-298 | registering a session resets a pending map that was already empty |
| `EngineClient.RunKeepsSound` | desktop/internal/engineclient/client.go:269-545 | every interleaving keeps: no session no pending, pending belongs to the current session, at most one message per id, nothing registered lost |
| `EngineClient.OneFate` | desktop/internal/engineclient/client.go:379-545 | in every run each registered request is waiting on the current session, withdrawn, or given exactly one message by the session it was registered under |
| `EngineClient.SendersNeverBlock` | desktop/internal/engineclient/client.go:509-545 | whenever a goroutine sends a reply the channel's one slot is empty |
| `EngineClient.DyingSessionAnswersAll` | desktop/internal/engineclient/client.go:467-533 | however a session ends, exactly its still-pending requests are answered as disconnected |
| `EngineClient.NobodyWaitsForever` | desktop/internal/engineclient/client.go:399-443 | with no session and no reply in flight every request ever registered got its message or gave up |
| `EngineClient.ResponseIsForwarded` | desktop/internal/engineclient/client.go:504-513 | the current session's loop hands exactly one new message to a waiting request: the response itself, from that session |
| `EngineClient.MessagesAreTrue` | desktop/internal/engineclient/client.go:504-545 | in every run, whoever is told disconnected had a session that has ended, and whoever gets a response got one that this session's loop received for it |
| `EngineClient.RequestIsAnswered` | desktop/internal/engineclient/client.go:504-513 | from any reachable state with a session, a request that is drawn, registered, received and sent holds exactly one message, the response |
| `EngineClient.WithdrawnIsFinal` | desktop/internal/engineclient/client.go:535-539 | a caller that gave up before its answer never gets a message, in every run |
| `EngineClient.HandshakeLasts` | desktop/internal/engineclient/client.go:192-211 | a stored compatible handshake lasts until its session ends or another one is stored |
| `EngineClient.ConnectedAndGreeted` | desktop/internal/engineclient/client.go:269-330 | from any reachable open state without a session, connecting and shaking hands make a new session that ensure reuses |
| `EngineClient.CloseIsFinal` | desktop/internal/engineclient/client.go:146-160 | whatever interleaves, after the Close that set the flag no session exists, ever |
| `EngineClient.EarlyCloseReturns` | desktop/internal/engineclient/client.go:146-151 | a Close that finds the flag set leaves no session if no other Close is under way |
| `EngineClient.EarlyCloseExactly` | desktop/internal/engineclient/client.go:146-160 | a Close that overtakes the first one, anywhere between its two regions, returns with the session still up iff nothing has killed or failed it |
| `EngineClient.OverlappingCloseLeavesASession` | desktop/internal/engineclient/client.go:146-160 | while the first Close has not killed yet, an overlapping one returns with the session still up |
| `EngineClient.Client.NegotiateSession` | desktop/internal/engineclient/client.go:279-298 | the region equals its specification and keeps the invariants; a closed client or a second session is refused |
| `EngineClient.Client.Reusable` | desktop/internal/engineclient/client.go:192-211 | a session is reused iff a compatible handshake on it is stored, elevated when that is required |
| `EngineClient.Client.StoreHello` | desktop/internal/engineclient/client.go:322-328 | a handshake's result is stored only while its session is current |
| `EngineClient.Client.DrawId` | desktop/internal/engineclient/client.go:379-384 | every request gets an id nobody else has or had |
| `EngineClient.Client.RemovePending` | desktop/internal/engineclient/client.go:535-539 | withdraws a request that is still pending, and nothing else |
| `EngineClient.Client.RegisterPending` | desktop/internal/engineclient/client.go:399-409 | registers a fresh id with the current session, or refuses without one |
| `EngineClient.Client.ReadMessage` | desktop/internal/engineclient/client.go:483-517 | the region equals its specification; a loop of a replaced session stops |
| `EngineClient.Client.KillCurrent` | desktop/internal/engineclient/client.go:467-482 | the region equals its specification and keeps the invariants |
| `EngineClient.Client.FailSession` | desktop/internal/engineclient/client.go:519-533 | acts only on the session that failed, if it is still current |
| `EngineClient.Client.SendReply` | desktop/internal/engineclient/client.go:541-545 | sends into an empty slot |
| `EngineClient.Client.Close` | desktop/internal/engineclient/client.go:146-160 | uninterrupted: closed, no session, nothing pending |
| `RuntimeBindings.RuntimeBindingsChanged` | desktop/internal/services/runtime_bindings.go:88-119 | changed iff a bound adapter moved or a selected usable adapter is unbound; missing iff nothing changed and some bound adapter is lost, naming one |
| `RuntimeBindings.BindingFields` | desktop/internal/services/runtime_bindings.go:100-125 | an operational adapter with either address is usable, and bindings are the same iff the adapters differ in nothing but id, state and selection |
| `RuntimeBindings.RunKeepsSound` | desktop/internal/services/runtime_bindings.go:139-176 | in every interleaving the refresh flag is set exactly while a refresh holds the gate |
| `RuntimeBindings.QuietStep` | desktop/internal/services/runtime_bindings.go:127-169 | no step but an explicit start's commit turns monitoring on or brings the engine up once recovery is cancelled |
| `RuntimeBindings.OnlyAnExplicitStart` | desktop/internal/services/runtime_bindings.go:197-276 | from a cancelled state, in every run, only an explicit start brings the engine up |
| `RuntimeBindings.StopWins` | desktop/internal/services/engine.go:1216-1226 | in every interleaving without an explicit start committing after its cancellation, a stop leaves monitoring off and the engine down, and so it stays |
| `RuntimeBindings.PowerlessStep` | desktop/internal/services/runtime_bindings.go:239-245 | until a refresh takes the gate no step records a recovery, late starts included |
| `RuntimeBindings.StopWinsUnlessOvertaken` | desktop/internal/services/engine.go:1216-1287 | a stop wins, even over explicit starts that commit after its cancellation, unless a refresh takes the gate in between |
| `RuntimeBindings.RefreshNeedsACommit` | desktop/internal/services/runtime_bindings.go:139-146 | after a cancellation no refresh takes the gate before an explicit start has committed |
| `RuntimeBindings.UninterruptedRefresh` | desktop/internal/services/runtime_bindings.go:139-276 | a tick of a monitored session, a moved binding, a clean stop and a restart that succeeds leave the session running and monitored as before with nothing to recover |
| `RuntimeBindings.UnchangedScan` | desktop/internal/services/runtime_bindings.go:139-276 | a scan that finds nothing changes nothing |
| `RuntimeBindings.FailedRestartIsRetried` | desktop/internal/services/runtime_bindings.go:139-276 | a failed restart leaves the session down but monitored with its recovery recorded, and the next tick can bring it back |
| `RuntimeBindings.UninterruptedStart` | desktop/internal/services/engine.go:648-675 | an explicit start brings the engine up and turns monitoring on |
| `RuntimeBindings.UninterruptedStop` | desktop/internal/services/engine.go:1216-1287 | an explicit stop takes the engine down and turns monitoring off |
| `RuntimeBindings.CancelledRefreshEnds` | desktop/internal/services/runtime_bindings.go:197-276 | wherever a refresh is between two pieces of work, once cancelled its next region ends it and leaves the engine as it is |
| `RuntimeBindings.FailedRefreshEnds` | desktop/internal/services/runtime_bindings.go:197-276 | so does one whose work fails or that finds nothing to refresh |
| `RuntimeBindings.ClosingRefreshEnds` | desktop/internal/services/runtime_bindings.go:197-276 | and one that finds the program closing, which it leaves unchanged |
| `RuntimeBindings.FailedStart` | desktop/internal/services/engine.go:648-675 | a start whose preparation or startup fails changes nothing |
| `RuntimeBindings.GivingUpOnlyCancels` | desktop/internal/services/runtime_bindings.go:127-137 | a start or stop that gives up waiting has only cancelled, and another holder of the gate lets nobody in and changes nothing |
| `RuntimeBindings.ClosingIsFinal` | desktop/internal/services/runtime_bindings.go:139-176 | once the program closes and no startup is about to commit, no run brings the engine up |
| `RuntimeBindings.StopEndsMonitoringExactly` | desktop/internal/services/engine.go:1279-1287 | a stop's closing region ends monitoring for good iff no recovery is recorded or monitoring is already off |
| `RuntimeBindings.StopIsOvertaken` | desktop/internal/services/engine.go:1279-1287 | a run in which a late start and a failed refresh overtake a stop: it returns with monitoring on and the next tick restarts the engine |
| `RuntimeBindings.EngineService.CancelRuntimeBindingRefresh` | desktop/internal/services/runtime_bindings.go:127-137 | cancels whatever refresh is under way: nothing automatic has power afterwards |
| `RuntimeBindings.EngineService.ScheduleRuntimeBindingRefresh` | desktop/internal/services/runtime_bindings.go:139-161 | the region equals its specification; nothing is scheduled once cancelled |
| `RuntimeBindings.EngineService.RecordRecovery` | desktop/internal/services/runtime_bindings.go:239-245 | records the intent only while enabled and not cancelled |
| `RuntimeBindings.EngineService.CommitRefresh` | desktop/internal/services/engine.go:1146-1157 | a cancelled refresh never commits |
| `RuntimeBindings.EngineService.SettleStop` | desktop/internal/services/engine.go:1270-1287 | the region equals its specification and ends monitoring iff its guard holds |
| `Quarantine.BlockedDomainService.NextEntries` | desktop/internal/services/blocked_domains.go:169-208 | each key's record afterwards: the limited deadline of the last kept sample of it, else nothing with expiry and the old deadline without |
| `Quarantine.BlockedDomainService.ReplaceRuntimeSample` | desktop/internal/services/blocked_domains.go:154-220 | a sample with an outdated token or a failed write changes nothing; otherwise every record is what the sample leaves, and with expiry its deadline lies between now and the horizon in whole seconds |
| `Quarantine.BlockedDomainService.RemoveThenReplace` | desktop/internal/services/blocked_domains.go:129-161 | a sample requested before a removal cannot undo it |
| `Quarantine.ReportedAreKept` | desktop/internal/services/blocked_domains.go:184-207 | a sample leaves a record for exactly the keys of its kept entries |
| `Quarantine.BlockedDomainService.CommitRemoval` | desktop/internal/services/blocked_domains.go:132-144 | removes exactly the covered records and makes every earlier token outdated |
| `Quarantine.Deadline` | desktop/internal/services/blocked_domains.go:197-206 | a deadline more than a day away becomes one in half an hour, unless the record already has one as near; any other is kept, and without expiry all are |
| `Quarantine.RepeatedSamples` | desktop/internal/services/blocked_domains.go:197-206 | a core that keeps reporting a permanent deadline gets half an hour from the first sample; samples in between move nothing and a later one starts over |
| `Quarantine.KeptExactly` | desktop/internal/services/blocked_domains.go:186-194 | a sample counts iff it names an adapter, a domain other than the dot and a deadline, which with expiry on has not passed |
| `Quarantine.NormalizeDomainForms` | desktop/internal/services/blocked_domains.go:322-324 | one trailing dot is dropped and letters are lowered |
| `QuarantineProtocol.RunKeepsSound` | desktop/internal/services/domain_quarantine.go:44-73 | in every interleaving what was removed is in neither set, no seed and no usable sample until the core learns it again |
| `QuarantineProtocol.RemovedStaysRemoved` | desktop/internal/services/domain_quarantine.go:44-73 | a removed record that is stored again was learned again by the core after the eviction, in every interleaving, unless the core held it and cannot be told to evict |
| `QuarantineProtocol.IncapableCoreRestores` | desktop/internal/services/domain_quarantine.go:58-73 | in exactly that case the next sample brings the record back though the core learned nothing |
| `QuarantineProtocol.RefusedRemovalLosesNothing` | desktop/internal/services/domain_quarantine.go:58-73 | after a core has refused an eviction, in every run no record is lost and no sample outdated until the user removes again or expiry takes its turn |
| `QuarantineProtocol.RunTakesEveryStep` | desktop/internal/services/domain_quarantine.go:44-73 | a run takes its steps in turn, all of them |
| `QuarantineProtocol.UninterruptedSample` | desktop/internal/services/domain_quarantine.go:35-56 | a sample nothing overtakes stores what it keeps of what the core holds, instead of the records with expiry, besides them without, and nothing if the write fails |
| `QuarantineProtocol.OutdatedSample` | desktop/internal/services/blocked_domains.go:154-161 | one that a removal overtakes stores nothing |
| `QuarantineProtocol.UninterruptedRemoval` | desktop/internal/services/domain_quarantine.go:58-73 | a removal takes exactly what it covers from the store and from a core that can be told |
| `QuarantineProtocol.RefusedRemoval` | desktop/internal/services/domain_quarantine.go:58-73 | a core that is told and refuses leaves every record and outdates no sample |
| `QuarantineProtocol.UninterruptedStart` | desktop/internal/services/engine.go:899-913 | a seeded start gives the core the stored records, another one none |
| `ConnectionMatching.BuildMatches` | desktop/internal/services/connection_process_clash.go:95-130 | the nested loops list exactly the eligible pairs with their score, distance and byte delta, by core and then by router connection |
| `ConnectionMatching.SortedMatches` | desktop/internal/services/connection_process_clash.go:131-139 | the stable sort puts every pair ahead of all later ones: better, or tied and found earlier |
| `ConnectionMatching.MatchConnections` | desktop/internal/services/connection_process_clash.go:86-155 | the chosen pairs are injective on both sides, every eligible pair left out shares an end with a chosen pair ahead of it, and the result reports exactly the chosen connections |
| `ConnectionMatching.ChoiceIsUnique` | desktop/internal/services/connection_process_clash.go:142-154 | there is only one such choice, so it is determined ties included |
| `ConnectionMatching.TakenIsBlocked` | desktop/internal/services/connection_process_clash.go:142-154 | a skipped pair shares an end with a chosen pair ahead of it |
| `ConnectionMatching.ReportsArePartners` | desktop/internal/services/connection_process_clash.go:142-154 | with distinct ids every chosen connection gets its own partner's details |
| `ConnectionMatching.LimitHoldsExactly` | desktop/internal/services/connection_process_clash.go:109-123 | the distance limit bounds how far apart the starts are iff the core connection is not 2^63 nanoseconds or more earlier; then every limit passes |
| `ConnectionMatching.AbsoluteInt64Delta` | desktop/internal/services/connection_process_clash.go:168-173 | the wrapped 64-bit subtraction is the exact absolute difference |
| `ConnectionMatching.EligibleExactly` | desktop/internal/services/connection_process_clash.go:95-130 | within the range of durations, a pair is a candidate iff there is something to report, the networks agree where known, the ports are one, and the starts are 8 seconds apart at most, or 2 where the target says nothing |
| `ConnectionMatching.BetterExactly` | desktop/internal/services/connection_process_clash.go:131-139 | a pair is better iff its host matches and the other's does not, else its address, else its start is nearer, else its byte counters are |
| `ReleaseVersion.ParseOfString` | desktop/internal/releaseversion/version.go:20-49 | Parse(String(v)) is v for every valid version |
| `ReleaseVersion.StringOfParse` | desktop/internal/releaseversion/version.go:20-49 | every accepted text is valid and is the String of its version |
| `ReleaseVersion.AcceptedExactly` | desktop/internal/releaseversion/version.go:20-42 | a version reads back from its text exactly with components up to 65535 and a prerelease number from 1 to 29999 |
| `ReleaseVersion.StringForms` | desktop/internal/releaseversion/version.go:44-50 | a version's text is X.Y.Z, X.Y.Z-beta.N or X.Y.Z-rc.N |
| `ReleaseVersion.TrimSpaceExactly` | desktop/internal/releaseversion/version.go:74-78 | a key is read from the text without the spaces at its ends, and with everything else |
| `ReleaseVersion.LegacyPartsAreWritten` | desktop/internal/releaseversion/version.go:88-101 | an older version that is read is digits, a dot, digits and so on to its end, each number within an int |
| `ReleaseVersion.WrittenPartsAreRead` | desktop/internal/releaseversion/version.go:88-101 | and every text that writes two to four such numbers is read as those |
| `ReleaseVersion.KeyOfNumbers` | desktop/internal/releaseversion/version.go:74-101 | a text that is no release version has a key iff it writes two to four numbers: those filled up with zeros, then the rank of a stable version |
| `ReleaseVersion.KeyOfFourParts` | desktop/internal/releaseversion/version.go:88-101 | an older version of four numbers keeps its four numbers as a stable key |
| `ReleaseVersion.WindowsRevision` | desktop/internal/releaseversion/version.go:61-70 | the revision is the number of a beta, 30000 and the number of a release candidate, or 65535 |
| `ReleaseVersion.KeyOfString` | desktop/internal/releaseversion/version.go:74-101 | the key of a version's text, with or without the tag's v, is its components, rank and sequence |
| `ReleaseVersion.WindowsEmbedsKeys` | desktop/internal/releaseversion/version.go:61-70 | the four parts fit 16 bits, are injective and are ordered exactly as the keys |
| `ReleaseVersion.WindowsReadsBack` | desktop/internal/releaseversion/version.go:61-70 | reading the dotted Windows text back gives exactly its four parts |
| `ReleaseVersion.GreaterIsTotal` | desktop/internal/services/updater.go:727-738 | of two keys at most one is greater, and none only if they are equal |
| `ReleaseVersion.GreaterIsTransitive` | desktop/internal/services/updater.go:727-738 | the comparison of keys is transitive |
| `ReleaseSelection.CompareKeys` | desktop/internal/services/updater.go:679-738 | the comparison loops decide greater and equal as specified |
| `ReleaseSelection.SameReleaseMetadata` | desktop/internal/services/updater.go:370-384 | true iff the two releases are equal in every field |
| `ReleaseSelection.LatestIsMaximal` | desktop/internal/services/updater.go:346-354 | with a key for every tag no candidate is newer than the one kept |
| `ReleaseSelection.OrderIsIgnored` | desktop/internal/services/updater.go:346-368 | with a key for every tag every permutation has the same outcome |
| `ReleaseSelection.LatestAmongKeyed` | desktop/internal/services/updater.go:346-354 | a first candidate without a key is never replaced; otherwise those without one are never looked at |
| `ReleaseSelection.OrderFreeExactly` | desktop/internal/services/updater.go:346-368 | the outcome is the same for every permutation iff all tags have keys, or none, or the keyed ones amount to an invalid release |
| `ReleaseSelection.FirstWithoutKeyBlocks` | desktop/internal/services/updater.go:346-368 | a keyless first candidate hides a valid release that it does not hide when it comes second |
| `Updater.SelectLatestRelease` | desktop/internal/services/updater.go:346-368 | the loops compute the specified outcome with the real key and validation |
| `Updater.SelectedIsBest` | desktop/internal/services/updater.go:346-368 | whatever the other tags are, the selected release is a candidate, valid, unbeaten, and identical to every candidate of its version |
| `Updater.SelectedIsOfficial` | desktop/internal/services/updater.go:619-655 | a selected release has a v tag, its version's installer from one to four different places, all among the two official ones, a digest of 64 hexadecimal digits and no page but its own |
| `Updater.OfficialReleaseIsValid` | desktop/internal/services/updater.go:619-655 | and a release that is like that passes validation |
| `Updater.SelectIgnoresOrderExactly` | desktop/internal/services/updater.go:346-368 | exactly when sources may answer in any order, for the updater's own key and validation |
| `Updater.BlockedExample` | desktop/internal/services/updater.go:346-368 | a concrete pair of candidates whose order decides between a release and an error |

## Left out

- RuleSetDecision.PlanFollowsRanking: requires the winning rule's outbound to be among the plan's; `RuleSetCompiler.NormalizedOutbounds` guarantees it for a compiled plan, and `RuleSetDecision.UnreferencedWinner` says what happens otherwise while a restart is pending.
- RuleSetReload.RefreshFollowsRanking: assumes, like the code that validates them, that priorities are not negative, and that the winning rule's outbound has its files; `RuleSetReload.RefreshWithoutReference` says what happens otherwise.
- RuleSetReload.HotReloadEqualsRestart: FakeIP is modelled by its effect, that the domain of a connection is known; without it the domain is known only where sniffing shows it.
- RuleSetReload.PriorityRestartIsNeeded: the older program is not in the repository; a manifest that does not mention custom priorities is taken to pin a plan whose bypass does not yield to custom-priority IP files, the one use the plan makes of them.
- Compatibility.BypassIsExact: starts where the compatibility block starts; sniffing, DNS hijack, the core's own processes and the bootstrap exclusions come before it in `tun_config.go:169-196` and are not modelled.
- MatchOrder.MatchOrderDecides: is about the encoded list before repetitions are removed; `NormalizedOrder.PublishedOrderDecides` is about the list the program compiles. Among rules of one type and narrowness neither says which decides.
- NetworkRoutes.AssessNetworkRoutes: returns sets; the source formats risks as text and sorts both lists.
- NetworkRoutes.FindUnoccupiedPrefix: 4-in-6 mapped addresses and zones are not modelled; parsing of prefixes is not either.
- RuleSetReload.WriteFreshPlan: records are ordered by list id, where the source orders them by the digest of the id; both are one fixed order.
- RuleSetCompiler.NormalizedOutbounds: outbound names are taken as already trimmed.
- Routing.CommonMatchIsOverlap: case folding is ASCII; IDNA and Unicode folding are not modelled.
- SetupTransaction.Transaction.Begin: file metadata, access control lists and the saved service configuration are calls of the platform that may fail but change no modelled file; targets are regular files.
- SetupTransaction.Transaction.Load: an oversized, undecodable or foreign journal is not modelled, only those a transaction saves.
- SetupTransaction.Transaction.Run: nobody but the installer script edits targets during a run, and it edits only items listed without a payload, between Apply and Commit.
- ProxyJournal.Proxy.Restore: the type a registry string had is not recorded by the source and not modelled; the branch for an undecodable marker is left out.
- EngineClient.RunKeepsSound: events, launch reports, the write gate and the launchers' fallback are left out; a request whose write or wait ends early withdraws or kills, and both are steps.
- RuntimeBindings.StopWins: running means that a startup has committed and no stop has succeeded since; a rollback of an uncommitted startup is assumed to leave nothing running. Hotspot recovery and the DNS and WFP compatibility restarts, which call Stop and Start themselves, are left out.
- QuarantineProtocol.RemovedStaysRemoved: speaks of the records in memory; a removal whose write fails is reported to the user and can come back from disk at the next program start.
- Quarantine.BlockedDomainService.ReplaceRuntimeSample: adapter and domain are taken as already trimmed of spaces; loading, listing and the legacy file format are left out.
- ConnectionMatching.MatchConnections: endpoint splitting, trimming and the extraction of process names and domains from metadata are inputs.
- Updater.SelectLatestRelease: the URL-shape checks of a mirror are subsumed by its equality with one of the two official addresses; downloading, signatures and manifest parsing are left out.
- ReleaseVersion.KeyOfString: legacy two-to-four-part versions have a key but no round trip, since the source never prints them.
- RuleNormalization.NormalizeRulesStrict: the validation and canonical form of a single rule (text limits, IDNA, CIDR parsing) are a parameter.
- Throughput, log trimming, the assistant, the hotspot worker, NAT detection, the frontend, HTTP and the MTU search only do I/O or would add easy members.
