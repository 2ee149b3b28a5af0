/**
 network_routes.go: the prefix-tree search for a free block and the decision
 whether a broad route can win any destination.
 */
module NetworkRoutes {
  import opened Options
  import opened Prefixes
  import opened Text

  // ---- the free-block search ----

  ghost predicate Inside(block: Prefix, pool: Prefix)
    requires block.bits <= block.width && pool.bits <= pool.width
  {
    pool.First() <= block.First() && block.Last() <= pool.Last()
  }

  ghost predicate Unoccupied(block: Prefix, occupied: seq<Prefix>) {
    forall i | 0 <= i < |occupied| :: !block.Overlaps(occupied[i])
  }

  // What a caller asks for: an aligned block of the wanted length in the pool
  // that touches nothing occupied.
  ghost predicate FreeBlock(pool: Prefix, bits: int, occupied: seq<Prefix>, block: Prefix) {
    && pool.IsValid() && block.IsValid() && block.width == pool.width && block.bits == bits
    && block.address == block.First()
    && Inside(block, pool)
    && Unoccupied(block, occupied)
  }

  ghost predicate Searchable(pool: Prefix, bits: int) {
    pool.IsValid() && pool.bits <= bits <= pool.width
  }

  ghost predicate LowestFreeBlock(pool: Prefix, bits: int, occupied: seq<Prefix>, block: Prefix) {
    && FreeBlock(pool, bits, occupied, block)
    && forall other | FreeBlock(pool, bits, occupied, other) :: block.address <= other.address
  }

  lemma LowestFreeBlockIsUnique(pool: Prefix, bits: int, occupied: seq<Prefix>, a: Prefix, b: Prefix)
    requires LowestFreeBlock(pool, bits, occupied, a) && LowestFreeBlock(pool, bits, occupied, b)
    ensures a == b
  {
  }

  // An occupied prefix at least as wide as the pool leaves nothing free.
  lemma CoveredPoolHasNothing(pool: Prefix, bits: int, occupied: seq<Prefix>, i: nat)
    requires Searchable(pool, bits)
    requires i < |occupied| && pool.Overlaps(occupied[i]) && occupied[i].bits <= pool.bits
    ensures forall block :: !FreeBlock(pool, bits, occupied, block)
  {
    forall block: Prefix | block.IsValid() && block.width == pool.width && Inside(block, pool)
      ensures block.Overlaps(occupied[i])
    {
      NestedOverlap(occupied[i], pool);
      OverlapIsInterval(pool, occupied[i]);
      OverlapIsInterval(block, occupied[i]);
    }
  }

  // What does not meet the pool does not meet any block inside it.
  lemma OutsideStaysOutside(pool: Prefix, block: Prefix, q: Prefix)
    requires pool.IsValid() && block.IsValid() && block.width == pool.width && Inside(block, pool)
    requires block.Overlaps(q)
    ensures pool.Overlaps(q)
  {
    OverlapIsInterval(block, q);
    OverlapIsInterval(pool, q);
  }

  // The two halves of a pool, and that every smaller block lies in one of them.
  function LeftHalf(pool: Prefix): Prefix
    requires pool.bits < pool.width
  {
    Prefix(pool.width, pool.address, pool.bits + 1)
  }

  function RightHalf(pool: Prefix): Prefix
    requires pool.bits < pool.width
  {
    Prefix(pool.width, pool.address + Pow2(pool.width - pool.bits - 1), pool.bits + 1)
  }

  lemma HalvesOf(pool: Prefix)
    requires pool.IsValid() && pool.bits < pool.width && pool.address == pool.First()
    ensures LeftHalf(pool).IsValid() && RightHalf(pool).IsValid()
    ensures LeftHalf(pool).First() == pool.address == LeftHalf(pool).address
    ensures RightHalf(pool).First() == RightHalf(pool).address == LeftHalf(pool).Last() + 1
    ensures RightHalf(pool).Last() == pool.Last()
  {
    var h := Pow2(pool.width - pool.bits - 1);
    BlockInDoubledBlock(pool.address, h);
    assert Floor(pool.address + h, h) == h + Floor(pool.address, h);
    TopOfFamily(pool);
  }

  lemma SmallerBlockInOneHalf(pool: Prefix, block: Prefix)
    requires pool.IsValid() && pool.bits < pool.width && pool.address == pool.First()
    requires block.IsValid() && block.width == pool.width && block.bits > pool.bits
    requires Inside(block, pool)
    ensures LeftHalf(pool).IsValid() && RightHalf(pool).IsValid()
    ensures Inside(block, LeftHalf(pool)) || Inside(block, RightHalf(pool))
  {
    HalvesOf(pool);
    NestedOverlap(LeftHalf(pool), block);
  }

  // Keeping only the prefixes that meet the pool keeps the same blocks free.
  lemma SameFreeBlocks(pool: Prefix, bits: int, occupied: seq<Prefix>, overlapping: seq<Prefix>, block: Prefix)
    requires Searchable(pool, bits)
    requires forall q :: q in overlapping <==> q in occupied && pool.Overlaps(q)
    ensures FreeBlock(pool, bits, occupied, block) <==> FreeBlock(pool, bits, overlapping, block)
  {
    if block.IsValid() && block.width == pool.width && Inside(block, pool) {
      forall q | q in occupied && block.Overlaps(q)
        ensures q in overlapping
      {
        OutsideStaysOutside(pool, block, q);
      }
      if Unoccupied(block, overlapping) {
        forall i | 0 <= i < |occupied|
          ensures !block.Overlaps(occupied[i])
        {
          assert occupied[i] in occupied;
        }
      }
      if Unoccupied(block, occupied) {
        forall i | 0 <= i < |overlapping|
          ensures !block.Overlaps(overlapping[i])
        {
          assert overlapping[i] in overlapping;
        }
      }
    }
  }

  // Every block length down to one address; None exactly when nothing is free.
  method FindUnoccupiedPrefix(pool: Prefix, bits: int, occupied: seq<Prefix>) returns (free: Option<Prefix>)
    ensures !Searchable(pool, bits) ==> free.None?
    ensures Searchable(pool, bits) && free.Some? ==> LowestFreeBlock(pool, bits, occupied, free.value)
    ensures Searchable(pool, bits) && free.None? ==> forall block :: !FreeBlock(pool, bits, occupied, block)
    decreases pool.width - pool.bits
  {
    if !pool.IsValid() || bits < pool.bits || bits > pool.width {
      return None;
    }
    MaskedPool(pool, bits, occupied);
    free := FindInMasked(pool.Masked(), bits, occupied);
  }

  // Masking the pool leaves the same interval, so the same blocks.
  lemma MaskedPool(pool: Prefix, bits: int, occupied: seq<Prefix>)
    requires Searchable(pool, bits)
    ensures Searchable(pool.Masked(), bits)
    ensures pool.Masked().First() == pool.First() == pool.Masked().address
    ensures forall block :: FreeBlock(pool, bits, occupied, block) <==> FreeBlock(pool.Masked(), bits, occupied, block)
    ensures forall block :: LowestFreeBlock(pool, bits, occupied, block) <==>
            LowestFreeBlock(pool.Masked(), bits, occupied, block)
  {
    MaskedPrefix(pool);
  }

  method FindInMasked(pool: Prefix, bits: int, occupied: seq<Prefix>) returns (free: Option<Prefix>)
    requires Searchable(pool, bits) && pool.address == pool.First()
    ensures free.Some? ==> LowestFreeBlock(pool, bits, occupied, free.value)
    ensures free.None? ==> forall block :: !FreeBlock(pool, bits, occupied, block)
    decreases pool.width - pool.bits
  {
    var overlapping: seq<Prefix> := [];
    for i := 0 to |occupied|
      invariant forall q :: q in overlapping <==> q in occupied[..i] && pool.Overlaps(q)
    {
      var existing := occupied[i];
      if pool.Overlaps(existing) {
        if existing.bits <= pool.bits {
          CoveredPoolHasNothing(pool, bits, occupied, i);
          return None;
        }
        overlapping := overlapping + [existing];
      }
    }
    assert occupied[..|occupied|] == occupied;
    forall block
      ensures FreeBlock(pool, bits, occupied, block) <==> FreeBlock(pool, bits, overlapping, block)
    {
      SameFreeBlocks(pool, bits, occupied, overlapping, block);
    }
    if |overlapping| == 0 {
      FirstBlockIsLowest(pool, bits);
      return Some(Prefix(pool.width, pool.address, bits));
    }
    if pool.bits == bits {
      FullLengthPoolIsTheOnlyBlock(pool, overlapping);
      return None;
    }
    HalvesOf(pool);
    HalfBlocks(pool, bits, overlapping);
    var left := FindInMasked(LeftHalf(pool), bits, overlapping);
    if left.Some? {
      return left;
    }
    free := FindInMasked(RightHalf(pool), bits, overlapping);
  }

  lemma FirstBlockIsLowest(pool: Prefix, bits: int)
    requires Searchable(pool, bits) && pool.address == pool.First()
    ensures LowestFreeBlock(pool, bits, [], Prefix(pool.width, pool.address, bits))
  {
    var block := Prefix(pool.width, pool.address, bits);
    CoarserBlock(block, pool.bits);
  }

  lemma FullLengthPoolIsTheOnlyBlock(pool: Prefix, overlapping: seq<Prefix>)
    requires pool.IsValid() && pool.address == pool.First()
    requires |overlapping| > 0 && forall q | q in overlapping :: pool.Overlaps(q)
    ensures forall block :: !FreeBlock(pool, pool.bits, overlapping, block)
  {
    assert overlapping[0] in overlapping;
  }

  // The free blocks of a pool are those of its halves, the left ones first.
  lemma HalfBlocks(pool: Prefix, bits: int, occupied: seq<Prefix>)
    requires Searchable(pool, bits) && pool.bits < bits && pool.address == pool.First()
    ensures LeftHalf(pool).IsValid() && RightHalf(pool).IsValid()
    ensures forall block :: FreeBlock(pool, bits, occupied, block) <==>
              FreeBlock(LeftHalf(pool), bits, occupied, block) || FreeBlock(RightHalf(pool), bits, occupied, block)
    ensures forall a, b :: FreeBlock(LeftHalf(pool), bits, occupied, a) && FreeBlock(RightHalf(pool), bits, occupied, b)
              ==> a.address < b.address
  {
    HalvesOf(pool);
    forall block | FreeBlock(pool, bits, occupied, block)
      ensures FreeBlock(LeftHalf(pool), bits, occupied, block) || FreeBlock(RightHalf(pool), bits, occupied, block)
    {
      SmallerBlockInOneHalf(pool, block);
    }
  }

  // ---- can a broad route win any destination? ----

  datatype Route = Route(
    prefix: Prefix,
    interfaceIndex: nat,
    alias: string,
    namedLikeTunnel: bool, // tunnelNamePattern over alias and description
    interfaceType: nat,
    tunnelType: nat,
    metadataKnown: bool,
    hardware: bool,
    connected: bool,
    metric: nat
  ) {
    predicate OwnTun() {
      EqualFold(alias, "HypoMux-Tun")
    }

    predicate Tunnel() {
      if metadataKnown && hardware then false
      else if metadataKnown && interfaceType == 131 && tunnelType in {11, 13, 14} then false
      else namedLikeTunnel
    }

    predicate Broad() {
      connected && prefix.IsValid() && prefix.bits <= 3
    }

    // Longest prefix first, then the lower metric.
    predicate Outranks(other: Route) {
      connected && (prefix.bits > other.prefix.bits || (prefix.bits == other.prefix.bits && metric < other.metric))
    }
  }

  datatype Risk = Risk(alias: string, prefix: Prefix, interfaceIndex: nat, metric: nat)

  // Some destination of the route is not taken by any better connected route.
  ghost predicate WinsSomeDestination(route: Route, routes: seq<Route>) {
    exists target: nat :: WinsAt(route, routes, target)
  }

  ghost predicate WinsAt(route: Route, routes: seq<Route>, target: nat) {
    && target < Pow2(route.prefix.width)
    && route.prefix.Contains(route.prefix.width, target)
    && forall other | other in routes ::
         !(other.prefix.IsValid() && other.prefix.Contains(route.prefix.width, target) && other.Outranks(route))
  }

  predicate Overrides(other: Route, route: Route) {
    other.connected && other.prefix.Overlaps(route.prefix) && other.Outranks(route)
  }

  // A free block of full length is one winning destination, and conversely.
  lemma WinningIsAFreeAddress(route: Route, routes: seq<Route>, overrides: seq<Prefix>)
    requires route.prefix.IsValid()
    requires forall q :: q in overrides <==>
             exists other :: other in routes && Overrides(other, route) && other.prefix == q
    ensures WinsSomeDestination(route, routes) <==>
            exists block :: FreeBlock(route.prefix, route.prefix.width, overrides, block)
  {
    var pool, width := route.prefix, route.prefix.width;
    if block :| FreeBlock(pool, width, overrides, block) {
      var target := block.address;
      ContainsIsInterval(pool, target);
      TopOfFamily(pool);
      forall other | other in routes && other.prefix.IsValid() && other.prefix.Contains(width, target)
        ensures !Overrides(other, route) && other.prefix.Overlaps(pool)
      {
        ContainsIsInterval(other.prefix, target);
        OverlapIsInterval(other.prefix, pool);
        OverlapIsInterval(block, other.prefix);
        assert other.prefix !in overrides;
      }
      assert WinsAt(route, routes, target);
    }
    if target: nat :| WinsAt(route, routes, target) {
      var block := Prefix(width, target, width);
      ContainsIsInterval(pool, target);
      forall i | 0 <= i < |overrides|
        ensures !block.Overlaps(overrides[i])
      {
        assert overrides[i] in overrides;
        var other :| other in routes && Overrides(other, route) && other.prefix == overrides[i];
        if block.Overlaps(other.prefix) {
          OverlapIsInterval(block, other.prefix);
          ContainsIsInterval(other.prefix, target);
        }
      }
      assert FreeBlock(pool, width, overrides, block);
    }
  }

  method RouteWins(route: Route, routes: seq<Route>) returns (wins: bool)
    requires route.prefix.IsValid()
    ensures wins <==> WinsSomeDestination(route, routes)
  {
    var overrides: seq<Prefix> := [];
    for i := 0 to |routes|
      invariant forall q :: q in overrides <==>
                  exists other :: other in routes[..i] && Overrides(other, route) && other.prefix == q
    {
      var other := routes[i];
      if other.connected && other.prefix.Overlaps(route.prefix) {
        if other.prefix.bits > route.prefix.bits
           || (other.prefix.bits == route.prefix.bits && other.metric < route.metric) {
          overrides := overrides + [other.prefix];
        }
      }
      assert routes[..i + 1] == routes[..i] + [other];
    }
    assert routes[..|routes|] == routes;
    WinningIsAFreeAddress(route, routes, overrides);
    MaskedPool(route.prefix, route.prefix.width, overrides);
    var free := FindUnoccupiedPrefix(route.prefix.Masked(), route.prefix.width, overrides);
    wins := free.Some?;
  }

  ghost predicate NamesConflict(route: Route, routes: seq<Route>) {
    || (route.Broad() && route.OwnTun())
    || (route.Broad() && !route.OwnTun() && WinsSomeDestination(route, routes) && route.Tunnel())
  }

  ghost predicate IsRisk(route: Route, routes: seq<Route>) {
    && route.Broad() && !route.OwnTun() && WinsSomeDestination(route, routes)
    && (route.Tunnel() || !route.metadataKnown || !route.hardware)
  }

  function RiskOf(route: Route): Risk
    requires route.prefix.bits <= route.prefix.width
  {
    Risk(route.alias, route.prefix.Masked(), route.interfaceIndex, route.metric)
  }

  // The two reports as sets; the source returns them as sorted lists of text.
  method AssessNetworkRoutes(routes: seq<Route>) returns (aliases: set<string>, risks: set<Risk>)
    ensures forall alias :: alias in aliases <==>
              exists route :: route in routes && NamesConflict(route, routes) && route.alias == alias
    ensures forall risk :: risk in risks <==>
              exists route :: route in routes && IsRisk(route, routes) && RiskOf(route) == risk
  {
    aliases, risks := {}, {};
    for i := 0 to |routes|
      invariant forall alias :: alias in aliases <==>
                  exists route :: route in routes[..i] && route.Broad() && route.OwnTun() && route.alias == alias
    {
      var r := routes[i];
      if r.connected && r.prefix.IsValid() && r.prefix.bits <= 3 && r.OwnTun() {
        aliases := aliases + {r.alias};
      }
      assert routes[..i + 1] == routes[..i] + [r];
    }
    ghost var stale := aliases;
    assert routes[..|routes|] == routes;
    for i := 0 to |routes|
      invariant forall alias :: alias in aliases <==>
                  (alias in stale || exists route ::
                    route in routes[..i] && NamesConflict(route, routes) && !route.OwnTun() && route.alias == alias)
      invariant forall risk :: risk in risks <==>
                  exists route :: route in routes[..i] && IsRisk(route, routes) && RiskOf(route) == risk
    {
      var r := routes[i];
      assert routes[..i + 1] == routes[..i] + [r];
      if !r.connected || !r.prefix.IsValid() || r.prefix.bits > 3 || r.OwnTun() {
        continue;
      }
      var wins := RouteWins(r, routes);
      if !wins {
        continue;
      }
      if r.Tunnel() {
        aliases := aliases + {r.alias};
      }
      if r.Tunnel() || !r.metadataKnown || !r.hardware {
        risks := risks + {RiskOf(r)};
      }
    }
  }

  // ---- the address space a new subnet must not touch ----

  predicate Allocated(route: Route) {
    route.connected && !route.OwnTun() && route.prefix.IsValid() && route.prefix.bits > 1
  }

  // Defaults and split defaults describe reachability, not allocated space.
  method OccupiedRoutePrefixes(routes: seq<Route>) returns (occupied: seq<Prefix>)
    ensures forall block: Prefix | block.IsValid() ::
              Unoccupied(block, occupied) <==>
              forall route | route in routes && Allocated(route) :: !block.Overlaps(route.prefix)
  {
    occupied := [];
    for i := 0 to |routes|
      invariant forall q :: q in occupied <==> exists r :: r in routes[..i] && Allocated(r) && r.prefix.Masked() == q
    {
      var r := routes[i];
      assert routes[..i + 1] == routes[..i] + [r];
      if r.connected && !r.OwnTun() && r.prefix.IsValid() && r.prefix.bits > 1 {
        occupied := occupied + [r.prefix.Masked()];
      }
    }
    assert routes[..|routes|] == routes;
    forall block: Prefix | block.IsValid()
      ensures Unoccupied(block, occupied) <==>
              forall route | route in routes && Allocated(route) :: !block.Overlaps(route.prefix)
    {
      MaskingKeepsOverlap(block, routes, occupied);
    }
  }

  lemma MaskingKeepsOverlap(block: Prefix, routes: seq<Route>, occupied: seq<Prefix>)
    requires block.IsValid()
    requires forall q :: q in occupied <==> exists r :: r in routes && Allocated(r) && r.prefix.Masked() == q
    ensures Unoccupied(block, occupied) <==>
            forall route | route in routes && Allocated(route) :: !block.Overlaps(route.prefix)
  {
    forall r | r in routes && Allocated(r)
      ensures block.Overlaps(r.prefix) <==> block.Overlaps(r.prefix.Masked())
      ensures exists i :: 0 <= i < |occupied| && occupied[i] == r.prefix.Masked()
    {
      MaskedPrefix(r.prefix);
      if block.width == r.prefix.width {
        OverlapIsInterval(block, r.prefix);
        OverlapIsInterval(block, r.prefix.Masked());
      }
      assert r.prefix.Masked() in occupied;
    }
    forall i | 0 <= i < |occupied|
      ensures exists r :: r in routes && Allocated(r) && r.prefix.Masked() == occupied[i]
    {
      assert occupied[i] in occupied;
    }
  }
}
