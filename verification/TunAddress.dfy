/**
 tun_address.go: choosing a point-to-point subnet for the virtual adapter that
 overlaps nothing already in use. Machine words are 64-bit as in the source, so
 the sweep also shows that its cursor never overflows.
 */
module TunAddress {
  import opened Options
  import opened Prefixes
  import opened NetworkRoutes
  import opened Sorting

  newtype Word = x: int | 0 <= x < 0x1_0000_0000_0000_0000

  datatype Interval = Interval(first: Word, last: Word)

  function Ip4(a: nat, b: nat, c: nat, d: nat): nat {
    a * 0x100_0000 + b * 0x1_0000 + c * 0x100 + d
  }

  // ---- the preferred addresses ----

  function FixedIPv4Candidates(): seq<Prefix> {
    [Prefix(32, Ip4(172, 19, 0, 1), 30)]
    + seq(16, i requires 0 <= i < 16 => Prefix(32, Ip4(172, 16 + i, 255, 1), 30))
    + seq(256, i requires 0 <= i < 256 => Prefix(32, Ip4(10, 255 - i, 255, 1), 30))
  }

  // The pools of section 3 of RFC 1918, in the order they are searched.
  function PrivateIPv4Pools(): seq<Prefix> {
    [Prefix(32, Ip4(172, 16, 0, 0), 12), Prefix(32, Ip4(10, 0, 0, 0), 8), Prefix(32, Ip4(192, 168, 0, 0), 16)]
  }

  const TopGroups: nat := 0x1_0000_0000_0000_0000_0000 // 2^80: the five low groups of an IPv6 address

  function FixedIPv6Candidates(): seq<Prefix> {
    [Prefix(128, 0xfdfe_dcba_9876 * TopGroups + 1, 126)]
    + seq(255, i requires 0 <= i < 255 => Prefix(128, (0xfdfe_dcba_9877 + i) * TopGroups + 1, 126))
    + seq(256, i requires 0 <= i < 256 => Prefix(128, (0xfd00_dcba_9876 + i * 0x1_0000_0000) * TopGroups + 1, 126))
  }

  // fd00::/8, section 3.1 of RFC 4193.
  function LocalIPv6Pool(): Prefix {
    Prefix(128, 0xfd * 0x100_0000_0000 * TopGroups, 8)
  }

  // The address is written a.b.c.d.
  predicate IsWritten(address: nat, a: nat, b: nat, c: nat, d: nat) {
    a <= 255 && b <= 255 && c <= 255 && d <= 255 && address == 16_777_216 * a + 65_536 * b + 256 * c + d
  }

  // 172.19.0.1, then 172.16.255.1 to 172.31.255.1, then 10.255.255.1 down to
  // 10.0.255.1, each a /30.
  lemma PreferredIPv4(k: nat)
    requires k < 273
    ensures |FixedIPv4Candidates()| == 273
    ensures var c := FixedIPv4Candidates()[k];
            && c.width == 32 && c.bits == 30
            && (k == 0 ==> IsWritten(c.address, 172, 19, 0, 1))
            && (1 <= k <= 16 ==> IsWritten(c.address, 172, 15 + k, 255, 1))
            && (17 <= k ==> IsWritten(c.address, 10, 272 - k, 255, 1))
  {
  }

  // 172.16.0.0/12, 10.0.0.0/8 and 192.168.0.0/16, in this order.
  lemma PrivatePools()
    ensures var pools := PrivateIPv4Pools();
            && |pools| == 3 && (forall i | 0 <= i < 3 :: pools[i].width == 32)
            && IsWritten(pools[0].address, 172, 16, 0, 0) && pools[0].bits == 12
            && IsWritten(pools[1].address, 10, 0, 0, 0) && pools[1].bits == 8
            && IsWritten(pools[2].address, 192, 168, 0, 0) && pools[2].bits == 16
  {
  }

  // fdfe:dcba:9876::1 and its 255 successors in the third group, then
  // fd00:dcba:9876::1 to fdff:dcba:9876::1, each a /126 of fd00::/8.
  lemma PreferredIPv6(k: nat)
    requires k < 512
    ensures |FixedIPv6Candidates()| == 512
    ensures var c := FixedIPv6Candidates()[k];
            && c.width == 128 && c.bits == 126
            && c.address == if k < 256 then 0xfdfe_dcba_9876_0000_0000_0000_0000_0001 + k * 0x1_0000_0000_0000_0000_0000
                            else 0xfd00_dcba_9876_0000_0000_0000_0000_0001
                                 + (k - 256) * 0x1_0000_0000_0000_0000_0000_0000_0000
    ensures LocalIPv6Pool() == Prefix(128, 0xfd00_0000_0000_0000_0000_0000_0000_0000, 8)
  {
  }

  // The first candidate that overlaps nothing.
  method FirstUnoccupied(candidates: seq<Prefix>, occupied: seq<Prefix>) returns (index: Option<nat>)
    ensures index.Some? ==> index.value < |candidates| && Unoccupied(candidates[index.value], occupied)
    ensures forall i | 0 <= i < (if index.Some? then index.value else |candidates|) ::
              !Unoccupied(candidates[i], occupied)
  {
    for k := 0 to |candidates|
      invariant forall i | 0 <= i < k :: !Unoccupied(candidates[i], occupied)
    {
      var conflict := false;
      for j := 0 to |occupied|
        invariant !conflict
        invariant forall i | 0 <= i < j :: !candidates[k].Overlaps(occupied[i])
      {
        if candidates[k].Overlaps(occupied[j]) {
          conflict := true;
          break;
        }
      }
      if !conflict {
        return Some(k);
      }
    }
    return None;
  }

  // ---- powers of two that the address families use ----

  lemma {:induction false} Pow2Adds(m: nat, n: nat)
    ensures Pow2(m + n) == Pow2(m) * Pow2(n)
  {
    if m != 0 {
      Pow2Adds(m - 1, n);
      assert Pow2(m + n) == 2 * (Pow2(m - 1) * Pow2(n)) == (2 * Pow2(m - 1)) * Pow2(n);
    }
  }

  lemma FamilySizes()
    ensures Pow2(2) == 4
    ensures Pow2(16) == 0x1_0000 && Pow2(20) == 0x10_0000 && Pow2(24) == 0x100_0000
    ensures Pow2(32) == 0x1_0000_0000
  {
    assert Pow2(4) == 16;
    Pow2Adds(4, 4);
    Pow2Adds(8, 8);
    Pow2Adds(16, 4);
    Pow2Adds(16, 8);
    Pow2Adds(16, 16);
  }

  lemma {:induction false} FloorOfMultiple(k: nat, d: nat)
    requires d > 0
    ensures Floor(k * d, d) == k * d
  {
    if k > 0 {
      FloorOfMultiple(k - 1, d);
      assert k * d - d == (k - 1) * d;
      assert (k - 1) * d >= 0;
    }
  }

  lemma {:induction false} FloorOfFour(a: nat)
    ensures Floor(a, 4) == a - a % 4
  {
    if a >= 4 {
      FloorOfFour(a - 4);
    }
  }

  lemma {:induction false} FloorKeepsFours(a: nat, d: nat)
    requires d > 0 && d % 4 == 0
    ensures Floor(a, d) % 4 == 0
  {
    if a >= d {
      FloorKeepsFours(a - d, d);
      assert Floor(a, d) == d + Floor(a - d, d);
    }
  }

  lemma {:induction false} Pow2Grows(m: nat, n: nat)
    requires m <= n
    ensures Pow2(m) <= Pow2(n)
  {
    if m < n {
      Pow2Grows(m, n - 1);
    }
  }

  // ---- the interval sweep ----

  predicate Meets(u: Interval, base: int) {
    u.first as int <= base + 3 && base <= u.last as int
  }

  ghost predicate Clear(used: seq<Interval>, base: int) {
    forall i | 0 <= i < |used| :: !Meets(used[i], base)
  }

  predicate ByFirst(a: Interval, b: Interval) {
    a.first < b.first
  }

  ghost predicate Relevant(q: Prefix) {
    q.IsValid() && q.width == 32
  }

  ghost predicate SameRange(u: Interval, q: Prefix) {
    Relevant(q) && u.first as int == q.First() && u.last as int == q.Last()
  }

  // The intervals are exactly the valid IPv4 prefixes, in any order.
  ghost predicate IntervalsOf(used: seq<Interval>, occupied: seq<Prefix>) {
    && (forall u | u in used :: exists q :: q in occupied && SameRange(u, q))
    && (forall q | q in occupied && Relevant(q) :: exists u :: u in used && SameRange(u, q))
  }

  lemma ClearIsUnoccupied(used: seq<Interval>, occupied: seq<Prefix>, block: Prefix)
    requires IntervalsOf(used, occupied)
    requires block.IsValid() && block.width == 32 && block.bits == 30 && block.address == block.First()
    ensures Clear(used, block.address) <==> Unoccupied(block, occupied)
  {
    FamilySizes();
    if Clear(used, block.address) {
      forall i | 0 <= i < |occupied|
        ensures !block.Overlaps(occupied[i])
      {
        var q := occupied[i];
        if Relevant(q) {
          assert q in occupied;
          var u :| u in used && SameRange(u, q);
          OverlapIsInterval(block, q);
        }
      }
    }
    if Unoccupied(block, occupied) {
      forall i | 0 <= i < |used|
        ensures !Meets(used[i], block.address)
      {
        assert used[i] in used;
        var q :| q in occupied && SameRange(used[i], q);
        OverlapIsInterval(block, q);
      }
    }
  }

  method CollectIntervals(occupied: seq<Prefix>) returns (used: seq<Interval>)
    ensures IntervalsOf(used, occupied)
    ensures forall u | u in used :: u.last < 0x1_0000_0000
    ensures Ordered(ByFirst, used)
  {
    FamilySizes();
    used := [];
    for i := 0 to |occupied|
      invariant IntervalsOf(used, occupied[..i])
      invariant forall u | u in used :: u.last < 0x1_0000_0000
    {
      var existing := occupied[i];
      assert occupied[..i + 1] == occupied[..i] + [existing];
      if !existing.IsValid() || existing.width != 32 {
        continue;
      }
      TopOfFamily(existing);
      Pow2Grows(32 - existing.bits, 32);
      var first := existing.Masked().address as Word;
      var u := Interval(first, first + Pow2(32 - existing.bits) as Word - 1);
      assert SameRange(u, existing);
      used := used + [u];
    }
    assert occupied[..|occupied|] == occupied;
    SortPermutes(ByFirst, used);
    SortOrders(ByFirst, used);
    used := StableSort(ByFirst, used);
  }

  // Multiples of four are the aligned point-to-point blocks: /30 or /126.
  lemma AlignedBlock(width: nat, base: nat)
    requires width >= 2 && base < Pow2(width)
    ensures var block := Prefix(width, base, width - 2);
            block.IsValid() && (block.First() == base <==> base % 4 == 0) &&
            (base % 4 == 0 ==> block.Last() == base + 3)
  {
    assert Pow2(2) == 4;
    FloorOfFour(base);
  }

  // Skipping one reserved interval skips no clear block.
  lemma SkipReserved(used: seq<Interval>, i: nat, cursor: int)
    requires i < |used|
    requires used[i].first as int <= cursor + 3
    ensures forall b | cursor <= b <= used[i].last as int :: !Clear(used, b)
  {
  }

  // Where the sweep stops, everything before lies below and the rest above.
  lemma StoppedClear(used: seq<Interval>, i: nat, cursor: int)
    requires i <= |used| && Ordered(ByFirst, used)
    requires forall j | 0 <= j < i :: used[j].last as int < cursor
    requires i < |used| ==> used[i].first as int > cursor + 3
    ensures Clear(used, cursor)
  {
  }

  // The next multiple of four above the end of an interval.
  function NextAligned(last: Word): (r: Word)
    requires last < 0x1_0000_0000
    ensures r % 4 == 0 && last < r <= last + 4 && r <= 0x1_0000_0000
  {
    last + 4 - (last + 4) % 4
  }

  ghost predicate PointToPointPool(pool: Prefix) {
    pool.width >= 2 && Searchable(pool, pool.width - 2) && pool.address == pool.First()
  }

  ghost predicate SweptPool(pool: Prefix) {
    PointToPointPool(pool) && pool.width == 32
  }

  // The lowest clear block of one pool; None exactly when no block is clear.
  method SweepPool(pool: Prefix, used: seq<Interval>, ghost occupied: seq<Prefix>) returns (base: Option<Word>)
    requires SweptPool(pool)
    requires IntervalsOf(used, occupied) && Ordered(ByFirst, used)
    requires forall u | u in used :: u.last < 0x1_0000_0000
    ensures base.Some? ==> LowestFreeBlock(pool, 30, occupied, Prefix(32, base.value as int, 30))
    ensures base.None? ==> forall block :: !FreeBlock(pool, 30, occupied, block)
  {
    SweptBounds(pool);
    var start := pool.address as Word;
    var limit := start + pool.Size() as Word;
    var cursor := SweepIntervals(used, start, limit);
    SweepResult(pool, used, occupied, cursor as int);
    base := if cursor + 4 <= limit then Some(cursor) else None;
  }

  method SweepIntervals(used: seq<Interval>, start: Word, limit: Word) returns (cursor: Word)
    requires start <= limit <= 0x1_0000_0000 && start % 4 == 0
    requires Ordered(ByFirst, used)
    requires forall u | u in used :: u.last < 0x1_0000_0000
    ensures start <= cursor <= 0x1_0000_0000 && cursor % 4 == 0
    ensures forall b | start as int <= b < cursor as int && b % 4 == 0 :: !Clear(used, b)
    ensures cursor + 4 <= limit ==> Clear(used, cursor as int)
  {
    cursor := start;
    var i := 0;
    while i < |used|
      invariant 0 <= i <= |used|
      invariant start <= cursor <= 0x1_0000_0000 && cursor % 4 == 0
      invariant forall j | 0 <= j < i :: used[j].last < cursor
      invariant forall b | start as int <= b < cursor as int && b % 4 == 0 :: !Clear(used, b)
    {
      var reserved := used[i];
      assert reserved in used;
      if reserved.last < cursor {
        i := i + 1;
        continue;
      }
      if reserved.first > cursor + 3 || cursor + 4 > limit {
        break;
      }
      SkipReserved(used, i, cursor as int);
      cursor := NextAligned(reserved.last);
      i := i + 1;
    }
    if cursor + 4 <= limit {
      StoppedClear(used, i, cursor as int);
    }
  }

  // A pool of point-to-point blocks starts and ends on multiples of four.
  lemma PoolBounds(pool: Prefix)
    requires PointToPointPool(pool)
    ensures pool.address + Pow2(pool.width - pool.bits) <= Pow2(pool.width)
    ensures pool.address % 4 == 0 && Pow2(pool.width - pool.bits) % 4 == 0
    ensures pool.Last() + 1 == pool.address + Pow2(pool.width - pool.bits)
  {
    TopOfFamily(pool);
    assert Pow2(pool.width - pool.bits) == 2 * (2 * Pow2(pool.width - 2 - pool.bits));
    FloorKeepsFours(pool.address, pool.Size());
  }

  lemma SweptBounds(pool: Prefix)
    requires SweptPool(pool)
    ensures pool.address + pool.Size() <= 0x1_0000_0000
    ensures pool.address % 4 == 0
  {
    PoolBounds(pool);
    FamilySizes();
  }

  // What the cursor's final position says about the free blocks of the pool.
  lemma SweepResult(pool: Prefix, used: seq<Interval>, occupied: seq<Prefix>, cursor: nat)
    requires SweptPool(pool) && IntervalsOf(used, occupied)
    requires pool.address <= cursor && cursor % 4 == 0
    requires forall b | pool.address <= b < cursor && b % 4 == 0 :: !Clear(used, b)
    requires cursor + 4 <= pool.address + pool.Size() ==> Clear(used, cursor)
    ensures cursor + 4 <= pool.address + pool.Size() ==> LowestFreeBlock(pool, 30, occupied, Prefix(32, cursor, 30))
    ensures cursor + 4 > pool.address + pool.Size() ==> forall block :: !FreeBlock(pool, 30, occupied, block)
  {
    if cursor + 4 <= pool.address + pool.Size() {
      LowestClearBlock(pool, used, occupied, cursor);
    } else {
      NoClearBlock(pool, used, occupied, cursor);
    }
  }

  lemma LowestClearBlock(pool: Prefix, used: seq<Interval>, occupied: seq<Prefix>, cursor: nat)
    requires SweptPool(pool)
    requires IntervalsOf(used, occupied)
    requires pool.address <= cursor && cursor + 3 <= pool.Last() && cursor % 4 == 0 && Clear(used, cursor)
    requires forall b | pool.address <= b < cursor && b % 4 == 0 :: !Clear(used, b)
    ensures LowestFreeBlock(pool, 30, occupied, Prefix(32, cursor, 30))
  {
    FamilySizes();
    TopOfFamily(pool);
    var block := Prefix(32, cursor, 30);
    AlignedBlock(32, cursor);
    ClearIsUnoccupied(used, occupied, block);
    forall other | FreeBlock(pool, 30, occupied, other)
      ensures cursor <= other.address
    {
      AlignedBlock(32, other.address);
      ClearIsUnoccupied(used, occupied, other);
    }
  }

  lemma NoClearBlock(pool: Prefix, used: seq<Interval>, occupied: seq<Prefix>, cursor: nat)
    requires SweptPool(pool)
    requires IntervalsOf(used, occupied)
    requires cursor + 3 > pool.Last()
    requires forall b | pool.address <= b < cursor && b % 4 == 0 :: !Clear(used, b)
    ensures forall block :: !FreeBlock(pool, 30, occupied, block)
  {
    FamilySizes();
    forall block: Prefix | block.IsValid() && block.width == 32 && block.bits == 30
                   && block.address == block.First() && Inside(block, pool)
      ensures !Unoccupied(block, occupied)
    {
      AlignedBlock(32, block.address);
      ClearIsUnoccupied(used, occupied, block);
    }
  }

  // ---- the two selectors ----

  ghost predicate HostOne(block: Prefix, address: Option<nat>) {
    address == Some(block.address + 1)
  }

  // Host one of a free, aligned block of some pool.
  ghost predicate InSomePool(pools: seq<Prefix>, bits: nat, occupied: seq<Prefix>, address: Option<nat>) {
    exists k, block :: 0 <= k < |pools| && FreeBlock(pools[k], bits, occupied, block) && HostOne(block, address)
  }

  ghost predicate PoolsAreFull(pools: seq<Prefix>, bits: nat, occupied: seq<Prefix>) {
    forall k, block | 0 <= k < |pools| :: !FreeBlock(pools[k], bits, occupied, block)
  }

  // Host one of the lowest free block of the first pool that has one.
  ghost predicate LowestInPools(pools: seq<Prefix>, bits: nat, occupied: seq<Prefix>, address: Option<nat>) {
    exists k, block :: 0 <= k < |pools|
      && LowestFreeBlock(pools[k], bits, occupied, block) && HostOne(block, address)
      && PoolsAreFull(pools[..k], bits, occupied)
  }

  ghost predicate FirstPreferred(candidates: seq<Prefix>, k: nat, occupied: seq<Prefix>) {
    && k < |candidates| && Unoccupied(candidates[k], occupied)
    && forall i | 0 <= i < k :: !Unoccupied(candidates[i], occupied)
  }

  ghost predicate NonePreferred(candidates: seq<Prefix>, occupied: seq<Prefix>) {
    forall i | 0 <= i < |candidates| :: !Unoccupied(candidates[i], occupied)
  }

  method SweepPools(pools: seq<Prefix>, occupied: seq<Prefix>) returns (address: Option<nat>)
    requires forall p | p in pools :: SweptPool(p)
    ensures address.Some? ==> LowestInPools(pools, 30, occupied, address)
    ensures address.None? ==> PoolsAreFull(pools, 30, occupied)
  {
    var used := CollectIntervals(occupied);
    for k := 0 to |pools|
      invariant PoolsAreFull(pools[..k], 30, occupied)
    {
      assert pools[k] in pools && SweptPool(pools[k]);
      var base := SweepPool(pools[k], used, occupied);
      if base.Some? {
        ghost var block := Prefix(32, base.value as int, 30);
        address := Some(base.value as int + 1);
        assert HostOne(block, address);
        return;
      }
      assert pools[..k + 1] == pools[..k] + [pools[k]];
    }
    assert pools[..|pools|] == pools;
    return None;
  }

  lemma LowestIsFree(pools: seq<Prefix>, bits: nat, occupied: seq<Prefix>, address: Option<nat>)
    requires LowestInPools(pools, bits, occupied, address)
    ensures InSomePool(pools, bits, occupied, address) && !PoolsAreFull(pools, bits, occupied)
  {
  }

  // The first preferred address that is free, else the lowest free block of the
  // pools in order. None exactly when no pool has a free block.
  ghost predicate Selects(
    candidates: seq<Prefix>, pools: seq<Prefix>, bits: nat, occupied: seq<Prefix>, address: Option<nat>)
  {
    && (address.Some? ==> InSomePool(pools, bits, occupied, address))
    && (address.None? <==> PoolsAreFull(pools, bits, occupied))
    && (forall k: nat | FirstPreferred(candidates, k, occupied) :: address == Some(candidates[k].address))
    && (NonePreferred(candidates, occupied) && address.Some? ==> LowestInPools(pools, bits, occupied, address))
  }

  method SelectIPv4From(candidates: seq<Prefix>, pools: seq<Prefix>, occupied: seq<Prefix>)
    returns (address: Option<nat>)
    requires forall p | p in pools :: SweptPool(p)
    requires forall c | c in candidates :: exists p :: p in pools && HostIn(p, c)
    ensures Selects(candidates, pools, 30, occupied, address)
  {
    var preferred := FirstUnoccupied(candidates, occupied);
    if preferred.Some? {
      var c := candidates[preferred.value];
      assert c in candidates;
      HostOneOfFreeBlock(pools, c, occupied);
      return Some(c.address);
    }
    address := SweepPools(pools, occupied);
    if address.Some? {
      LowestIsFree(pools, 30, occupied, address);
    }
  }

  method SelectTunIPv4Address(occupied: seq<Prefix>) returns (address: Option<nat>)
    ensures Selects(FixedIPv4Candidates(), PrivateIPv4Pools(), 30, occupied, address)
  {
    PoolsAreSearchable();
    CandidatesInPools();
    address := SelectIPv4From(FixedIPv4Candidates(), PrivateIPv4Pools(), occupied);
  }

  lemma AlignedPool(width: nat, k: nat, bits: nat)
    requires bits + 2 <= width && k * Pow2(width - bits) < Pow2(width)
    ensures PointToPointPool(Prefix(width, k * Pow2(width - bits), bits))
  {
    FloorOfMultiple(k, Pow2(width - bits));
  }

  lemma PoolsAreSearchable()
    ensures forall p | p in PrivateIPv4Pools() :: SweptPool(p)
  {
    PoolIsSwept(0xac1, 12, Ip4(172, 16, 0, 0));
    PoolIsSwept(10, 8, Ip4(10, 0, 0, 0));
    PoolIsSwept(0xc0a8, 16, Ip4(192, 168, 0, 0));
  }

  lemma PoolIsSwept(k: nat, bits: nat, address: nat)
    requires bits in {8, 12, 16} && address < 0x1_0000_0000
    requires address == k * (match bits case 8 => 0x100_0000 case 12 => 0x10_0000 case _ => 0x1_0000)
    ensures SweptPool(Prefix(32, address, bits))
  {
    FamilySizes();
    AlignedPool(32, k, bits);
  }

  // A host-one address of an aligned point-to-point block inside the pool.
  ghost predicate HostIn(pool: Prefix, c: Prefix) {
    && PointToPointPool(pool)
    && c.width == pool.width && c.bits == pool.width - 2 && c.address % 4 == 1
    && pool.address < c.address < pool.address + Pow2(pool.width - pool.bits)
  }

  lemma CandidatesInPools()
    ensures forall c | c in FixedIPv4Candidates() :: exists p :: p in PrivateIPv4Pools() && HostIn(p, c)
  {
    FamilySizes();
    PoolsAreSearchable();
    var pools := PrivateIPv4Pools();
    forall c | c in FixedIPv4Candidates()
      ensures exists p :: p in pools && HostIn(p, c)
    {
      var k :| 0 <= k < |FixedIPv4Candidates()| && FixedIPv4Candidates()[k] == c;
      CandidateAddress(k);
      assert pools[0] in pools && pools[1] in pools;
      assert HostIn(if k < 17 then pools[0] else pools[1], c);
    }
  }

  lemma CandidateAddress(k: nat)
    requires k < |FixedIPv4Candidates()|
    ensures var c := FixedIPv4Candidates()[k];
            && c.width == 32 && c.bits == 30 && c.address % 4 == 1
            && (k < 17 ==> Ip4(172, 16, 0, 0) < c.address < Ip4(172, 16, 0, 0) + 0x10_0000)
            && (k >= 17 ==> Ip4(10, 0, 0, 0) < c.address < Ip4(10, 0, 0, 0) + 0x100_0000)
  {
  }

  lemma HostOneOfFreeBlock(pools: seq<Prefix>, c: Prefix, occupied: seq<Prefix>)
    requires Unoccupied(c, occupied)
    requires exists p :: p in pools && HostIn(p, c)
    ensures InSomePool(pools, c.bits, occupied, Some(c.address)) && !PoolsAreFull(pools, c.bits, occupied)
  {
    var p :| p in pools && HostIn(p, c);
    var k :| 0 <= k < |pools| && pools[k] == p;
    var block := FreeBlockOfHost(p, c, occupied);
    assert HostOne(block, Some(c.address));
  }

  lemma FreeBlockOfHost(pool: Prefix, c: Prefix, occupied: seq<Prefix>) returns (block: Prefix)
    requires HostIn(pool, c) && Unoccupied(c, occupied)
    ensures FreeBlock(pool, c.bits, occupied, block) && block.address + 1 == c.address
  {
    HostBounds(pool, c);
    HostBlock(c);
    block := Prefix(c.width, c.address - 1, c.bits);
    SameBlockOverlaps(c, block, occupied);
  }

  lemma HostBounds(pool: Prefix, c: Prefix)
    requires HostIn(pool, c)
    ensures c.address < Pow2(c.width) && pool.address <= c.address - 1 && c.address + 2 <= pool.Last()
  {
    PoolBounds(pool);
    WholeBlockFits(pool.address, Pow2(pool.width - pool.bits), c.address);
  }

  lemma HostBlock(c: Prefix)
    requires c.width >= 2 && c.bits == c.width - 2 && c.address % 4 == 1 && c.address < Pow2(c.width)
    ensures var block := Prefix(c.width, c.address - 1, c.bits);
            && c.IsValid() && block.IsValid()
            && c.First() == block.First() == block.address && block.Last() == block.address + 3
  {
    assert Pow2(2) == 4;
    FloorOfFour(c.address);
    FloorOfFour(c.address - 1);
  }

  lemma WholeBlockFits(start: nat, size: nat, host: nat)
    requires start % 4 == 0 && size % 4 == 0 && host % 4 == 1 && start < host < start + size
    ensures host + 2 < start + size
  {
  }

  // ---- IPv6 ----

  lemma IPv6Sizes()
    ensures Pow2(120) == 0x100_0000_0000 * TopGroups
    ensures Pow2(128) == 0x100 * Pow2(120)
  {
    FamilySizes();
    Pow2Adds(32, 32);
    Pow2Adds(64, 32);
    Pow2Adds(96, 24);
    assert Pow2(8) == 256 by { assert Pow2(4) == 16; Pow2Adds(4, 4); }
    Pow2Adds(8, 120);
  }

  lemma LocalPoolIsAligned()
    ensures PointToPointPool(LocalIPv6Pool())
  {
    IPv6Sizes();
    AlignedPool(128, 0xfd, 8);
  }

  lemma IPv6CandidatesInPool()
    ensures forall c | c in FixedIPv6Candidates() :: HostIn(LocalIPv6Pool(), c)
  {
    var candidates := FixedIPv6Candidates();
    forall c | c in candidates
      ensures HostIn(LocalIPv6Pool(), c)
    {
      var k :| 0 <= k < |candidates| && candidates[k] == c;
      IPv6CandidateIsHost(k);
    }
  }

  lemma IPv6CandidateIsHost(k: nat)
    requires k < |FixedIPv6Candidates()|
    ensures HostIn(LocalIPv6Pool(), FixedIPv6Candidates()[k])
  {
    IPv6Sizes();
    LocalPoolIsAligned();
    IPv6CandidateAddress(k);
  }

  lemma IPv6CandidateAddress(k: nat)
    requires k < |FixedIPv6Candidates()|
    ensures var c := FixedIPv6Candidates()[k];
            && c.width == 128 && c.bits == 126 && c.address % 4 == 1
            && LocalIPv6Pool().address < c.address < LocalIPv6Pool().address + 0x100_0000_0000 * TopGroups
  {
  }

  method SelectTunIPv6Address(occupied: seq<Prefix>) returns (address: Option<nat>)
    ensures Selects(FixedIPv6Candidates(), [LocalIPv6Pool()], 126, occupied, address)
  {
    LocalPoolIsAligned();
    IPv6CandidatesInPool();
    address := SelectIPv6From(FixedIPv6Candidates(), LocalIPv6Pool(), occupied);
  }

  method SelectIPv6From(candidates: seq<Prefix>, pool: Prefix, occupied: seq<Prefix>) returns (address: Option<nat>)
    requires PointToPointPool(pool) && pool.width == 128
    requires forall c | c in candidates :: HostIn(pool, c)
    ensures Selects(candidates, [pool], 126, occupied, address)
  {
    var preferred := FirstUnoccupied(candidates, occupied);
    if preferred.Some? {
      var c := candidates[preferred.value];
      assert c in candidates && pool in [pool];
      HostOneOfFreeBlock([pool], c, occupied);
      return Some(c.address);
    }
    var free := FindUnoccupiedPrefix(pool, 126, occupied);
    if free.None? {
      return None;
    }
    address := Some(free.value.address + 1);
    assert HostOne(free.value, address) && [pool][0] == pool;
    assert LowestFreeBlock([pool][0], 126, occupied, free.value);
    LowestIsFree([pool], 126, occupied, address);
  }

  // Two prefixes of one block overlap the same prefixes.
  lemma SameBlockOverlaps(c: Prefix, block: Prefix, occupied: seq<Prefix>)
    requires c.IsValid() && block.IsValid() && c.width == block.width && c.bits == block.bits
    requires c.First() == block.First()
    ensures Unoccupied(c, occupied) <==> Unoccupied(block, occupied)
  {
    forall i | 0 <= i < |occupied|
      ensures c.Overlaps(occupied[i]) <==> block.Overlaps(occupied[i])
    {
      if occupied[i].IsValid() && occupied[i].width == c.width {
        OverlapIsInterval(c, occupied[i]);
        OverlapIsInterval(block, occupied[i]);
      }
    }
  }

  // Where nothing is in use, the historical addresses are selected.
  lemma IdleMachineIPv4(address: Option<nat>)
    requires Selects(FixedIPv4Candidates(), PrivateIPv4Pools(), 30, [], address)
    ensures address.Some? && IsWritten(address.value, 172, 19, 0, 1)
  {
    PreferredIPv4(0);
    assert FirstPreferred(FixedIPv4Candidates(), 0, []);
  }

  lemma IdleMachineIPv6(address: Option<nat>)
    requires Selects(FixedIPv6Candidates(), [LocalIPv6Pool()], 126, [], address)
    ensures address == Some(0xfdfe_dcba_9876_0000_0000_0000_0000_0001)
  {
    PreferredIPv6(0);
    assert FirstPreferred(FixedIPv6Candidates(), 0, []);
  }

  // The sweep and the tree search agree on every pool: both return the one
  // lowest free block, or both return nothing.
  method SweepAgreesWithTreeSearch(pool: Prefix, occupied: seq<Prefix>)
    returns (bySweep: Option<Prefix>, byTree: Option<Prefix>)
    requires SweptPool(pool)
    ensures bySweep == byTree
    ensures bySweep.Some? ==> LowestFreeBlock(pool, 30, occupied, bySweep.value)
  {
    var used := CollectIntervals(occupied);
    var base := SweepPool(pool, used, occupied);
    bySweep := if base.Some? then Some(Prefix(32, base.value as int, 30)) else None;
    byTree := FindUnoccupiedPrefix(pool, 30, occupied);
    if bySweep.Some? && byTree.Some? {
      LowestFreeBlockIsUnique(pool, 30, occupied, bySweep.value, byTree.value);
    }
  }
}
