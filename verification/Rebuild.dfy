/** What the rebuilt process is: the bytes of the scan, and the very address space that was scanned. */
module Rebuilds {
  import opened Options
  import opened PageBytes
  import opened RegionModel
  import opened AllocationModel
  import opened ProcessMemory
  import opened MemoryTimeline
  import opened MemoryReads
  import opened MemoryClasses
  import opened AddressSpaces
  import opened MemoryManagers

  // ---- scans of an address space -----------------------------------------------------------------------------------

  /** Every region of the scan is one of the space's, and they are in address order. */
  ghost predicate TakenFrom(scan: Scan, space: Space) {
    && (forall info :: info in scan ==> Uniform(space, info.mbi) && BytesMatch(info))
    && Ordered(scan)
  }

  predicate BytesMatch(info: RegionInfo) {
    |info.memory| == if info.mbi.state == MemCommit then info.mbi.size else 0
  }

  ghost predicate Ordered(scan: Scan) {
    forall i, j :: 0 <= i < j < |scan| ==> scan[i].mbi.base + scan[i].mbi.size <= scan[j].mbi.base
  }

  ghost predicate InOrder(queries: seq<Mbi>) {
    forall i, j :: 0 <= i < j < |queries| ==> queries[i].base + queries[i].size <= queries[j].base
  }

  /** The regions of a scan are the listed ones that are not skipped, in order. */
  lemma {:induction false} ScanOfQueries(memory: Bytes, queries: seq<Mbi>, blacklist: seq<nat>)
    requires InOrder(queries)
    ensures var scan := ScanOf(memory, queries, blacklist);
      Ordered(scan) && forall info :: info in scan ==> info.mbi in queries && !Skipped(info.mbi.base, blacklist) && BytesMatch(info)
    ensures forall m :: m in queries && !Skipped(m.base, blacklist) ==> Includes(ScanOf(memory, queries, blacklist), m)
  {
    hide Skipped, Ordered, Includes;
    if queries == [] {
      NothingListed();
    } else {
      var n := |queries| - 1;
      assert queries == queries[..n] + [queries[n]];
      var rest, m := ScanOf(memory, queries[..n], blacklist), queries[n];
      ScanOfQueries(memory, queries[..n], blacklist);
      forall info | info in rest ensures info.mbi.base + info.mbi.size <= m.base {
        var i :| 0 <= i < n && queries[i] == info.mbi;
      }
      NextListed(rest, RegionInfo(m, if m.state == MemCommit then ReadBytes(memory, m.base, m.size) else []));
    }
  }

  lemma NothingListed()
    ensures Ordered([])
  {
  }

  lemma NextListed(rest: Scan, info: RegionInfo)
    requires Ordered(rest) && forall x :: x in rest ==> x.mbi.base + x.mbi.size <= info.mbi.base
    ensures Ordered(rest + [info]) && Includes(rest + [info], info.mbi)
    ensures forall m :: Includes(rest, m) ==> Includes(rest + [info], m)
  {
    var scan := rest + [info];
    assert scan[|rest|] == info;
    forall i | 0 <= i < |rest| ensures scan[i] == rest[i] && rest[i] in rest {
    }
  }

  ghost predicate Includes(scan: Scan, m: Mbi) {
    exists i :: 0 <= i < |scan| && scan[i].mbi == m
  }

  lemma ScanIsTaken(p: Process, top: nat, blacklist: seq<nat>)
    ensures TakenFrom(ScanOf(p.memory, Queries(p.space, 0, top), blacklist), p.space)
  {
    var queries := Queries(p.space, 0, top);
    QueriesInOrder(p.space, top);
    forall i | 0 <= i < |queries| ensures Uniform(p.space, queries[i]) {
      QueriedRegion(p.space, 0, top, i);
    }
    ScanOfQueries(p.memory, queries, blacklist);
  }

  /** Only whole allocations are skipped, and not the null page. */
  ghost predicate SkipsWhole(space: Space, top: nat, blacklist: seq<nat>) {
    !Skipped(0, blacklist)
    && forall m :: m in Queries(space, 0, top) && m.state != MemFree && Skipped(m.allocBase, blacklist) ==> Skipped(m.base, blacklist)
  }

  lemma SamePage(x: nat)
    requires x % PAGE_SIZE != 0
    ensures x - x % PAGE_SIZE == (x - 1) - (x - 1) % PAGE_SIZE
  {
  }

  lemma RunEndPaged(space: Space, lo: nat, top: nat)
    requires lo < top && top % PAGE_SIZE == 0 && Paged(space)
    ensures RunEnd(space, lo, top) % PAGE_SIZE == 0
  {
    var end := RunEnd(space, lo, top);
    assert AttrAt(space, end) == AttrAt(space, end - end % PAGE_SIZE);
    assert AttrAt(space, end - 1) == AttrAt(space, (end - 1) - (end - 1) % PAGE_SIZE);
    if end % PAGE_SIZE != 0 {
      SamePage(end);
    }
  }

  lemma QueryPaged(space: Space, lo: nat, top: nat)
    requires lo < top && top % PAGE_SIZE == 0 && lo % PAGE_SIZE == 0 && Paged(space)
    ensures var size := Query(space, lo, top).size; size % PAGE_SIZE == 0 && (lo + size) % PAGE_SIZE == 0
  {
    hide Paged;
    RunEndPaged(space, lo, top);
    WholePages(lo, RunEnd(space, lo, top));
  }

  lemma WholePages(lo: nat, end: nat)
    requires lo % PAGE_SIZE == 0 && end % PAGE_SIZE == 0
    ensures (end - lo) % PAGE_SIZE == 0
  {
  }

  lemma {:induction false} QueriesPaged(space: Space, lo: nat, top: nat)
    requires top % PAGE_SIZE == 0 && lo % PAGE_SIZE == 0 && Paged(space)
    ensures forall m :: m in Queries(space, lo, top) ==> m.size % PAGE_SIZE == 0
    decreases top - lo
  {
    if lo < top {
      hide Paged, Query;
      QueryPaged(space, lo, top);
      QueriesPaged(space, lo + Query(space, lo, top).size, top);
    }
  }

  /** The answer at an allocation's base starts there. */
  lemma BaseIsQueried(space: Space, top: nat, a: nat) returns (m: Mbi)
    requires OkSpace(space, top) && a in space && space[a].allocBase == a
    ensures m in Queries(space, 0, top) && m.base == a && AttrOf(m) == space[a]
  {
    var i := QueriedAddress(space, 0, top, a);
    QueriedRegion(space, 0, top, i);
    m := Queries(space, 0, top)[i];
    assert Within(m, m.base) && AttrAt(space, a) == AttrOf(m);
    SolidBelow(space, m.base);
  }

  lemma EarlierIn(scan: Scan, i: nat, k: nat)
    requires Ordered(scan) && i < |scan| && k < |scan| && scan[k].mbi.base <= scan[i].mbi.base && scan[i].mbi.size > 0
    ensures k <= i
  {
  }

  /** A scan lists each region once with all its bytes, and each allocation from its base on. */
  lemma ScanIsGood(p: Process, top: nat, blacklist: seq<nat>)
    requires OkSpace(p.space, top) && top > 0 && SkipsWhole(p.space, top, blacklist)
    ensures var scan := ScanOf(p.memory, Queries(p.space, 0, top), blacklist); ProperScan(scan) && Headed(scan)
  {
    var queries := Queries(p.space, 0, top);
    var scan := ScanOf(p.memory, queries, blacklist);
    ScanIsTaken(p, top, blacklist);
    QueriesInOrder(p.space, top);
    ScanOfQueries(p.memory, queries, blacklist);
    QueriesPaged(p.space, 0, top);
    hide OkSpace, SkipsWhole, Skipped, TakenFrom, Queries, ScanOf, HasHead, ProperScan, Includes;
    TakenIsProper(scan, p.space);
    forall i: nat | i < |scan| ensures HasHead(scan, i) {
      HeadListed(p.space, top, blacklist, scan, i);
    }
  }

  lemma TakenIsProper(scan: Scan, space: Space)
    requires TakenFrom(scan, space) && forall info :: info in scan ==> info.mbi.size % PAGE_SIZE == 0
    ensures ProperScan(scan)
  {
    forall i | 0 <= i < |scan| ensures Sound(scan[i]) && scan[i].mbi.size > 0 {
      assert scan[i] in scan;
    }
  }

  lemma QueriesInOrder(space: Space, top: nat)
    ensures InOrder(Queries(space, 0, top))
  {
    forall i | 0 <= i < |Queries(space, 0, top)|
      ensures var ms := Queries(space, 0, top); forall j :: i < j < |ms| ==> ms[i].base + ms[i].size <= ms[j].base
    {
      QueriedRegion(space, 0, top, i);
    }
  }

  lemma HeadListed(space: Space, top: nat, blacklist: seq<nat>, scan: Scan, i: nat)
    requires OkSpace(space, top) && top > 0 && SkipsWhole(space, top, blacklist)
    requires TakenFrom(scan, space) && i < |scan|
    requires forall info :: info in scan ==> info.mbi in Queries(space, 0, top) && !Skipped(info.mbi.base, blacklist)
    requires forall m :: m in Queries(space, 0, top) && !Skipped(m.base, blacklist) ==> Includes(scan, m)
    ensures HasHead(scan, i)
  {
    hide Paged, Skipped;
    var info, m := scan[i], Query(space, 0, top);
    assert info in scan && Within(info.mbi, info.mbi.base);
    if IsLive(info) {
      SolidBelow(space, info.mbi.base);
      m := BaseIsQueried(space, top, info.mbi.allocBase);
    } else {
      assert Queries(space, 0, top)[0] == m;
      FreeBase(space, top, info.mbi);
    }
    assert Includes(scan, m);
    var k :| 0 <= k < |scan| && scan[k].mbi == m;
    EarlierIn(scan, i, k);
    assert HeadOf(scan, i, k);
  }

  lemma FreeBase(space: Space, top: nat, m: Mbi)
    requires NoneFree(space) && Uniform(space, m) && m.state == MemFree
    ensures m.allocBase == 0
  {
    assert Within(m, m.base);
  }

  // ---- bytes ---------------------------------------------------------------------------------------------------------

  /** The debuggee holds the region's bytes at its base. */
  ghost predicate Holds(memory: Bytes, info: RegionInfo) {
    forall k :: 0 <= k < |info.memory| ==> ByteAt(memory, info.mbi.base + k) == info.memory[k]
  }

  predicate Apart(x: RegionInfo, y: RegionInfo) {
    x.mbi.base + |x.memory| <= y.mbi.base || y.mbi.base + |y.memory| <= x.mbi.base
  }

  ghost predicate ScanApart(scan: Scan) {
    forall i, j :: 0 <= i < j < |scan| ==> Apart(scan[i], scan[j])
  }

  lemma TakenIsApart(scan: Scan, space: Space)
    requires TakenFrom(scan, space)
    ensures ScanApart(scan)
  {
    forall i | 0 <= i < |scan| ensures |scan[i].memory| <= scan[i].mbi.size {
      assert scan[i] in scan;
    }
  }

  lemma WriteHolds(memory: Bytes, info: RegionInfo, other: RegionInfo)
    ensures Holds(WriteBytes(memory, info.mbi.base, info.memory), info)
    ensures Apart(info, other) && Holds(memory, other) ==> Holds(WriteBytes(memory, info.mbi.base, info.memory), other)
  {
  }

  /** An address outside every region with bytes. */
  ghost predicate Untouched(scan: Scan, x: nat) {
    forall info :: info in scan ==> !(info.mbi.base <= x < info.mbi.base + |info.memory|)
  }

  /** What held stays held, and no address outside the scan changes. */
  ghost predicate Safe(scan: Scan, before: Bytes, after: Bytes) {
    && (forall info :: info in scan && Holds(before, info) ==> Holds(after, info))
    && (forall x: nat :: Untouched(scan, x) ==> ByteAt(after, x) == ByteAt(before, x))
  }

  ghost predicate AllHold(memory: Bytes, regions: seq<RegionInfo>) {
    forall info :: info in regions && info.mbi.state == MemCommit ==> Holds(memory, info)
  }

  /** Writing one region of a scan disturbs no other. */
  lemma WriteIsSafe(memory: Bytes, scan: Scan, info: RegionInfo)
    requires ScanApart(scan) && info in scan
    ensures var m := WriteBytes(memory, info.mbi.base, info.memory); Holds(m, info) && Safe(scan, memory, m)
  {
    var m := WriteBytes(memory, info.mbi.base, info.memory);
    WriteHolds(memory, info, info);
    forall other | other in scan && Holds(memory, other) ensures Holds(m, other) {
      if other != info {
        WriteHolds(memory, info, other);
      }
    }
  }

  lemma {:induction false} RegionsHold(p: Process, regions: seq<RegionInfo>, overwriting: bool, scan: Scan)
    requires ScanApart(scan) && forall info :: info in regions ==> info in scan
    ensures var q := RebuildRegions(p, regions, overwriting); Safe(scan, p.memory, q.memory) && AllHold(q.memory, regions)
  {
    hide Holds, Untouched, ScanApart;
    if regions != [] {
      var n := |regions| - 1;
      assert regions == regions[..n] + [regions[n]];
      RegionsHold(p, regions[..n], overwriting, scan);
      WriteIsSafe(RebuildRegions(p, regions[..n], overwriting).memory, scan, regions[n]);
    }
  }

  /** The allocations list regions of the scan. */
  ghost predicate FromScan(infos: seq<AllocationInfo>, scan: Scan) {
    forall i :: 0 <= i < |infos| ==> LiveOf(infos[i].allRegions, Some(scan), infos[i].allocationBase)
  }

  lemma {:induction false} RebuildHolds(p: Process, infos: seq<AllocationInfo>, k: nat, scan: Scan)
    requires ScanApart(scan) && k <= |infos| && NoneEmpty(infos) && FromScan(infos, scan)
    ensures var q := RebuildUpTo(p, infos, k);
      Safe(scan, p.memory, q.memory) && forall i :: 0 <= i < k ==> AllHold(q.memory, infos[i].allRegions)
  {
    hide Holds, Untouched, ScanApart, RebuildRegions, Reserve, SizeSum;
    if k > 0 {
      RebuildHolds(p, infos, k - 1, scan);
      var q, a, regions := RebuildUpTo(p, infos, k - 1), infos[k - 1].allocationBase, infos[k - 1].allRegions;
      RegionsHold(q, regions, true, scan);
      RegionsHold(q.(space := Reserve(q.space, a, SizeSum(regions), regions[0].mbi.allocProtect)), regions, false, scan);
    }
  }

  // ---- which addresses are mapped --------------------------------------------------------------------------------------

  lemma {:induction false} RegionsKeepKeys(p: Process, regions: seq<RegionInfo>, overwriting: bool)
    ensures RebuildRegions(p, regions, overwriting).space.Keys == p.space.Keys
  {
    if regions != [] {
      RegionsKeepKeys(p, regions[..|regions| - 1], overwriting);
    }
  }

  ghost predicate InSpan(infos: seq<AllocationInfo>, k: nat, x: nat)
    requires k <= |infos|
  {
    exists i :: 0 <= i < k && infos[i].allocationBase <= x < infos[i].allocationBase + SizeSum(infos[i].allRegions)
  }

  /** The rebuild unmaps nothing and maps only what it reserves. */
  lemma {:induction false} RebuildMaps(p: Process, infos: seq<AllocationInfo>, k: nat)
    requires k <= |infos| && NoneEmpty(infos)
    ensures var q := RebuildUpTo(p, infos, k);
      && (forall x :: x in p.space ==> x in q.space)
      && (forall x :: x in q.space ==> x in p.space || InSpan(infos, k, x))
  {
    hide RebuildRegions, SizeSum;
    if k > 0 {
      RebuildMaps(p, infos, k - 1);
      var q, a, regions := RebuildUpTo(p, infos, k - 1), infos[k - 1].allocationBase, infos[k - 1].allRegions;
      RegionsKeepKeys(q, regions, true);
      RegionsKeepKeys(q.(space := Reserve(q.space, a, SizeSum(regions), regions[0].mbi.allocProtect)), regions, false);
      forall x | InSpan(infos, k - 1, x) ensures InSpan(infos, k, x) {
      }
    }
  }

  // ---- the address space comes back ------------------------------------------------------------------------------------

  ghost predicate Listed(scan: Scan, x: nat) {
    exists info :: info in scan && Within(info.mbi, x)
  }

  ghost predicate ListedCommitted(regions: seq<RegionInfo>, x: nat) {
    exists info :: info in regions && info.mbi.state == MemCommit && Within(info.mbi, x)
  }

  /**
   What the debuggee must still look like before the rebuild, where kept is what the freeing pass leaves: what was
   kept is as at the scan, up to the protection of its committed pages; everything else was private and scanned, and
   its allocation has gone altogether.
   */
  ghost predicate Compatible(space: Space, kept: Space, scan: Scan) {
    && (forall x :: x in kept ==>
          && x in space && kept[x].(protect := space[x].protect) == space[x]
          && (kept[x] == space[x] || ListedCommitted(scan, x)))
    && (forall x :: x in space && x !in kept ==>
          space[x].kind == MEM_PRIVATE && Listed(scan, x) && space[x].allocBase !in kept)
  }

  function Rebuilt(attr: Attr, overwriting: bool, protect: nat): Attr {
    attr.(state := if overwriting then attr.state else MemCommit, protect := protect)
  }

  lemma RegionSpace(p: Process, info: RegionInfo, overwriting: bool)
    ensures var q := RebuildRegion(p, info, overwriting).space;
      && q.Keys == p.space.Keys
      && forall x :: x in q ==>
           (q[x] == if info.mbi.state == MemCommit && Within(info.mbi, x) then Rebuilt(p.space[x], overwriting, info.mbi.protect)
                    else p.space[x])
  {
  }

  /** The addresses of the rebuilt regions get their protection, and once reserved their pages. */
  lemma {:induction false} RegionsSpace(p: Process, regions: seq<RegionInfo>, overwriting: bool, space: Space)
    requires forall info :: info in regions ==> Uniform(space, info.mbi)
    ensures var q := RebuildRegions(p, regions, overwriting).space;
      && q.Keys == p.space.Keys
      && (forall x :: x in q && !ListedCommitted(regions, x) ==> q[x] == p.space[x])
      && (forall x :: x in q && ListedCommitted(regions, x) ==> q[x] == Rebuilt(p.space[x], overwriting, AttrAt(space, x).protect))
  {
    hide RebuildRegion;
    if regions != [] {
      var n := |regions| - 1;
      var front, info := regions[..n], regions[n];
      assert regions == front + [info];
      RegionsSpace(p, front, overwriting, space);
      RegionSpace(RebuildRegions(p, front, overwriting), info, overwriting);
      forall x ensures ListedCommitted(regions, x) <==> ListedCommitted(front, x) || (info.mbi.state == MemCommit && Within(info.mbi, x)) {
      }
    }
  }

  // ---- the size reserved -----------------------------------------------------------------------------------------------

  ghost function Addresses(m: Mbi): (s: set<nat>)
    ensures |s| == m.size && forall x: nat :: x in s <==> Within(m, x)
    decreases m.size
  {
    if m.size == 0 then {} else Addresses(m.(size := m.size - 1)) + {m.base + m.size - 1}
  }

  ghost function AllAddresses(regions: seq<RegionInfo>): (s: set<nat>) {
    if regions == [] then {} else AllAddresses(regions[..|regions| - 1]) + Addresses(regions[|regions| - 1].mbi)
  }

  ghost predicate Separate(regions: seq<RegionInfo>) {
    forall i, j, x: nat :: 0 <= i < j < |regions| && Within(regions[i].mbi, x) ==> !Within(regions[j].mbi, x)
  }

  lemma {:induction false} SizeOfAll(regions: seq<RegionInfo>)
    requires Separate(regions)
    ensures |AllAddresses(regions)| == SizeSum(regions)
    ensures forall x: nat :: x in AllAddresses(regions) <==> Listed(regions, x)
  {
    if regions != [] {
      var n := |regions| - 1;
      var front, info := regions[..n], regions[n];
      assert regions == front + [info];
      SizeOfAll(front);
      forall x: nat ensures Listed(regions, x) <==> Listed(front, x) || Within(info.mbi, x) {
      }
      forall x: nat | x in AllAddresses(front) ensures !Within(info.mbi, x) {
        var i :| 0 <= i < n && Within(front[i].mbi, x);
      }
      assert AllAddresses(front) !! Addresses(info.mbi);
    }
  }

  lemma SubsetSize(s: set<nat>, t: set<nat>)
    requires s <= t
    ensures |s| <= |t| && (|s| == |t| ==> s == t)
  {
    assert t == s + (t - s);
  }

  /** Addresses without a gap from a on are as many as they reach. */
  lemma Gapless(s: set<nat>, a: nat)
    requires forall x, y: nat :: x in s && a <= y <= x ==> y in s
    requires forall x :: x in s ==> a <= x
    ensures forall x: nat :: x in s <==> a <= x < a + |s|
  {
    var all := Addresses(FREE_MBI.(base := a, size := |s|));
    forall x | x in s ensures x < a + |s| {
      var upTo := Addresses(FREE_MBI.(base := a, size := x + 1 - a));
      SubsetSize(upTo, s);
    }
    SubsetSize(s, all);
  }

  /** Conservation: the sizes returned for a scanned allocation, in whatever order, add up to exactly its addresses. */
  lemma ReservedIsAllocation(regions: seq<RegionInfo>, scan: Scan, space: Space, a: nat)
    requires NoneFree(space) && Solid(space) && TakenFrom(scan, space) && LiveOf(regions, Some(scan), a)
    requires forall x :: x in space && space[x].allocBase == a ==> Listed(scan, x)
    ensures forall x: nat :: x in space && space[x].allocBase == a <==> a <= x < a + SizeSum(regions)
  {
    hide TakenFrom, LiveOf, Listed, Separate, Solid, AllAddresses;
    LiveIsSeparate(regions, scan, space, a);
    SizeOfAll(regions);
    var all := AllAddresses(regions);
    forall x: nat ensures x in all <==> x in space && space[x].allocBase == a {
      ListedInAllocation(regions, scan, space, a, x);
    }
    forall x | x in all ensures a <= x && forall y: nat :: a <= y <= x ==> y in all {
      SolidBelow(space, x);
    }
    Gapless(all, a);
  }

  lemma LiveIsSeparate(regions: seq<RegionInfo>, scan: Scan, space: Space, a: nat)
    requires TakenFrom(scan, space) && LiveOf(regions, Some(scan), a)
    ensures Separate(regions)
  {
    forall i, j, x: nat | 0 <= i < j < |regions| && Within(regions[i].mbi, x) ensures !Within(regions[j].mbi, x) {
      assert regions[i] in regions && regions[j] in regions;
      var k :| 0 <= k < |scan| && scan[k] == regions[i];
      var l :| 0 <= l < |scan| && scan[l] == regions[j];
    }
  }

  lemma ListedInAllocation(regions: seq<RegionInfo>, scan: Scan, space: Space, a: nat, x: nat)
    requires NoneFree(space) && TakenFrom(scan, space) && LiveOf(regions, Some(scan), a)
    requires x in space && space[x].allocBase == a ==> Listed(scan, x)
    ensures Listed(regions, x) <==> x in space && space[x].allocBase == a
    ensures ListedCommitted(regions, x) <==> x in space && space[x].allocBase == a && space[x].state == MemCommit
  {
    if x in space && space[x].allocBase == a {
      var info :| info in scan && Within(info.mbi, x);
      assert info in regions;
    }
  }

  // ---- allocation by allocation ------------------------------------------------------------------------------------------

  /** The rebuild half way: the allocations done are as scanned, the rest is what was kept. */
  ghost function Mixed(space: Space, kept: Space, done: set<nat>): Space {
    map x | x in space && (space[x].allocBase in done || x in kept) :: if space[x].allocBase in done then space[x] else kept[x]
  }

  ghost predicate Rebuildable(space: Space, kept: Space, scan: Scan) {
    NoneFree(space) && Solid(space) && Solid(kept) && TakenFrom(scan, space) && Compatible(space, kept, scan)
    && forall x :: x in space && space[x].state == MemReserve ==> space[x].protect == 0
  }

  /** An allocation's base is mapped exactly when the allocation was kept, and then all of it was. */
  lemma KeptWhole(space: Space, kept: Space, scan: Scan, done: set<nat>, regions: seq<RegionInfo>, a: nat)
    requires Rebuildable(space, kept, scan) && LiveOf(regions, Some(scan), a) && regions != [] && a !in done
    ensures a in Mixed(space, kept, done) <==> a in kept
    ensures forall x :: x in space && space[x].allocBase == a ==> (x in kept <==> a in kept)
    ensures regions[0].mbi.base in space
    ensures SameAllocation(space[regions[0].mbi.base], AttrOf(regions[0].mbi)) && regions[0].mbi.allocBase == a
  {
    hide Solid;
    var b := regions[0].mbi.base;
    assert regions[0] in regions && Within(regions[0].mbi, b);
    SolidBelow(space, b);
    forall x | x in space && space[x].allocBase == a && x in kept ensures a in kept {
      SolidBelow(kept, x);
    }
  }

  lemma OverwriteStep(space: Space, kept: Space, scan: Scan, done: set<nat>, p: Process, regions: seq<RegionInfo>, a: nat)
    requires Rebuildable(space, kept, scan) && LiveOf(regions, Some(scan), a) && regions != [] && a !in done
    requires p.space == Mixed(space, kept, done) && a in kept
    ensures RebuildRegions(p, regions, true).space == Mixed(space, kept, done + {a})
  {
    hide Solid, RebuildRegions, ListedCommitted;
    KeptWhole(space, kept, scan, done, regions, a);
    RegionsAreUniform(regions, scan, space, a);
    RegionsSpace(p, regions, true, space);
    forall x | x in p.space
      ensures space[x].allocBase == a ==> (ListedCommitted(regions, x) <==> ListedCommitted(scan, x))
      ensures space[x].allocBase != a ==> !ListedCommitted(regions, x)
    {
      CommittedOf(regions, scan, space, a, x);
    }
  }

  lemma RegionsAreUniform(regions: seq<RegionInfo>, scan: Scan, space: Space, a: nat)
    requires TakenFrom(scan, space) && LiveOf(regions, Some(scan), a)
    ensures forall info :: info in regions ==> Uniform(space, info.mbi)
  {
  }

  lemma CommittedOf(regions: seq<RegionInfo>, scan: Scan, space: Space, a: nat, x: nat)
    requires TakenFrom(scan, space) && LiveOf(regions, Some(scan), a) && x in space
    ensures ListedCommitted(regions, x) <==> space[x].allocBase == a && ListedCommitted(scan, x)
    ensures Listed(scan, x) && space[x].state == MemCommit ==> ListedCommitted(scan, x)
    ensures ListedCommitted(scan, x) ==> space[x].state == MemCommit
  {
    if space[x].allocBase == a && ListedCommitted(scan, x) {
      var info :| info in scan && info.mbi.state == MemCommit && Within(info.mbi, x);
      assert info in regions;
    }
  }

  /** A reserved address ends up as it was scanned. */
  lemma ReservedAt(space: Space, kept: Space, scan: Scan, regions: seq<RegionInfo>, a: nat, x: nat)
    requires Rebuildable(space, kept, scan) && LiveOf(regions, Some(scan), a) && regions != [] && a !in kept
    requires x in space && space[x].allocBase == a
    ensures var attr := Attr(a, regions[0].mbi.allocProtect, MemReserve, 0, MEM_PRIVATE);
      space[x] == if ListedCommitted(regions, x) then Rebuilt(attr, false, space[x].protect) else attr
  {
    hide Solid, ListedCommitted, Listed, LiveOf;
    KeptWhole(space, kept, scan, {}, regions, a);
    SolidBelow(space, x);
    SolidBelow(space, regions[0].mbi.base);
    CommittedOf(regions, scan, space, a, x);
  }

  lemma NextMixed(space: Space, kept: Space, done: set<nat>, a: nat, out: Space)
    requires forall x :: x in out <==> x in Mixed(space, kept, done) || (x in space && space[x].allocBase == a)
    requires forall x :: x in out ==> out[x] == if space[x].allocBase == a then space[x] else Mixed(space, kept, done)[x]
    ensures out == Mixed(space, kept, done + {a})
  {
  }

  lemma ReserveStep(space: Space, kept: Space, scan: Scan, done: set<nat>, p: Process, regions: seq<RegionInfo>, a: nat)
    requires Rebuildable(space, kept, scan) && LiveOf(regions, Some(scan), a) && regions != [] && a !in done
    requires p.space == Mixed(space, kept, done) && a !in kept
    ensures var q := p.(space := Reserve(p.space, a, SizeSum(regions), regions[0].mbi.allocProtect));
      RebuildRegions(q, regions, false).space == Mixed(space, kept, done + {a})
  {
    hide Solid, RebuildRegions, ListedCommitted, Listed, SizeSum, LiveOf, TakenFrom, Compatible, Uniform, Rebuilt, Mixed, Reserve;
    var q := p.(space := Reserve(p.space, a, SizeSum(regions), regions[0].mbi.allocProtect));
    var out := RebuildRegions(q, regions, false).space;
    ReservedSpace(space, kept, scan, done, p.space, regions, a);
    RegionsAreUniform(regions, scan, space, a);
    RegionsSpace(q, regions, false, space);
    forall x | x in out ensures out[x] == if space[x].allocBase == a then space[x] else p.space[x] {
      if space[x].allocBase == a {
        ReservedAt(space, kept, scan, regions, a, x);
      } else {
        CommittedOf(regions, scan, space, a, x);
      }
    }
    NextMixed(space, kept, done, a, out);
  }

  /** A reservation covers the allocation's addresses and nothing that is mapped. */
  lemma ReservedSpace(space: Space, kept: Space, scan: Scan, done: set<nat>, mixed: Space, regions: seq<RegionInfo>, a: nat)
    requires Rebuildable(space, kept, scan) && LiveOf(regions, Some(scan), a) && regions != [] && a !in done
    requires mixed == Mixed(space, kept, done) && a !in kept
    ensures var protect := regions[0].mbi.allocProtect;
      var q := Reserve(mixed, a, SizeSum(regions), protect);
      && (forall x :: x in q <==> x in mixed || (x in space && space[x].allocBase == a))
      && (forall x :: x in q ==> x in space
                                 && q[x] == if space[x].allocBase == a then Attr(a, protect, MemReserve, 0, MEM_PRIVATE) else mixed[x])
  {
    WholeIsListed(space, kept, scan, a);
    ReservedIsAllocation(regions, scan, space, a);
    ReserveIs(mixed, a, SizeSum(regions), regions[0].mbi.allocProtect);
    hide Solid, SizeSum, LiveOf, TakenFrom, Compatible, Listed, NoneFree, Reserve;
  }

  lemma WholeIsListed(space: Space, kept: Space, scan: Scan, a: nat)
    requires Compatible(space, kept, scan) && a !in kept && Solid(kept)
    ensures forall x :: x in space && space[x].allocBase == a ==> x !in kept && Listed(scan, x)
  {
    hide Solid;
    forall x | x in space && space[x].allocBase == a && x in kept ensures false {
      SolidBelow(kept, x);
    }
  }

  // ---- the whole rebuild -------------------------------------------------------------------------------------------------

  ghost function DoneOf(infos: seq<AllocationInfo>, k: nat): set<nat>
    requires k <= |infos|
  {
    set i | 0 <= i < k :: infos[i].allocationBase
  }

  /** Returned regions of a scan, each allocation once. */
  ghost predicate Returned(infos: seq<AllocationInfo>, scan: Scan) {
    && NoneEmpty(infos) && FromScan(infos, scan)
    && (forall i, j :: 0 <= i < j < |infos| ==> infos[i].allocationBase != infos[j].allocationBase)
    && (forall info :: info in scan && IsLive(info) ==> info.mbi.allocBase in DoneOf(infos, |infos|))
  }

  lemma ReturnsFacts(h: Hist, scan: Scan, r: nat, s: nat)
    requires ReturnsScan(h, Some(scan), r, s)
    ensures InRangeHist(h, r, s)
    ensures var cur := CurrentAllocations(h, r, s);
      && (forall i :: 0 <= i < |scan| && IsLive(scan[i]) ==> scan[i].mbi.allocBase in cur)
      && (forall a :: a in cur ==> LiveOf(cur[a], Some(scan), a) && cur[a] != [])
  {
    hide InRangeAlloc, LiveOf;
  }

  lemma ReturnedFacts(h: Hist, scan: Scan, r: nat, s: nat, infos: seq<AllocationInfo>)
    requires ReturnsScan(h, Some(scan), r, s) && Lists(infos, CurrentAllocations(h, r, s), {})
    ensures Returned(infos, scan)
  {
    hide InRangeHist, LiveOf, CurrentAllocations, ReturnsScan;
    ReturnsFacts(h, scan, r, s);
    var cur := CurrentAllocations(h, r, s);
    forall info | info in scan && IsLive(info) ensures info.mbi.allocBase in DoneOf(infos, |infos|) {
      var k :| 0 <= k < |scan| && scan[k] == info;
      var i :| 0 <= i < |infos| && infos[i].allocationBase == info.mbi.allocBase;
    }
  }

  lemma {:induction false} RebuildSpace(space: Space, kept: Space, scan: Scan, p: Process, infos: seq<AllocationInfo>, k: nat)
    requires Rebuildable(space, kept, scan) && Returned(infos, scan) && k <= |infos| && p.space == kept
    ensures RebuildUpTo(p, infos, k).space == Mixed(space, kept, DoneOf(infos, k))
  {
    hide Solid, RebuildRegions, LiveOf, TakenFrom, SizeSum, Reserve, IsLive;
    if k > 0 {
      RebuildSpace(space, kept, scan, p, infos, k - 1);
      var q, a, regions, done := RebuildUpTo(p, infos, k - 1), infos[k - 1].allocationBase, infos[k - 1].allRegions, DoneOf(infos, k - 1);
      assert DoneOf(infos, k) == done + {a};
      KeptWhole(space, kept, scan, done, regions, a);
      hide Mixed, Rebuildable;
      if a in kept {
        OverwriteStep(space, kept, scan, done, q, regions, a);
      } else {
        ReserveStep(space, kept, scan, done, q, regions, a);
      }
    }
  }

  /** With every allocation done, the space is the scanned one. */
  lemma AllDoneIsSpace(space: Space, kept: Space, scan: Scan, done: set<nat>)
    requires Rebuildable(space, kept, scan)
    requires forall info :: info in scan && IsLive(info) ==> info.mbi.allocBase in done
    ensures Mixed(space, kept, done) == space
  {
    forall x | x in space && Listed(scan, x) ensures space[x].allocBase in done {
      var info :| info in scan && Within(info.mbi, x);
    }
  }

  lemma KeptIsSolid(space: Space, top: nat, blacklist: seq<nat>)
    requires Solid(space)
    ensures Solid(Kept(space, top, blacklist))
  {
    hide Doomed;
  }

  /** The address space comes back: every address is part again of what it was part of at the scan. */
  lemma SpaceReturns(was: Process, now: Process, top: nat, blacklist: seq<nat>, scan: Scan, infos: seq<AllocationInfo>)
    requires OkSpace(was.space, top) && NoneFree(now.space) && Solid(now.space)
    requires scan == ScanOf(was.memory, Queries(was.space, 0, top), blacklist)
    requires Compatible(was.space, Kept(now.space, top, blacklist), scan) && Returned(infos, scan)
    ensures RebuildUpTo(FreeFrom(now, 0, top, blacklist), infos, |infos|).space == was.space
  {
    var kept, freed := Kept(now.space, top, blacklist), FreeFrom(now, 0, top, blacklist);
    FreedIsKept(now, top, blacklist);
    KeptIsSolid(now.space, top, blacklist);
    ScanIsTaken(was, top, blacklist);
    hide Kept, FreeFrom, Solid, Compatible, TakenFrom, ScanOf, Queries, IsLive;
    RebuildSpace(was.space, kept, scan, freed, infos, |infos|);
    AllDoneIsSpace(was.space, kept, scan, DoneOf(infos, |infos|));
  }

  /**
   Freeing and rebuilding put back the bytes of every committed region of the scan. Any other address keeps its byte
   if it was not freed; nothing is unmapped but what is freed, and nothing is mapped but what is reserved.
   */
  lemma RebuildIsTrue(now: Process, top: nat, blacklist: seq<nat>, scan: Scan, infos: seq<AllocationInfo>)
    requires NoneFree(now.space) && ScanApart(scan) && Returned(infos, scan)
    ensures var kept, p := Kept(now.space, top, blacklist), RebuildUpTo(FreeFrom(now, 0, top, blacklist), infos, |infos|);
      && AllHold(p.memory, scan)
      && (forall x :: x in kept ==> x in p.space && (Untouched(scan, x) ==> ByteAt(p.memory, x) == ByteAt(now.memory, x)))
      && (forall x :: x in p.space ==> x in kept || InSpan(infos, |infos|, x))
  {
    var freed := FreeFrom(now, 0, top, blacklist);
    FreedIsKept(now, top, blacklist);
    hide FreeFrom, Kept, Untouched, InSpan, ByteAt, ScanApart, Holds, LiveOf;
    RebuildHolds(freed, infos, |infos|, scan);
    RebuildMaps(freed, infos, |infos|);
    var p := RebuildUpTo(freed, infos, |infos|);
    forall info | info in scan && info.mbi.state == MemCommit ensures Holds(p.memory, info) {
      var i :| 0 <= i < |infos| && infos[i].allocationBase == info.mbi.allocBase;
      InLive(infos[i].allRegions, scan, info);
    }
  }

  lemma InLive(regions: seq<RegionInfo>, scan: Scan, info: RegionInfo)
    requires LiveOf(regions, Some(scan), info.mbi.allocBase) && info in scan && IsLive(info)
    ensures info in regions
  {
  }

  /** Once the scanned bytes are back in place, the same region list scans the same. */
  lemma {:induction false} SameList(before: Bytes, after: Bytes, queries: seq<Mbi>, blacklist: seq<nat>)
    requires AllHold(after, ScanOf(before, queries, blacklist))
    ensures ScanOf(after, queries, blacklist) == ScanOf(before, queries, blacklist)
  {
    if queries != [] {
      var m, scan := queries[|queries| - 1], ScanOf(before, queries, blacklist);
      var rest := ScanOf(before, queries[..|queries| - 1], blacklist);
      assert forall info :: info in rest ==> info in scan;
      SameList(before, after, queries[..|queries| - 1], blacklist);
      if !Skipped(m.base, blacklist) && m.state == MemCommit {
        var info := RegionInfo(m, ReadBytes(before, m.base, m.size));
        assert scan == rest + [info] && scan[|rest|] == info;
        assert Holds(after, info);
        assert ReadBytes(after, m.base, m.size) == info.memory;
      }
    }
  }

  /** Scanning the rebuilt process gives the restored scan: the region list and all bytes. */
  lemma RescanIsSame(was: Process, now: Process, top: nat, blacklist: seq<nat>, scan: Scan, infos: seq<AllocationInfo>)
    requires OkSpace(was.space, top) && NoneFree(now.space) && Solid(now.space)
    requires scan == ScanOf(was.memory, Queries(was.space, 0, top), blacklist)
    requires Compatible(was.space, Kept(now.space, top, blacklist), scan) && Returned(infos, scan)
    ensures var p := RebuildUpTo(FreeFrom(now, 0, top, blacklist), infos, |infos|);
      p.space == was.space && ScanOf(p.memory, Queries(p.space, 0, top), blacklist) == scan
  {
    hide OkSpace, NoneFree, Solid, Compatible, Kept, FreeFrom, Queries, ScanOf, RebuildUpTo;
    SpaceReturns(was, now, top, blacklist, scan, infos);
    ScanIsTaken(was, top, blacklist);
    TakenIsApart(scan, was.space);
    RebuildIsTrue(now, top, blacklist, scan, infos);
    SameList(was.memory, RebuildUpTo(FreeFrom(now, 0, top, blacklist), infos, |infos|).memory, Queries(was.space, 0, top), blacklist);
  }

  /** Nothing that the pass would spare has changed since the scan, and whatever it frees was scanned and private. */
  lemma UnchangedIsCompatible(was: Space, now: Space, top: nat, blacklist: seq<nat>, scan: Scan)
    requires Kept(now, top, blacklist) == Kept(was, top, blacklist)
    requires forall x :: x in was && x !in Kept(was, top, blacklist) ==> was[x].kind == MEM_PRIVATE && Listed(scan, x)
    requires Solid(was)
    ensures Compatible(was, Kept(now, top, blacklist), scan)
  {
    hide Doomed, Listed;
    forall x | x in was && x !in Kept(was, top, blacklist) ensures was[x].allocBase !in Kept(was, top, blacklist) {
      SolidBelow(was, x);
    }
  }
}
