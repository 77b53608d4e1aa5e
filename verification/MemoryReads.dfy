/** What the versioned address space returns for a point, after any run of scans and restores. */
module MemoryReads {
  import opened Options
  import opened Lineage
  import opened TreeHistory
  import opened PagedMemory
  import opened RegionModel
  import opened AllocationModel
  import opened ProcessMemory
  import opened MemoryTimeline

  /** The region's size survives being passed as 32 bits. */
  predicate Fits(info: RegionInfo) {
    info.mbi.state == MemCommit ==> info.mbi.size < UINT32
  }

  /** Every live region of the scan fits, those of one allocation, or those of all. */
  ghost predicate AllocationFits(v: Option<Scan>, a: nat) {
    forall info :: v.Some? && info in v.value && info.mbi.allocBase == a && IsLive(info) ==> Fits(info)
  }

  ghost predicate ScanFits(v: Option<Scan>) {
    forall info :: v.Some? && info in v.value && IsLive(info) ==> Fits(info)
  }

  predicate IsLive(info: RegionInfo) {
    info.mbi.state != MemFree
  }

  lemma {:induction false} RecordOfLive(scan: Scan, a: nat, b: nat)
    requires IsLive(RecordOf(scan, a, b))
    ensures var info := RecordOf(scan, a, b); info in scan && info.mbi.allocBase == a && info.mbi.base == b
  {
    if scan != [] && !(scan[0].mbi.allocBase == a && scan[0].mbi.base == b) {
      RecordOfLive(scan[1..], a, b);
    }
  }

  ghost function VisibleOf(w: World, r: nat, s: nat): Scan
    requires WorldOk(w) && Read(w.scans, r, s).Some?
  {
    Read(w.scans, r, s).value
  }

  /** The visible scan, as stored in the log. */
  lemma VisibleScan(w: World, r: nat, s: nat)
    requires WorldOk(w) && Read(w.scans, r, s).Some?
    ensures var scan, p := Read(w.scans, r, s).value, RecordedAt(w.scans, r, s).value;
      && ProperScan(scan)
      && (forall k :: 0 <= k < |scan| ==> HasRegion(w.hist, scan[k].mbi.allocBase, scan[k].mbi.base, p))
  {
    hide AllocOk, HasRegion;
    var p := Locate(w.scans, r, s).value;
    var e := w.scans.entries[p.run][p.idx];
    forall k | 0 <= k < |e.data| ensures HasRegion(w.hist, e.data[k].mbi.allocBase, e.data[k].mbi.base, Point(p.run, e.runSeq)) {
    }
  }

  /** A scan visible before the region was created does not list it. */
  lemma NotListedBefore(w: World, a: nat, j: nat, r: nat, s: nat)
    requires WorldOk(w) && a in w.hist && j < |w.hist[a].regions| && Read(w.scans, r, s).Some?
    requires Sized(w.hist[a].regions[j].mbis)
    requires !NotBefore(RecordedAt(w.scans, r, s).value, Created(w.hist[a].regions[j]))
    ensures RecordOf(Read(w.scans, r, s).value, a, w.hist[a].regions[j].base) == FREED
  {
    hide RegionOk, Tracked;
    var scan, rg, p := Read(w.scans, r, s).value, w.hist[a].regions[j], RecordedAt(w.scans, r, s).value;
    VisibleScan(w, r, s);
    DistinctRegions(w, a);
    assert Names(scan, a, rg.base) ==> HasRegion(w.hist, a, rg.base, p);
    RecordOfUnlisted(scan, a, rg.base);
  }

  /**
   One region reads, from any point, as the visible scan says: the listed incarnation's attributes, or nothing live; and
   its bytes if and only if their number fits in 32 bits.
   */
  lemma RegionSees(w: World, a: nat, j: nat, r: nat, s: nat)
    requires WorldOk(w) && a in w.hist && j < |w.hist[a].regions| && InRangeHist(w.hist, r, s)
    ensures var rg, v := w.hist[a].regions[j], Read(w.scans, r, s);
      && (Live(InfoAt(rg, r, s)) <==> v.Some? && IsLive(RecordOf(v.value, a, rg.base)))
      && (Live(InfoAt(rg, r, s)) ==>
            && InfoAt(rg, r, s).value.mbi == RecordOf(v.value, a, rg.base).mbi
            && (InfoAt(rg, r, s) == Some(RecordOf(v.value, a, rg.base)) <==> Fits(RecordOf(v.value, a, rg.base))))
  {
    hide RegionOk, RegionInv, Tracked, Readable, InRange;
    assert AllocOk(w.hist[a], a, w.scans, w.active, w.next);
    var rg, v := w.hist[a].regions[j], Read(w.scans, r, s);
    assert RegionOk(rg, a, w.scans, w.active, w.next);
    var c := Created(rg);
    FromReads(w.scans, c, w.active, w.next, r, s);
    FromWf(w.scans, c, w.active, w.next);
    MapReads(From(w.scans, c), (scan: Scan) => RecordOf(scan, a, rg.base), r, s);
    OkReadsLog(rg, a, w.scans, w.active, w.next, r, s);
    if v.Some? && !NotBefore(RecordedAt(w.scans, r, s).value, c) {
      NotListedBefore(w, a, j, r, s);
    }
  }

  lemma OkReadsLog(rg: Region, a: nat, scans: Log<Scan>, active: nat, next: nat, r: nat, s: nat)
    requires RegionOk(rg, a, scans, active, next)
    ensures Sized(rg.mbis) && Readable(rg.memory) && InRange(rg, r, s)
    ensures OriginsBelow(RegionLog(scans, a, rg.base, Created(rg)).origins)
    ensures var v, info := Read(RegionLog(scans, a, rg.base, Created(rg)), r, s), InfoAt(rg, r, s);
      && (info == v <==> (v.Some? ==> Fits(v.value)))
      && (info.Some? <==> v.Some?) && (info.Some? ==> info.value.mbi == v.value.mbi)
  {
    RegionReads(rg, RegionLog(scans, a, rg.base, Created(rg)), active, next, r, s);
  }

  // ---- one allocation ------------------------------------------------------------------------------------------

  ghost predicate OnceEach(infos: seq<RegionInfo>) {
    forall i, j :: 0 <= i < j < |infos| ==> infos[i].mbi.base != infos[j].mbi.base
  }

  /** The regions of allocation a that a scan lists as not free, each exactly once. */
  ghost predicate LiveOf(regions: seq<RegionInfo>, v: Option<Scan>, a: nat) {
    && (forall info :: info in regions <==> v.Some? && info in v.value && info.mbi.allocBase == a && IsLive(info))
    && OnceEach(regions)
  }

  /** A live region is recorded under its own base. */
  ghost predicate OwnBases(al: Alloc, r: nat, s: nat)
    requires InRangeAlloc(al, r, s)
  {
    forall j :: 0 <= j < |al.regions| && Live(InfoAt(al.regions[j], r, s)) ==>
      InfoAt(al.regions[j], r, s).value.mbi.base == al.regions[j].base
  }

  lemma {:induction false} LiveUpToLists(al: Alloc, r: nat, s: nat, k: nat)
    requires InRangeAlloc(al, r, s) && k <= |al.regions| && DistinctBases(al.regions) && OwnBases(al, r, s)
    ensures var live := LiveUpTo(al, r, s, k);
      && (forall info :: info in live <==> exists j :: 0 <= j < k && InfoAt(al.regions[j], r, s) == Some(info) && IsLive(info))
      && OnceEach(live)
  {
    hide InRange, Readable, InfoAt;
    if k > 0 {
      LiveUpToLists(al, r, s, k - 1);
      var before, o := LiveUpTo(al, r, s, k - 1), InfoAt(al.regions[k - 1], r, s);
      forall x | 0 <= x < |before| ensures before[x].mbi.base != al.regions[k - 1].base {
        assert before[x] in before;
        var j :| 0 <= j < k - 1 && InfoAt(al.regions[j], r, s) == Some(before[x]) && IsLive(before[x]);
        assert al.regions[j].base != al.regions[k - 1].base;
      }
    }
  }

  lemma DistinctRegions(w: World, a: nat)
    requires WorldOk(w) && a in w.hist
    ensures DistinctBases(w.hist[a].regions) && |w.hist[a].regions| > 0
  {
    hide RegionOk, Tracked;
    assert AllocOk(w.hist[a], a, w.scans, w.active, w.next);
  }

  /** What is returned for an allocation, and under which base: the live regions of the visible scan, by attributes. */
  lemma AllocationLists(w: World, a: nat, r: nat, s: nat)
    requires WorldOk(w) && a in w.hist && InRangeHist(w.hist, r, s)
    ensures var al, live := w.hist[a], LiveRegions(w.hist[a], r, s);
      && (forall info :: info in live <==> exists j :: 0 <= j < |al.regions| && InfoAt(al.regions[j], r, s) == Some(info) && IsLive(info))
      && OnceEach(live)
  {
    hide WorldOk, InRange, Readable;
    var al := w.hist[a];
    WorldBelow(w);
    DistinctRegions(w, a);
    forall j | 0 <= j < |al.regions| && Live(InfoAt(al.regions[j], r, s))
      ensures InfoAt(al.regions[j], r, s).value.mbi.base == al.regions[j].base
    {
      RegionSees(w, a, j, r, s);
      RecordOfLive(VisibleOf(w, r, s), a, al.regions[j].base);
    }
    var live := LiveUpTo(al, r, s, |al.regions|);
    LiveUpToLists(al, r, s, |al.regions|);
    assert LiveRegions(al, r, s) == live;
  }

  /** A listed live region is returned exactly when its size fits. */
  lemma ListedIsReturned(w: World, r: nat, s: nat, info: RegionInfo)
    requires WorldOk(w) && InRangeHist(w.hist, r, s)
    requires Read(w.scans, r, s).Some? && info in Read(w.scans, r, s).value && IsLive(info)
    ensures info.mbi.allocBase in w.hist && (info in LiveRegions(w.hist[info.mbi.allocBase], r, s) <==> Fits(info))
  {
    hide WorldOk, InRange, Readable;
    var a := info.mbi.allocBase;
    var j := ListedIsLive(w, r, s, info);
    AllocationLists(w, a, r, s);
    if info in LiveRegions(w.hist[a], r, s) {
      var k :| 0 <= k < |w.hist[a].regions| && InfoAt(w.hist[a].regions[k], r, s) == Some(info) && IsLive(info);
      RegionSees(w, a, k, r, s);
      RecordOfLive(VisibleOf(w, r, s), a, w.hist[a].regions[k].base);
      SameRegionOf(w, a, j, k);
    }
  }

  lemma SameRegionOf(w: World, a: nat, j: nat, k: nat)
    requires WorldOk(w) && a in w.hist && j < |w.hist[a].regions| && k < |w.hist[a].regions|
    ensures w.hist[a].regions[j].base == w.hist[a].regions[k].base ==> j == k
  {
    hide WorldOk;
    DistinctRegions(w, a);
  }

  /** What is returned is listed, when its size fits. */
  lemma ReturnedIsListed(w: World, a: nat, r: nat, s: nat, info: RegionInfo)
    requires WorldOk(w) && a in w.hist && InRangeHist(w.hist, r, s) && info in LiveRegions(w.hist[a], r, s)
    requires AllocationFits(Read(w.scans, r, s), a)
    ensures var v := Read(w.scans, r, s); v.Some? && info in v.value && info.mbi.allocBase == a && IsLive(info)
  {
    hide WorldOk, InRange, Readable;
    WorldBelow(w);
    AllocationLists(w, a, r, s);
    var j :| 0 <= j < |w.hist[a].regions| && InfoAt(w.hist[a].regions[j], r, s) == Some(info) && IsLive(info);
    RegionSees(w, a, j, r, s);
    RecordOfLive(VisibleOf(w, r, s), a, w.hist[a].regions[j].base);
  }

  /**
   The regions returned for an allocation are exactly the non-free regions the visible scan lists for it, with the
   scanned attributes and bytes, each once: nothing stale, nothing from a sibling or later run. This holds if and only
   if the sizes of these committed regions fit in 32 bits.
   */
  lemma AllocationReads(w: World, a: nat, r: nat, s: nat)
    requires WorldOk(w) && a in w.hist && InRangeHist(w.hist, r, s)
    ensures LiveOf(LiveRegions(w.hist[a], r, s), Read(w.scans, r, s), a) <==> AllocationFits(Read(w.scans, r, s), a)
  {
    hide WorldOk, InRangeAlloc;
    WorldBelow(w);
    AllocationLists(w, a, r, s);
    var v, live := Read(w.scans, r, s), LiveRegions(w.hist[a], r, s);
    forall info | v.Some? && info in v.value && info.mbi.allocBase == a && IsLive(info) ensures info in live <==> Fits(info) {
      ListedIsReturned(w, r, s, info);
    }
    if AllocationFits(v, a) {
      forall info | info in live ensures v.Some? && info in v.value && info.mbi.allocBase == a && IsLive(info) {
        ReturnedIsListed(w, a, r, s, info);
      }
    }
  }

  lemma WorldBelow(w: World)
    requires WorldOk(w)
    ensures OriginsBelow(w.scans.origins)
  {
  }

  lemma ListedIsLive(w: World, r: nat, s: nat, info: RegionInfo) returns (j: nat)
    requires WorldOk(w) && InRangeHist(w.hist, r, s)
    requires Read(w.scans, r, s).Some? && info in Read(w.scans, r, s).value && IsLive(info)
    ensures info.mbi.allocBase in w.hist && j < |w.hist[info.mbi.allocBase].regions|
    ensures var rg := w.hist[info.mbi.allocBase].regions[j];
      rg.base == info.mbi.base && Live(InfoAt(rg, r, s)) && (InfoAt(rg, r, s) == Some(info) <==> Fits(info))
  {
    hide InRange, Readable, AllocOk, Tracked;
    var scan, a := Read(w.scans, r, s).value, info.mbi.allocBase;
    VisibleScan(w, r, s);
    var i :| 0 <= i < |scan| && scan[i] == info;
    assert HasRegion(w.hist, a, info.mbi.base, RecordedAt(w.scans, r, s).value);
    j :| 0 <= j < |w.hist[a].regions| && SinceRegion(w.hist[a].regions[j], info.mbi.base, RecordedAt(w.scans, r, s).value);
    RecordOfListed(scan, i);
    RegionSees(w, a, j, r, s);
  }

  // ---- which allocations are returned ------------------------------------------------------------------------------

  /** An allocation is returned if and only if the region first recorded for it is live in the visible scan. */
  lemma HeadDecides(w: World, a: nat, r: nat, s: nat)
    requires WorldOk(w) && InRangeHist(w.hist, r, s)
    ensures a in CurrentAllocations(w.hist, r, s) <==>
      && a in w.hist
      && Read(w.scans, r, s).Some?
      && IsLive(RecordOf(Read(w.scans, r, s).value, a, w.hist[a].regions[0].base))
  {
    hide InRange, Readable, AllocOk, Tracked;
    if a in w.hist {
      DistinctRegions(w, a);
      RegionSees(w, a, 0, r, s);
    }
  }

  /** Every live region of the visible scan is returned. */
  ghost predicate ReturnsAll(w: World, r: nat, s: nat, scan: Scan)
    requires InRangeHist(w.hist, r, s)
  {
    forall info :: info in scan && IsLive(info) ==>
      var cur, a := CurrentAllocations(w.hist, r, s), info.mbi.allocBase;
      a in cur && info in cur[a]
  }

  /** In the visible scan, an allocation with a live region has its first-recorded region live. */
  ghost predicate HeadsLive(w: World, scan: Scan) {
    forall info :: info in scan && IsLive(info) ==>
      var a := info.mbi.allocBase;
      a in w.hist && |w.hist[a].regions| > 0 && IsLive(RecordOf(scan, a, w.hist[a].regions[0].base))
  }

  /**
   The whole live address space comes back if and only if no allocation lost the region it was first seen by and every
   committed region of the visible scan has a size of 32 bits.
   */
  lemma ReturnsAllIff(w: World, r: nat, s: nat)
    requires WorldOk(w) && InRangeHist(w.hist, r, s) && Read(w.scans, r, s).Some?
    ensures ReturnsAll(w, r, s, Read(w.scans, r, s).value) <==> HeadsLive(w, Read(w.scans, r, s).value) && ScanFits(Read(w.scans, r, s))
  {
    hide WorldOk, InRangeHist;
    var scan, cur := VisibleOf(w, r, s), CurrentOf(w, r, s);
    forall info | info in scan && IsLive(info)
      ensures var a := info.mbi.allocBase;
        && a in w.hist && |w.hist[a].regions| > 0
        && (a in cur && info in cur[a] <==> IsLive(RecordOf(scan, a, w.hist[a].regions[0].base)) && Fits(info))
    {
      ReturnedIff(w, r, s, info);
    }
  }

  ghost function CurrentOf(w: World, r: nat, s: nat): map<nat, seq<RegionInfo>>
    requires InRangeHist(w.hist, r, s)
  {
    CurrentAllocations(w.hist, r, s)
  }

  lemma ReturnedIff(w: World, r: nat, s: nat, info: RegionInfo)
    requires WorldOk(w) && InRangeHist(w.hist, r, s)
    requires Read(w.scans, r, s).Some? && info in Read(w.scans, r, s).value && IsLive(info)
    ensures var a, cur := info.mbi.allocBase, CurrentAllocations(w.hist, r, s);
      && a in w.hist && |w.hist[a].regions| > 0
      && (a in cur && info in cur[a] <==> IsLive(RecordOf(Read(w.scans, r, s).value, a, w.hist[a].regions[0].base)) && Fits(info))
  {
    hide AllocOk, Tracked, InRangeAlloc;
    var a := info.mbi.allocBase;
    ListedIsReturned(w, r, s, info);
    DistinctRegions(w, a);
    HeadDecides(w, a, r, s);
  }

  // ---- scans as the operating system lists them ------------------------------------------------------------------

  /** Each allocation is listed from its own base on, and that first region is live whenever another one is. */
  ghost predicate Headed(scan: Scan) {
    forall i :: 0 <= i < |scan| ==> HasHead(scan, i)
  }

  ghost predicate HasHead(scan: Scan, i: nat)
    requires i < |scan|
  {
    exists k: nat :: HeadOf(scan, i, k)
  }

  ghost predicate HeadOf(scan: Scan, i: nat, k: nat)
    requires i < |scan|
  {
    && k <= i
    && scan[k].mbi.allocBase == scan[k].mbi.base == scan[i].mbi.allocBase
    && (IsLive(scan[i]) ==> IsLive(scan[k]))
  }

  ghost predicate AllHeaded(scans: Log<Scan>) {
    forall r, i :: r in scans.entries && 0 <= i < |scans.entries[r]| ==> Headed(scans.entries[r][i].data)
  }

  /** Every allocation's first-recorded region is the one at its own base. */
  ghost predicate HeadsAtBase(h: Hist) {
    forall a :: a in h ==> |h[a].regions| > 0 && h[a].regions[0].base == a
  }

  ghost predicate GoodMove(move: Move) {
    match move
    case Scanned(_, scan) => Headed(scan)
    case Restored(_) => true
  }

  ghost predicate GoodWorld(w: World) {
    WorldOk(w) && AllHeaded(w.scans) && HeadsAtBase(w.hist)
  }

  lemma {:induction false} ScanHeads(h: Hist, full: Scan, k: nat, r: nat, s: nat)
    requires UsableHist(h) && HeadsAtBase(h) && Headed(full) && k <= |full|
    ensures HeadsAtBase(ScanHist(h, full, k, r, s))
    ensures forall i :: 0 <= i < k ==> full[i].mbi.allocBase in ScanHist(h, full, k, r, s)
  {
    hide UsableAlloc, UpdateHist, HeadsAtBase, Headed;
    if k > 0 {
      var h1, info := ScanHist(h, full, k - 1, r, s), full[k - 1];
      ScanHeads(h, full, k - 1, r, s);
      var x := HeadBefore(full, k - 1);
      UpdateHeads(h1, info, r, s);
      UpdateKeys(h1, info, r, s);
    }
  }

  lemma HeadBefore(scan: Scan, i: nat) returns (x: nat)
    requires Headed(scan) && i < |scan|
    ensures x <= i && scan[x].mbi.allocBase == scan[i].mbi.allocBase && (x == i ==> scan[i].mbi.base == scan[i].mbi.allocBase)
  {
    assert HasHead(scan, i);
    x :| HeadOf(scan, i, x);
  }

  lemma UpdateKeys(h: Hist, info: RegionInfo, r: nat, s: nat)
    requires UsableHist(h)
    ensures UpdateHist(h, info, r, s).Keys == h.Keys + {info.mbi.allocBase}
  {
    hide UsableAlloc, UpdateAlloc, NewAlloc;
  }

  lemma UpdateHeads(h: Hist, info: RegionInfo, r: nat, s: nat)
    requires UsableHist(h) && HeadsAtBase(h) && (info.mbi.allocBase in h || info.mbi.base == info.mbi.allocBase)
    ensures HeadsAtBase(UpdateHist(h, info, r, s))
  {
  }

  lemma NextGood(w: World, move: Move)
    requires GoodWorld(w) && CanMove(w, move) && GoodMove(move)
    ensures GoodWorld(Next(w, move))
  {
    hide WorldOk;
    match move {
      case Scanned(s, scan) =>
        ScannedKeeps(w, s, scan);
        ScannedHeads(w, s, scan);
      case Restored(p) =>
        RestoredKeeps(w, p);
        RestoredHeads(w, p);
    }
  }

  lemma ScannedHeads(w: World, s: nat, scan: Scan)
    requires GoodWorld(w) && CanMove(w, Scanned(s, scan)) && GoodMove(Scanned(s, scan))
    ensures var w' := Next(w, Scanned(s, scan)); AllHeaded(w'.scans) && HeadsAtBase(w'.hist)
  {
    hide AllocOk, HasRegion, Headed, ProperScan, Tracked, AllHeaded, UsableAlloc;
    ScanHeads(w.hist, scan, |scan|, w.active, s);
    LogsAppend(w.scans, w.active, s, scan);
  }

  lemma LogsAppend(scans: Log<Scan>, r: nat, s: nat, scan: Scan)
    requires AllHeaded(scans) && Headed(scan)
    ensures AllHeaded(Append(scans, r, s, scan))
  {
    hide Headed;
  }

  lemma LogsBranch(scans: Log<Scan>, p: Point, to: nat)
    requires AllHeaded(scans)
    ensures AllHeaded(Branch(scans, p, to))
  {
    hide Headed;
  }

  lemma RestoredHeads(w: World, p: Point)
    requires GoodWorld(w) && p.run <= w.active
    ensures var w' := Next(w, Restored(p)); AllHeaded(w'.scans) && HeadsAtBase(w'.hist)
  {
    hide AllocOk, InRangeHist, HasRegion, Headed, ProperScan, Tracked, UsableHist, ReadableHist, AllHeaded;
    OkIsInRange(w, p.run, p.runSeq);
    LogsBranch(w.scans, p, w.active + 1);
    RestoredBases(w.hist, p, w.active + 1);
  }

  lemma RestoredBases(h: Hist, p: Point, to: nat)
    requires InRangeHist(h, p.run, p.runSeq) && HeadsAtBase(h)
    ensures ReadableHist(TouchHist(h, p.run, p.runSeq)) && HeadsAtBase(BranchHist(TouchHist(h, p.run, p.runSeq), p, to))
  {
    hide InRangeAlloc, ReadableAlloc;
    TouchedIsReadable(h, p.run, p.runSeq);
    forall a | a in h ensures var al := BranchAlloc(TouchAlloc(h[a], p.run, p.runSeq), p, to); |al.regions| > 0 && al.regions[0].base == a {
      RestoredBase(h[a], p, to);
    }
  }

  lemma RestoredBase(al: Alloc, p: Point, to: nat)
    requires InRangeAlloc(al, p.run, p.runSeq)
    ensures var t := TouchAlloc(al, p.run, p.runSeq);
      ReadableAlloc(t) && |BranchAlloc(t, p, to).regions| > 0 && BranchAlloc(t, p, to).regions[0].base == al.regions[0].base
  {
    hide InRange, Readable;
    TouchedAlloc(al, p.run, p.runSeq, p, to);
  }

  lemma {:induction false} RunGood(w: World, moves: seq<Move>, w': World)
    requires GoodWorld(w) && Runs(w, moves, w') && forall i :: 0 <= i < |moves| ==> GoodMove(moves[i])
    ensures GoodWorld(w')
    decreases |moves|
  {
    hide GoodWorld, CanMove, GoodMove, Next;
    if moves != [] {
      NextGood(w, moves[0]);
      RunGood(Next(w, moves[0]), moves[1..], w');
    }
  }

  // ---- the main results --------------------------------------------------------------------------------------------

  /** The scan lists a live region of the allocation. */
  ghost predicate ListsLive(v: Option<Scan>, a: nat) {
    v.Some? && exists i :: 0 <= i < |v.value| && v.value[i].mbi.allocBase == a && IsLive(v.value[i])
  }

  /**
   The history returns the scan: an allocation for each one the scan lists a live region of, headed by the region at
   the allocation base, with exactly its live regions, attributes and bytes.
   */
  ghost predicate ReturnsScan(h: Hist, v: Option<Scan>, r: nat, s: nat) {
    InRangeHist(h, r, s) &&
    var cur := CurrentAllocations(h, r, s);
    && (forall a :: a in cur <==> ListsLive(v, a))
    && (forall a :: a in cur ==> LiveOf(cur[a], v, a) && |cur[a]| > 0 && cur[a][0].mbi.base == a)
  }

  /** What each allocation returns decides what the whole history returns. */
  lemma ReturnsByAllocation(h: Hist, v: Option<Scan>, r: nat, s: nat)
    requires InRangeHist(h, r, s)
    requires var cur := CurrentAllocations(h, r, s);
      && (forall a: nat :: a in cur <==> ListsLive(v, a))
      && (forall a :: a in cur ==> |cur[a]| > 0 && cur[a][0].mbi.base == a)
      && (forall a :: a in cur ==> (LiveOf(cur[a], v, a) <==> AllocationFits(v, a)))
    ensures ReturnsScan(h, v, r, s) <==> ScanFits(v)
  {
    hide InRangeHist, LiveOf, AllocationFits, ScanFits, ListsLive, CurrentAllocations;
    FitsByAllocation(v, CurrentAllocations(h, r, s));
  }

  lemma AllocationReturned(w: World, a: nat, r: nat, s: nat)
    requires GoodWorld(w) && InRangeHist(w.hist, r, s) && a in CurrentAllocations(w.hist, r, s)
    ensures var l := CurrentAllocations(w.hist, r, s)[a];
      |l| > 0 && l[0].mbi.base == a && (LiveOf(l, Read(w.scans, r, s), a) <==> AllocationFits(Read(w.scans, r, s), a))
  {
    hide AllocOk, InRangeAlloc, HasRegion, Tracked, AllHeaded, LiveOf, AllocationFits;
    AllocationReads(w, a, r, s);
    HeadFirst(w, a, r, s);
  }

  /** The visible scan comes back, whole and alone, if and only if its committed sizes fit in 32 bits. */
  lemma CurrentIsScan(w: World, r: nat, s: nat)
    requires GoodWorld(w)
    ensures OriginsBelow(w.scans.origins)
    ensures ReturnsScan(w.hist, Read(w.scans, r, s), r, s) <==> ScanFits(Read(w.scans, r, s))
  {
    WorldBelow(w);
    OkIsInRange(w, r, s);
    hide GoodWorld, InRangeHist, LiveOf, LiveRegions, ListsLive, AllocationFits, ScanFits, CurrentAllocations, ReturnsScan;
    var v := Read(w.scans, r, s);
    var cur: map<nat, seq<RegionInfo>> := CurrentAllocations(w.hist, r, s);
    forall a: nat ensures a in cur <==> ListsLive(v, a) {
      ReturnedWhenListed(w, a, r, s);
    }
    forall a: nat | a in cur ensures |cur[a]| > 0 && cur[a][0].mbi.base == a && (LiveOf(cur[a], v, a) <==> AllocationFits(v, a)) {
      AllocationReturned(w, a, r, s);
    }
    ReturnsByAllocation(w.hist, v, r, s);
  }

  lemma FitsByAllocation(v: Option<Scan>, cur: map<nat, seq<RegionInfo>>)
    requires forall a: nat :: a in cur <==> ListsLive(v, a)
    ensures ScanFits(v) <==> forall a :: a in cur ==> AllocationFits(v, a)
  {
    if forall a :: a in cur ==> AllocationFits(v, a) {
      forall info | v.Some? && info in v.value && IsLive(info) ensures Fits(info) {
        var i :| 0 <= i < |v.value| && v.value[i] == info;
        assert ListsLive(v, info.mbi.allocBase);
      }
    }
  }

  lemma ReturnedWhenListed(w: World, a: nat, r: nat, s: nat)
    requires GoodWorld(w) && InRangeHist(w.hist, r, s)
    ensures a in CurrentAllocations(w.hist, r, s) <==> ListsLive(Read(w.scans, r, s), a)
  {
    hide AllocOk, InRangeAlloc, HasRegion, Tracked;
    var v := Read(w.scans, r, s);
    HeadDecides(w, a, r, s);
    if a in CurrentAllocations(w.hist, r, s) {
      RecordOfLive(v.value, a, a);
    } else if ListsLive(v, a) {
      var i :| 0 <= i < |v.value| && v.value[i].mbi.allocBase == a && IsLive(v.value[i]);
      VisibleScan(w, r, s);
      VisibleHeaded(w, r, s);
      assert HasHead(v.value, i);
      var k: nat :| HeadOf(v.value, i, k);
      RecordOfListed(v.value, k);
      var j := ListedIsLive(w, r, s, v.value[i]);
    }
  }

  lemma VisibleHeaded(w: World, r: nat, s: nat)
    requires GoodWorld(w) && Read(w.scans, r, s).Some?
    ensures Headed(Read(w.scans, r, s).value)
  {
    hide AllocOk, HasRegion, Headed;
  }

  lemma HeadFirst(w: World, a: nat, r: nat, s: nat)
    requires GoodWorld(w) && InRangeHist(w.hist, r, s) && a in CurrentAllocations(w.hist, r, s)
    ensures var l := LiveRegions(w.hist[a], r, s); |l| > 0 && l[0].mbi.base == a
  {
    hide AllocOk, HasRegion, Tracked, InRange, Readable;
    var al := w.hist[a];
    RegionSees(w, a, 0, r, s);
    RecordOfLive(VisibleOf(w, r, s), a, a);
    LiveUpToPrefix(al, r, s, |al.regions|);
  }

  lemma {:induction false} LiveUpToPrefix(al: Alloc, r: nat, s: nat, k: nat)
    requires InRangeAlloc(al, r, s) && 1 <= k <= |al.regions| && Live(InfoAt(al.regions[0], r, s))
    ensures var l := LiveUpTo(al, r, s, k); |l| > 0 && l[0] == InfoAt(al.regions[0], r, s).value
  {
    hide InRangeAlloc, InfoAt;
    if k > 1 {
      LiveUpToPrefix(al, r, s, k - 1);
    } else {
      assert LiveUpTo(al, r, s, 0) == [];
    }
  }

  function StepOf(move: Move): Step<Scan> {
    match move
    case Scanned(s, scan) => Record(s, scan)
    case Restored(p) => Restore(p)
  }

  function StepsOf(moves: seq<Move>): seq<Step<Scan>> {
    if moves == [] then [] else [StepOf(moves[0])] + StepsOf(moves[1..])
  }

  function TimelineOf(w: World): Timeline<Scan> {
    Timeline(w.scans, w.active, w.next)
  }

  /** The scans of a run are what the lineage log of its scans and restores holds. */
  lemma {:induction false} RunIsLineage(w: World, moves: seq<Move>, w': World)
    requires WorldOk(w) && Runs(w, moves, w')
    ensures Possible(TimelineOf(w), StepsOf(moves)) && Run(TimelineOf(w), StepsOf(moves)) == TimelineOf(w')
    decreases |moves|
  {
    hide AllocOk, HasRegion, InRangeAlloc, UsableAlloc, Tracked, ProperScan;
    if moves != [] {
      var w1 := Next(w, moves[0]);
      match moves[0] {
        case Scanned(s, scan) => ScannedKeeps(w, s, scan);
        case Restored(p) => RestoredKeeps(w, p);
      }
      RunIsLineage(w1, moves[1..], w');
      assert StepsOf(moves)[1..] == StepsOf(moves[1..]);
      assert TimelineOf(w1) == Take(TimelineOf(w), StepOf(moves[0]));
    }
  }

  /** From the start, after any run, every point returns the scan that the lineage log of the run shows there. */
  lemma EveryRunReturnsScans(moves: seq<Move>, w: World, r: nat, s: nat)
    requires Runs(START, moves, w) && forall i :: 0 <= i < |moves| ==> GoodMove(moves[i])
    ensures var t := Run(TimelineOf(START), StepsOf(moves));
      OriginsBelow(t.log.origins) && (ReturnsScan(w.hist, Read(t.log, r, s), r, s) <==> ScanFits(Read(t.log, r, s)))
  {
    assert GoodWorld(START);
    RunGood(START, moves, w);
    RunIsLineage(START, moves, w);
    CurrentIsScan(w, r, s);
  }

  /** Full persistence: later scans and restores never change what an earlier point returns. */
  lemma PointsStay(w: World, later: seq<Move>, w': World, p: Point)
    requires GoodWorld(w) && Runs(w, later, w') && forall i :: 0 <= i < |later| ==> GoodMove(later[i])
    requires Settled(TimelineOf(w), p)
    ensures ReturnsScan(w'.hist, Read(w.scans, p.run, p.runSeq), p.run, p.runSeq) <==> ScanFits(Read(w.scans, p.run, p.runSeq))
  {
    RunGood(w, later, w');
    RunIsLineage(w, later, w');
    Persistence(TimelineOf(w), StepsOf(later), p);
    CurrentIsScan(w', p.run, p.runSeq);
  }

  /** Right after a restore the fresh run returns, at every sequence number, what the target returned. */
  lemma RestoreReturnsTarget(w: World, p: Point, s: nat)
    requires GoodWorld(w) && p.run <= w.active
    ensures ReturnsScan(Next(w, Restored(p)).hist, Read(w.scans, p.run, p.runSeq), w.active + 1, s)
       <==> ScanFits(Read(w.scans, p.run, p.runSeq))
  {
    hide ReturnsScan, AllocOk, HasRegion, InRangeAlloc, UsableAlloc, Tracked, AllHeaded;
    NextGood(w, Restored(p));
    CurrentIsScan(Next(w, Restored(p)), w.active + 1, s);
    BranchReads(w.scans, w.active, w.next, p, w.active + 1, w.active + 1, s);
  }

  // ---- an allocation that loses its first region ------------------------------------------------------------------------

  function Reserved(base: nat): RegionInfo {
    RegionInfo(Mbi(base, 0x1000, 4, 0x1000, MemReserve, 0, 0x20000), [])
  }

  const BOTH := [Reserved(0x1000), Reserved(0x2000)]
  const SECOND := [Reserved(0x2000)]

  lemma SmallScans()
    ensures ProperScan(BOTH) && Headed(BOTH) && ProperScan(SECOND)
  {
    assert HeadOf(BOTH, 0, 0) && HeadOf(BOTH, 1, 0);
  }

  /** The first region recorded for the allocation is the one at its base, and stays the first one. */
  lemma HeadAfterScans(w: World)
    requires GoodWorld(w) && w.next <= 0
    ensures CanMove(w, Scanned(0, BOTH))
    ensures var w1 := Next(w, Scanned(0, BOTH));
      && GoodWorld(w1) && CanMove(w1, Scanned(1, SECOND))
      && HeadIs(Next(w1, Scanned(1, SECOND)).hist, 0x1000, 0x1000)
  {
    hide AllocOk, HasRegion, Headed, ProperScan, Tracked, AllHeaded, UsableAlloc, Snapshot, WorldOk, HeadsAtBase;
    SmallScans();
    NextGood(w, Scanned(0, BOTH));
    var w1 := Next(w, Scanned(0, BOTH));
    WorldUsable(w);
    WorldUsable(w1);
    SnapshotGrows(w.hist, BOTH, w.active, 0);
    assert BOTH[0].mbi.allocBase == 0x1000;
    AtBase(w1.hist, 0x1000);
    SnapshotGrows(w1.hist, SECOND, w1.active, 1);
  }

  lemma WorldUsable(w: World)
    requires WorldOk(w)
    ensures UsableHist(w.hist)
  {
  }

  ghost predicate HeadIs(h: Hist, a: nat, b: nat) {
    a in h && |h[a].regions| > 0 && h[a].regions[0].base == b
  }

  lemma AtBase(h: Hist, a: nat)
    requires HeadsAtBase(h) && a in h
    ensures HeadIs(h, a, a)
  {
  }

  /** First both regions of an allocation are scanned, then only the second: it is live, and nothing is returned. */
  lemma LostHeadIsNotReturned() returns (w: World)
    ensures Runs(START, [Scanned(0, BOTH), Scanned(1, SECOND)], w)
    ensures WorldOk(w) && InRangeHist(w.hist, 0, 1) && Read(w.scans, 0, 1) == Some(SECOND)
    ensures ScanFits(Some(SECOND)) && !ReturnsAll(w, 0, 1, SECOND)
  {
    assert GoodWorld(START);
    hide GoodWorld, WorldOk, Next, InRangeHist, ProperScan, HeadsAtBase, AllHeaded;
    HeadAfterScans(START);
    SmallScans();
    var w1 := Next(START, Scanned(0, BOTH));
    w := Next(w1, Scanned(1, SECOND));
    GoodIsOk(START);
    GoodIsOk(w1);
    ScannedKeeps(w1, 1, SECOND);
    OkIsInRange(w, 0, 1);
    ScansAfter(START, 0, BOTH);
    ScansAfter(w1, 1, SECOND);
    RunsTwice(START, Scanned(0, BOTH), Scanned(1, SECOND));
    ReturnsAllIff(w, 0, 1);
    NotHeadLive(w);
  }

  lemma RunsTwice(w: World, first: Move, second: Move)
    requires WorldOk(w) && CanMove(w, first) && WorldOk(Next(w, first)) && CanMove(Next(w, first), second)
    ensures Runs(w, [first, second], Next(Next(w, first), second))
  {
    assert [first, second][1..] == [second] && [second][1..] == [];
  }

  lemma NotHeadLive(w: World)
    requires HeadIs(w.hist, 0x1000, 0x1000)
    ensures !HeadsLive(w, SECOND) && ScanFits(Some(SECOND))
  {
    assert SECOND[1..] == [];
    assert SECOND[0] in SECOND;
  }

  lemma GoodIsOk(w: World)
    requires GoodWorld(w)
    ensures WorldOk(w)
  {
  }

  lemma ScansAfter(w: World, s: nat, scan: Scan)
    requires WorldOk(w) && CanMove(w, Scanned(s, scan))
    ensures var w' := Next(w, Scanned(s, scan));
      OriginsBelow(w'.scans.origins) && w'.active == w.active && Read(w'.scans, w.active, s) == Some(scan)
  {
    AppendReads(w.scans, w.active, w.next, s, scan, w.active, s);
  }
}
