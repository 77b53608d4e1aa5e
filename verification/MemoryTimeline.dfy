/**
 Whole runs of the versioned address space: any interleaving of scans and restores. What the history returns for
 a point is the scan visible from that point in the lineage log of scans.
 */
module MemoryTimeline {
  import opened Options
  import opened Lineage
  import opened TreeHistory
  import opened PagedMemory
  import opened RegionModel
  import opened AllocationModel
  import opened ProcessMemory

  // ---- reading ---------------------------------------------------------------------------------------------

  ghost predicate InRangeAlloc(al: Alloc, r: nat, s: nat) {
    ReadableAlloc(al) && forall j :: 0 <= j < |al.regions| ==> InRange(al.regions[j], r, s)
  }

  predicate Live(info: Option<RegionInfo>) {
    info.Some? && info.value.mbi.state != MemFree
  }

  /** The first k regions that exist and are not free, in the order they were first seen. */
  function LiveUpTo(al: Alloc, r: nat, s: nat, k: nat): seq<RegionInfo>
    requires InRangeAlloc(al, r, s) && k <= |al.regions|
  {
    if k == 0 then []
    else LiveUpTo(al, r, s, k - 1) + if Live(InfoAt(al.regions[k - 1], r, s)) then [InfoAt(al.regions[k - 1], r, s).value] else []
  }

  function LiveRegions(al: Alloc, r: nat, s: nat): seq<RegionInfo>
    requires InRangeAlloc(al, r, s)
  {
    LiveUpTo(al, r, s, |al.regions|)
  }

  /** An allocation counts as freed when its first region does not exist or is free. */
  predicate FreedAt(al: Alloc, r: nat, s: nat)
    requires InRangeAlloc(al, r, s)
  {
    !Live(InfoAt(al.regions[0], r, s))
  }

  ghost predicate InRangeHist(h: Hist, r: nat, s: nat) {
    forall a :: a in h ==> InRangeAlloc(h[a], r, s)
  }

  /** get_current_allocation_regions. */
  ghost function CurrentAllocations(h: Hist, r: nat, s: nat): map<nat, seq<RegionInfo>>
    requires InRangeHist(h, r, s)
  {
    map a | a in h && !FreedAt(h[a], r, s) :: LiveRegions(h[a], r, s)
  }

  function TouchAlloc(al: Alloc, r: nat, s: nat): (al': Alloc)
    requires InRangeAlloc(al, r, s)
    ensures |al'.regions| == |al.regions| && al'.seen == al.seen
    ensures forall j :: 0 <= j < |al.regions| ==>
      al'.regions[j] == if j == 0 || !FreedAt(al, r, s) then TouchRegion(al.regions[j], r, s) else al.regions[j]
  {
    Alloc(seq(|al.regions|, j requires 0 <= j < |al.regions| && InRangeAlloc(al, r, s) =>
            if j == 0 || !FreedAt(al, r, s) then TouchRegion(al.regions[j], r, s) else al.regions[j]),
          al.seen)
  }

  /** The history after that read. */
  ghost function TouchHist(h: Hist, r: nat, s: nat): (h': Hist)
    requires InRangeHist(h, r, s)
    ensures h'.Keys == h.Keys && forall a :: a in h ==> h'[a] == TouchAlloc(h[a], r, s)
  {
    map a | a in h :: TouchAlloc(h[a], r, s)
  }

  ghost predicate ReadableHist(h: Hist) {
    forall a :: a in h ==> ReadableAlloc(h[a])
  }

  ghost function BranchHist(h: Hist, from: Point, to: nat): (h': Hist)
    requires ReadableHist(h)
    ensures h'.Keys == h.Keys && forall a :: a in h ==> h'[a] == BranchAlloc(h[a], from, to)
  {
    map a | a in h :: BranchAlloc(h[a], from, to)
  }

  // ---- the state machine -------------------------------------------------------------------------------------

  datatype World = World(hist: Hist, scans: Log<Scan>, active: nat, next: nat)

  datatype Move = Scanned(runSeq: nat, scan: Scan) | Restored(target: Point)

  ghost predicate HasRegion(h: Hist, a: nat, b: nat, p: Point) {
    a in h && exists j :: 0 <= j < |h[a].regions| && SinceRegion(h[a].regions[j], b, p)
  }

  ghost predicate SinceRegion(rg: Region, b: nat, p: Point) {
    rg.base == b && Sized(rg.mbis) && NotBefore(p, Created(rg))
  }

  /** Whatever a scan lists has a history that starts no later than that scan. */
  ghost predicate Tracked(h: Hist, scans: Log<Scan>) {
    forall r, i, k :: r in scans.entries && 0 <= i < |scans.entries[r]| && 0 <= k < |scans.entries[r][i].data| ==>
      var info := scans.entries[r][i].data[k];
      HasRegion(h, info.mbi.allocBase, info.mbi.base, Point(r, scans.entries[r][i].runSeq))
  }

  ghost predicate WorldOk(w: World) {
    && Wf(w.scans, w.active, w.next)
    && AllProper(w.scans)
    && UsableHist(w.hist)
    && (forall a :: a in w.hist ==> AllocOk(w.hist[a], a, w.scans, w.active, w.next))
    && Tracked(w.hist, w.scans)
  }

  ghost predicate CanMove(w: World, move: Move) {
    match move
    case Scanned(s, scan) => w.next <= s && ProperScan(scan)
    case Restored(p) => p.run <= w.active
  }

  /** A restore reads the target, then branches everything from it. */
  ghost function Next(w: World, move: Move): World
    requires WorldOk(w) && CanMove(w, move)
  {
    match move
    case Scanned(s, scan) =>
      World(Snapshot(w.hist, scan, w.active, s), Append(w.scans, w.active, s, scan), w.active, s + 1)
    case Restored(p) =>
      (OkIsInRange(w, p.run, p.runSeq);
       TouchedIsReadable(w.hist, p.run, p.runSeq);
       World(BranchHist(TouchHist(w.hist, p.run, p.runSeq), p, w.active + 1),
             Branch(w.scans, p, w.active + 1), w.active + 1, 0))
  }

  lemma OkIsInRange(w: World, r: nat, s: nat)
    requires WorldOk(w)
    ensures InRangeHist(w.hist, r, s)
  {
    hide RegionOk, Tracked;
    forall a | a in w.hist ensures InRangeAlloc(w.hist[a], r, s) {
      var al := w.hist[a];
      forall j | 0 <= j < |al.regions|
        ensures Sized(al.regions[j].mbis) && Readable(al.regions[j].memory) && InRange(al.regions[j], r, s)
      {
        OkReads(al.regions[j], a, w.scans, w.active, w.next, r, s);
      }
    }
  }

  lemma OkReads(rg: Region, a: nat, scans: Log<Scan>, active: nat, next: nat, r: nat, s: nat)
    requires RegionOk(rg, a, scans, active, next)
    ensures Sized(rg.mbis) && Readable(rg.memory) && InRange(rg, r, s)
  {
    RegionReads(rg, RegionLog(scans, a, rg.base, Created(rg)), active, next, r, s);
  }

  lemma TouchedIsReadable(h: Hist, r: nat, s: nat)
    requires InRangeHist(h, r, s)
    ensures ReadableHist(h) && ReadableHist(TouchHist(h, r, s))
  {
    hide Readable, InRange;
    forall a | a in h ensures ReadableAlloc(TouchAlloc(h[a], r, s)) {
      TouchedAlloc(h[a], r, s, Point(0, 0), 0);
    }
  }

  lemma TouchedAlloc(al: Alloc, r: nat, s: nat, from: Point, to: nat)
    requires InRangeAlloc(al, r, s)
    ensures ReadableAlloc(TouchAlloc(al, r, s))
    ensures BranchAlloc(TouchAlloc(al, r, s), from, to) == BranchAlloc(al, from, to)
  {
    var al' := TouchAlloc(al, r, s);
    forall j | 0 <= j < |al.regions|
      ensures Sized(al'.regions[j].mbis) && Readable(al'.regions[j].memory)
      ensures BranchRegion(al'.regions[j], from, to) == BranchRegion(al.regions[j], from, to)
    {
      BranchAfterTouch(al.regions[j], r, s, from, to);
    }
    assert BranchAlloc(al', from, to).regions == BranchAlloc(al, from, to).regions;
  }

  // ---- every move keeps the world ------------------------------------------------------------------------------

  /** Regions stay where they are, with their base and creation point. */
  ghost predicate Grows(al: Alloc, al': Alloc) {
    |al.regions| <= |al'.regions| && forall j :: 0 <= j < |al.regions| ==> SameRegion(al.regions[j], al'.regions[j])
  }

  ghost predicate SameRegion(rg: Region, rg': Region) {
    rg.base == rg'.base && Sized(rg.mbis) && Sized(rg'.mbis) && Created(rg) == Created(rg')
  }

  ghost predicate GrowsHist(h: Hist, h': Hist) {
    forall a :: a in h ==> a in h' && Grows(h[a], h'[a])
  }

  lemma TrackedGrows(h: Hist, h': Hist, scans: Log<Scan>)
    requires Tracked(h, scans) && GrowsHist(h, h')
    ensures Tracked(h', scans)
  {
    forall a: nat, b: nat, p: Point | HasRegion(h, a, b, p) ensures HasRegion(h', a, b, p) {
      var j :| 0 <= j < |h[a].regions| && SinceRegion(h[a].regions[j], b, p);
      assert SameRegion(h[a].regions[j], h'[a].regions[j]);
      assert SinceRegion(h'[a].regions[j], b, p);
    }
  }

  lemma UpdateRegionSame(rg: Region, info: RegionInfo, r: nat, s: nat)
    requires Usable(rg)
    ensures SameRegion(rg, UpdateRegion(rg, info, r, s))
  {
  }

  lemma UpdateGrows(h: Hist, info: RegionInfo, r: nat, s: nat)
    requires UsableHist(h)
    ensures GrowsHist(h, UpdateHist(h, info, r, s))
  {
    forall a | a in h ensures Grows(h[a], UpdateHist(h, info, r, s)[a]) {
      var al := h[a];
      var i := IndexOf(al.regions, info.mbi.base);
      if i.Some? {
        UpdateRegionSame(al.regions[i.value], info, r, s);
      }
    }
  }

  lemma GrowsTrans(h: Hist, h1: Hist, h2: Hist)
    requires GrowsHist(h, h1) && GrowsHist(h1, h2)
    ensures GrowsHist(h, h2)
  {
    forall a, j | a in h && 0 <= j < |h[a].regions| ensures SameRegion(h[a].regions[j], h2[a].regions[j]) {
      assert SameRegion(h[a].regions[j], h1[a].regions[j]) && SameRegion(h1[a].regions[j], h2[a].regions[j]);
    }
  }

  ghost predicate HasBase(h: Hist, a: nat, b: nat) {
    a in h && Bases(h[a].regions, b)
  }

  lemma HasBaseGrows(h: Hist, h': Hist, a: nat, b: nat)
    requires HasBase(h, a, b) && GrowsHist(h, h')
    ensures HasBase(h', a, b)
  {
    var j := Witness(h[a].regions, b);
    assert SameRegion(h[a].regions[j], h'[a].regions[j]);
    assert h'[a].regions[j].base == b;
  }

  lemma {:induction false} ScanGrows(h: Hist, full: Scan, k: nat, r: nat, s: nat)
    requires UsableHist(h) && k <= |full|
    ensures GrowsHist(h, ScanHist(h, full, k, r, s))
    ensures forall i :: 0 <= i < k ==> HasBase(ScanHist(h, full, k, r, s), full[i].mbi.allocBase, full[i].mbi.base)
  {
    hide GrowsHist, HasBase, UpdateHist, UsableHist;
    if k == 0 {
      GrowsSelf(h);
    } else {
      var h1, info := ScanHist(h, full, k - 1, r, s), full[k - 1];
      ScanGrows(h, full, k - 1, r, s);
      UpdateGrows(h1, info, r, s);
      GrowsTrans(h, h1, UpdateHist(h1, info, r, s));
      UpdateHasBase(h1, info, r, s);
      forall i | 0 <= i < k - 1 ensures HasBase(UpdateHist(h1, info, r, s), full[i].mbi.allocBase, full[i].mbi.base) {
        HasBaseGrows(h1, UpdateHist(h1, info, r, s), full[i].mbi.allocBase, full[i].mbi.base);
      }
    }
  }

  lemma GrowsSelf(h: Hist)
    requires UsableHist(h)
    ensures GrowsHist(h, h)
  {
    forall a, j | a in h && 0 <= j < |h[a].regions| ensures SameRegion(h[a].regions[j], h[a].regions[j]) {
      assert Usable(h[a].regions[j]);
    }
  }

  lemma UpdateHasBase(h: Hist, info: RegionInfo, r: nat, s: nat)
    requires UsableHist(h)
    ensures HasBase(UpdateHist(h, info, r, s), info.mbi.allocBase, info.mbi.base)
  {
    var a := info.mbi.allocBase;
    var regions := UpdateHist(h, info, r, s)[a].regions;
    var j := if a !in h then 0 else
             if IndexOf(h[a].regions, info.mbi.base).Some? then IndexOf(h[a].regions, info.mbi.base).value else |h[a].regions|;
    assert regions[j].base == info.mbi.base;
  }

  lemma StaleGrows(h: Hist, r: nat, s: nat)
    requires UsableHist(h)
    ensures GrowsHist(h, StaleHist(h, r, s))
  {
    forall a, j | a in h && 0 <= j < |h[a].regions| ensures SameRegion(h[a].regions[j], StaleHist(h, r, s)[a].regions[j]) {
      UpdateRegionSame(h[a].regions[j], FREED, r, s);
    }
  }

  lemma SnapshotGrows(h: Hist, full: Scan, r: nat, s: nat)
    requires UsableHist(h)
    ensures GrowsHist(h, Snapshot(h, full, r, s)) && UsableHist(Snapshot(h, full, r, s))
    ensures forall i :: 0 <= i < |full| ==> HasBase(Snapshot(h, full, r, s), full[i].mbi.allocBase, full[i].mbi.base)
  {
    hide GrowsHist, HasBase;
    var h1 := ScanHist(h, full, |full|, r, s);
    ScanGrows(h, full, |full|, r, s);
    StaleGrows(h1, r, s);
    GrowsTrans(h, h1, StaleHist(h1, r, s));
    forall i | 0 <= i < |full| ensures HasBase(StaleHist(h1, r, s), full[i].mbi.allocBase, full[i].mbi.base) {
      HasBaseGrows(h1, StaleHist(h1, r, s), full[i].mbi.allocBase, full[i].mbi.base);
    }
  }

  lemma OkHasRegion(h: Hist, a: nat, b: nat, scans: Log<Scan>, active: nat, s: nat)
    requires HasBase(h, a, b) && AllocOk(h[a], a, scans, active, s + 1)
    ensures HasRegion(h, a, b, Point(active, s))
  {
    var j := Witness(h[a].regions, b);
    var rg := h[a].regions[j];
    assert RegionOk(rg, a, scans, active, s + 1);
    FirstKeyIsOld(rg.mbis, MbiLog(RegionLog(scans, a, rg.base, Created(rg))), active, s + 1);
    assert SinceRegion(rg, b, Point(active, s));
  }

  lemma ScannedKeeps(w: World, s: nat, scan: Scan)
    requires WorldOk(w) && w.next <= s && ProperScan(scan)
    ensures WorldOk(Next(w, Scanned(s, scan)))
  {
    hide AllocOk, HasRegion, HasBase, GrowsHist, ProperScan;
    var m, w' := Moment(w.scans, w.active, w.next, s, scan), Next(w, Scanned(s, scan));
    AppendWf(w.scans, w.active, w.next, s, scan);
    SnapshotKeeps(w.hist, m);
    SnapshotGrows(w.hist, scan, w.active, s);
    TrackedGrows(w.hist, w'.hist, w.scans);
    ScannedTracked(w'.hist, scan, w'.scans, w.active, s);
  }

  lemma ScannedTracked(h: Hist, scan: Scan, scans: Log<Scan>, active: nat, s: nat)
    requires forall a :: a in h ==> AllocOk(h[a], a, scans, active, s + 1)
    requires forall i :: 0 <= i < |scan| ==> HasBase(h, scan[i].mbi.allocBase, scan[i].mbi.base)
    ensures forall i :: 0 <= i < |scan| ==> HasRegion(h, scan[i].mbi.allocBase, scan[i].mbi.base, Point(active, s))
  {
    hide AllocOk, HasRegion, HasBase;
    forall i | 0 <= i < |scan| ensures HasRegion(h, scan[i].mbi.allocBase, scan[i].mbi.base, Point(active, s)) {
      BaseListed(h, scan[i].mbi.allocBase, scan[i].mbi.base);
      OkHasRegion(h, scan[i].mbi.allocBase, scan[i].mbi.base, scans, active, s);
    }
  }

  lemma BaseListed(h: Hist, a: nat, b: nat)
    requires HasBase(h, a, b)
    ensures a in h
  {
  }

  lemma RestoredKeeps(w: World, p: Point)
    requires WorldOk(w) && p.run <= w.active
    ensures WorldOk(Next(w, Restored(p)))
  {
    hide AllocOk, HasRegion, GrowsHist, InRangeAlloc, UsableAlloc, ReadableAlloc, ProperScan, Tracked, Grows;
    var w' := Next(w, Restored(p));
    BranchWf(w.scans, w.active, w.next, p, w.active + 1);
    TrackedBranch(w.hist, w.scans, p, w.active + 1);
    OkIsInRange(w, p.run, p.runSeq);
    forall a | a in w.hist
      ensures UsableAlloc(w'.hist[a]) && AllocOk(w'.hist[a], a, w'.scans, w'.active, 0)
      ensures Grows(w.hist[a], w'.hist[a])
    {
      RestoredAlloc(w.hist[a], a, w.scans, w.active, w.next, p);
    }
    RestoredGrows(w.hist, w'.hist);
    TrackedGrows(w.hist, w'.hist, Branch(w.scans, p, w.active + 1));
  }

  lemma TrackedBranch(h: Hist, scans: Log<Scan>, p: Point, to: nat)
    requires Tracked(h, scans)
    ensures Tracked(h, Branch(scans, p, to))
  {
  }

  lemma RestoredGrows(h: Hist, h': Hist)
    requires forall a :: a in h ==> a in h' && Grows(h[a], h'[a])
    ensures GrowsHist(h, h')
  {
  }

  lemma RestoredAlloc(al: Alloc, a: nat, scans: Log<Scan>, active: nat, next: nat, p: Point)
    requires AllocOk(al, a, scans, active, next) && p.run <= active && InRangeAlloc(al, p.run, p.runSeq)
    ensures var al' := TouchAlloc(al, p.run, p.runSeq);
      && ReadableAlloc(al')
      && UsableAlloc(BranchAlloc(al', p, active + 1))
      && AllocOk(BranchAlloc(al', p, active + 1), a, Branch(scans, p, active + 1), active + 1, 0)
      && Grows(al, BranchAlloc(al', p, active + 1))
  {
    hide RegionOk, Readable, InRange;
    TouchedAlloc(al, p.run, p.runSeq, p, active + 1);
    BranchAllocOk(al, a, scans, active, next, p);
    var al' := BranchAlloc(al, p, active + 1);
    forall j | 0 <= j < |al.regions| ensures Usable(al'.regions[j]) && SameRegion(al.regions[j], al'.regions[j]) {
      BranchRegionOk(al.regions[j], a, scans, active, next, p);
    }
  }

  // ---- whole runs ----------------------------------------------------------------------------------------------

  const START := World(map[], Log(map[0 := []], map[]), 0, 0)

  ghost predicate Runs(w: World, moves: seq<Move>, w': World)
    decreases |moves|
  {
    if moves == [] then w' == w
    else WorldOk(w) && CanMove(w, moves[0]) && Runs(Next(w, moves[0]), moves[1..], w')
  }

  lemma {:induction false} RunKeeps(w: World, moves: seq<Move>, w': World)
    requires WorldOk(w) && Runs(w, moves, w')
    ensures WorldOk(w')
    decreases |moves|
  {
    if moves != [] {
      match moves[0] {
        case Scanned(s, scan) => ScannedKeeps(w, s, scan);
        case Restored(p) => RestoredKeeps(w, p);
      }
      RunKeeps(Next(w, moves[0]), moves[1..], w');
    }
  }
}
