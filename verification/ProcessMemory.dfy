/**
 The versioned address space: every allocation's regions (ProcessMemoryHistory), driven by whole scans and by
 restores. The specification is one lineage log of scans.
 */
module ProcessMemory {
  import opened Options
  import opened Lineage
  import opened TreeHistory
  import opened PagedMemory
  import opened RegionModel
  import opened AllocationModel

  type Hist = map<nat, Alloc>

  // ---- one allocation during a scan --------------------------------------------------------------------

  ghost predicate DistinctBases(regions: seq<Region>) {
    forall i, j :: 0 <= i < j < |regions| ==> regions[i].base != regions[j].base
  }

  ghost predicate Bases(regions: seq<Region>, b: nat) {
    exists j :: 0 <= j < |regions| && regions[j].base == b
  }

  /** Between scans every region reads as the log of scans says. */
  ghost predicate AllocOk(al: Alloc, a: nat, scans: Log<Scan>, active: nat, next: nat) {
    && al.seen == []
    && |al.regions| > 0
    && DistinctBases(al.regions)
    && forall j :: 0 <= j < |al.regions| ==> RegionOk(al.regions[j], a, scans, active, next)
  }

  /** During a scan: its place in the log, and what it lists. */
  datatype Moment = Moment(scans: Log<Scan>, active: nat, next: nat, s: nat, full: Scan)

  ghost predicate ProperMoment(m: Moment) {
    Wf(m.scans, m.active, m.next) && m.next <= m.s && ProperScan(m.full)
  }

  function After(m: Moment): Log<Scan> {
    Append(m.scans, m.active, m.s, m.full)
  }

  /** A region already dealt with by the scan reads as the log with the scan; any other as the log before it. */
  ghost predicate RegionMid(rg: Region, a: nat, m: Moment, done: bool) {
    if done then RegionOk(rg, a, After(m), m.active, m.s + 1) else RegionOk(rg, a, m.scans, m.active, m.next)
  }

  ghost predicate SeenMid(al: Alloc, m: Moment, done: set<nat>)
    requires |al.regions| > 0 && Sized(al.regions[0].mbis)
  {
    && (forall i, j :: 0 <= i < j < |al.seen| ==> al.seen[i] != al.seen[j])
    && (forall b :: b in al.seen ==> b in done)
    && (forall b :: b in done ==> Bases(al.regions, b))
    && (forall b :: b in done ==> b in al.seen || (b == al.regions[0].base && Created(al.regions[0]) == Point(m.active, m.s)))
  }

  ghost predicate AllocMid(al: Alloc, a: nat, m: Moment, done: set<nat>) {
    && UsableAlloc(al)
    && DistinctBases(al.regions)
    && (forall j :: 0 <= j < |al.regions| ==> RegionMid(al.regions[j], a, m, al.regions[j].base in done))
    && SeenMid(al, m, done)
  }

  /** One region after an update of the allocation. */
  lemma UpdateRegionMid(al: Alloc, a: nat, m: Moment, done: set<nat>, info: RegionInfo, j: nat)
    requires ProperMoment(m) && AllocMid(al, a, m, done) && j < |UpdateAlloc(al, info, m.active, m.s).regions|
    requires info.mbi.base !in done && Sound(info) && RecordOf(m.full, a, info.mbi.base) == info
    ensures var rg := UpdateAlloc(al, info, m.active, m.s).regions[j]; RegionMid(rg, a, m, rg.base in done + {info.mbi.base})
  {
    hide RegionOk, SeenMid, ProperScan, NewTree, AddChild, Write;
    if j == |al.regions| {
      NewRegionOk(info, a, m.scans, m.active, m.next, m.s, m.full);
    } else {
      assert RegionMid(al.regions[j], a, m, al.regions[j].base in done);
      if IndexOf(al.regions, info.mbi.base) == Some(j) {
        UpdateRegionOk(al.regions[j], a, m.scans, m.active, m.next, info, m.s, m.full);
      }
    }
  }

  lemma UpdateSeenMid(al: Alloc, a: nat, m: Moment, done: set<nat>, info: RegionInfo)
    requires AllocMid(al, a, m, done) && info.mbi.base !in done
    ensures var al' := UpdateAlloc(al, info, m.active, m.s); DistinctBases(al'.regions) && SeenMid(al', m, done + {info.mbi.base})
  {
    hide RegionMid;
    UpdateBases(al, info, m.active, m.s, done);
  }

  lemma UpdateMid(al: Alloc, a: nat, m: Moment, done: set<nat>, info: RegionInfo)
    requires ProperMoment(m) && AllocMid(al, a, m, done)
    requires info.mbi.base !in done && Sound(info) && RecordOf(m.full, a, info.mbi.base) == info
    ensures AllocMid(UpdateAlloc(al, info, m.active, m.s), a, m, done + {info.mbi.base})
  {
    hide RegionMid, SeenMid, DistinctBases, NewRegion, UpdateRegion;
    var b, al' := info.mbi.base, UpdateAlloc(al, info, m.active, m.s);
    forall j: nat | j < |al'.regions| ensures RegionMid(al'.regions[j], a, m, al'.regions[j].base in done + {b}) {
      UpdateRegionMid(al, a, m, done, info, j);
    }
    UpdateSeenMid(al, a, m, done, info);
  }

  /** An update keeps the regions' bases and adds its own. */
  lemma UpdateBases(al: Alloc, info: RegionInfo, r: nat, s: nat, done: set<nat>)
    requires UsableAlloc(al) && forall x :: x in done ==> Bases(al.regions, x)
    ensures forall x :: x in done + {info.mbi.base} ==> Bases(UpdateAlloc(al, info, r, s).regions, x)
  {
    var b, al', i := info.mbi.base, UpdateAlloc(al, info, r, s), IndexOf(al.regions, info.mbi.base);
    forall x | x in done + {b} ensures Bases(al'.regions, x) {
      var j := if x != b then Witness(al.regions, x) else if i.Some? then i.value else |al.regions|;
      assert al'.regions[j].base == x;
    }
  }

  ghost function Witness(regions: seq<Region>, b: nat): (j: nat)
    requires Bases(regions, b)
    ensures j < |regions| && regions[j].base == b
  {
    var j :| 0 <= j < |regions| && regions[j].base == b;
    j
  }

  lemma NewMid(a: nat, m: Moment, info: RegionInfo)
    requires ProperMoment(m) && Sound(info) && RecordOf(m.full, a, info.mbi.base) == info
    ensures AllocMid(NewAlloc(info, m.active, m.s), a, m, {info.mbi.base})
  {
    hide RegionOk;
    NewRegionOk(info, a, m.scans, m.active, m.next, m.s, m.full);
    assert NewAlloc(info, m.active, m.s).regions[0].base == info.mbi.base;
    assert Bases(NewAlloc(info, m.active, m.s).regions, info.mbi.base);
  }

  lemma StartMid(al: Alloc, a: nat, m: Moment)
    requires AllocOk(al, a, m.scans, m.active, m.next)
    ensures AllocMid(al, a, m, {})
  {
    forall j | 0 <= j < |al.regions| ensures Usable(al.regions[j]) && RegionMid(al.regions[j], a, m, false) {
      assert RegionOk(al.regions[j], a, m.scans, m.active, m.next);
      OkIsUsable(al.regions[j], a, m.scans, m.active, m.next);
    }
  }

  lemma OkIsUsable(rg: Region, a: nat, scans: Log<Scan>, active: nat, next: nat)
    requires RegionOk(rg, a, scans, active, next)
    ensures Usable(rg) && Readable(rg.memory)
  {
  }

  /** Distinct names, as many as there are regions, name every region. */
  lemma EverySeen(regions: seq<Region>, seen: seq<nat>)
    requires DistinctBases(regions) && |seen| == |regions|
    requires forall i, j :: 0 <= i < j < |seen| ==> seen[i] != seen[j]
    requires forall b :: b in seen ==> Bases(regions, b)
    ensures forall j :: 0 <= j < |regions| ==> regions[j].base in seen
  {
    var bases := seq(|regions|, j requires 0 <= j < |regions| => regions[j].base);
    forall b | b in seen ensures b in bases {
      assert bases[Witness(regions, b)] == b;
    }
    SameNames(seen, bases);
    forall j | 0 <= j < |regions| ensures regions[j].base in seen {
      assert bases[j] in bases;
    }
  }

  lemma {:induction false} SameNames(a: seq<nat>, b: seq<nat>)
    requires |a| == |b| && (forall x :: x in a ==> x in b)
    requires forall i, j :: 0 <= i < j < |a| ==> a[i] != a[j]
    requires forall i, j :: 0 <= i < j < |b| ==> b[i] != b[j]
    ensures forall x :: x in b ==> x in a
  {
    if a != [] {
      var x := a[|a| - 1];
      assert x in a;
      var k :| 0 <= k < |b| && b[k] == x;
      var a', b' := a[..|a| - 1], b[..k] + b[k + 1..];
      forall y | y in a' ensures y in b' {
        var i :| 0 <= i < |a'| && a'[i] == y;
        assert a[i] in b;
      }
      SameNames(a', b');
      assert forall y :: y in b ==> y == x || y in b';
    }
  }

  /**
   Marking stale regions ends the scan: seen regions stand as recorded, every other reads as free, and the extra
   free record of a region created by this very scan is never read.
   */
  lemma StaleMid(al: Alloc, a: nat, m: Moment, done: set<nat>)
    requires ProperMoment(m) && AllocMid(al, a, m, done)
    requires forall b :: Bases(al.regions, b) && b !in done ==> RecordOf(m.full, a, b) == FREED
    ensures AllocOk(StaleAlloc(al, m.active, m.s), a, After(m), m.active, m.s + 1)
  {
    hide RegionOk;
    var al' := StaleAlloc(al, m.active, m.s);
    if |al.regions| == |al.seen| {
      EverySeen(al.regions, al.seen);
    }
    forall j | 0 <= j < |al'.regions|
      ensures RegionOk(al'.regions[j], a, After(m), m.active, m.s + 1) && al'.regions[j].base == al.regions[j].base
    {
      StaleRegionMid(al, a, m, done, j);
    }
  }

  lemma StaleRegionMid(al: Alloc, a: nat, m: Moment, done: set<nat>, j: nat)
    requires ProperMoment(m) && AllocMid(al, a, m, done) && j < |al.regions|
    requires forall b :: Bases(al.regions, b) && b !in done ==> RecordOf(m.full, a, b) == FREED
    ensures RegionOk(StaleRegion(al, j, m.active, m.s), a, After(m), m.active, m.s + 1)
  {
    hide RegionOk;
    var rg := al.regions[j];
    assert RegionMid(rg, a, m, rg.base in done) && Bases(al.regions, rg.base);
    if rg.base !in al.seen {
      if rg.base in done {
        assert rg.base == al.regions[0].base;
        assert j == 0;
        ShadowRegionOk(rg, a, After(m), m.active, m.s + 1, m.s);
      } else {
        UpdateRegionOk(rg, a, m.scans, m.active, m.next, FREED, m.s, m.full);
      }
    }
  }

  lemma BranchAllocOk(al: Alloc, a: nat, scans: Log<Scan>, active: nat, next: nat, from: Point)
    requires AllocOk(al, a, scans, active, next) && from.run <= active
    ensures ReadableAlloc(al)
    ensures AllocOk(BranchAlloc(al, from, active + 1), a, Branch(scans, from, active + 1), active + 1, 0)
  {
    hide RegionOk;
    forall j | 0 <= j < |al.regions| ensures Sized(al.regions[j].mbis) && Readable(al.regions[j].memory) {
      OkIsUsable(al.regions[j], a, scans, active, next);
    }
    var al' := BranchAlloc(al, from, active + 1);
    forall j | 0 <= j < |al'.regions|
      ensures RegionOk(al'.regions[j], a, Branch(scans, from, active + 1), active + 1, 0) && al'.regions[j].base == al.regions[j].base
    {
      BranchRegionOk(al.regions[j], a, scans, active, next, from);
    }
  }

  // ---- the whole address space during a scan ---------------------------------------------------------------

  ghost predicate UsableHist(h: Hist) {
    forall a :: a in h ==> UsableAlloc(h[a])
  }

  function UpdateHist(h: Hist, info: RegionInfo, r: nat, s: nat): (h': Hist)
    requires UsableHist(h)
    ensures UsableHist(h')
  {
    var a := info.mbi.allocBase;
    h[a := if a in h then UpdateAlloc(h[a], info, r, s) else NewAlloc(info, r, s)]
  }

  /** The first k regions of a scan. */
  ghost function ScanHist(h: Hist, full: Scan, k: nat, r: nat, s: nat): (h': Hist)
    requires UsableHist(h) && k <= |full|
    ensures UsableHist(h')
  {
    if k == 0 then h else UpdateHist(ScanHist(h, full, k - 1, r, s), full[k - 1], r, s)
  }

  ghost function StaleHist(h: Hist, r: nat, s: nat): (h': Hist)
    requires UsableHist(h)
    ensures h'.Keys == h.Keys && forall a :: a in h ==> h'[a] == StaleAlloc(h[a], r, s)
  {
    map a | a in h :: StaleAlloc(h[a], r, s)
  }

  /** SnapshotMemory: record every region of the scan, then mark what it did not list. */
  ghost function Snapshot(h: Hist, full: Scan, r: nat, s: nat): Hist
    requires UsableHist(h)
  {
    StaleHist(ScanHist(h, full, |full|, r, s), r, s)
  }

  ghost function DoneBases(full: Scan, k: nat, a: nat): (done: set<nat>)
    requires k <= |full|
    ensures forall b :: b in done <==> exists i :: 0 <= i < k && full[i].mbi.allocBase == a && full[i].mbi.base == b
  {
    if k == 0 then {}
    else DoneBases(full, k - 1, a) + if full[k - 1].mbi.allocBase == a then {full[k - 1].mbi.base} else {}
  }

  ghost predicate HistMid(h: Hist, m: Moment, k: nat)
    requires k <= |m.full|
  {
    && (forall a :: a in h ==> AllocMid(h[a], a, m, DoneBases(m.full, k, a)))
    && (forall i :: 0 <= i < k ==> m.full[i].mbi.allocBase in h)
  }

  lemma ScanStep(h: Hist, m: Moment, k: nat)
    requires UsableHist(h) && ProperMoment(m) && 0 < k <= |m.full| && HistMid(h, m, k - 1)
    ensures HistMid(UpdateHist(h, m.full[k - 1], m.active, m.s), m, k)
  {
    hide AllocMid, ProperScan, UpdateAlloc, NewAlloc;
    var info := m.full[k - 1];
    var b, h' := info.mbi.allocBase, UpdateHist(h, info, m.active, m.s);
    ListedFacts(m, k - 1);
    if b in h {
      UpdateMid(h[b], b, m, DoneBases(m.full, k - 1, b), info);
    } else {
      NewMid(b, m, info);
      assert DoneBases(m.full, k - 1, b) == {};
      assert {} + {info.mbi.base} == {info.mbi.base};
    }
    forall a | a in h' ensures AllocMid(h'[a], a, m, DoneBases(m.full, k, a)) {
      if a != b {
        assert DoneBases(m.full, k, a) == DoneBases(m.full, k - 1, a);
      }
    }
  }

  lemma ListedFacts(m: Moment, i: nat)
    requires ProperMoment(m) && i < |m.full|
    ensures var info := m.full[i];
      && Sound(info)
      && RecordOf(m.full, info.mbi.allocBase, info.mbi.base) == info
      && info.mbi.base !in DoneBases(m.full, i, info.mbi.allocBase)
  {
    RecordOfListed(m.full, i);
  }

  lemma {:induction false} ScanMid(h: Hist, m: Moment, k: nat)
    requires UsableHist(h) && ProperMoment(m) && k <= |m.full|
    requires forall a :: a in h ==> AllocOk(h[a], a, m.scans, m.active, m.next)
    ensures HistMid(ScanHist(h, m.full, k, m.active, m.s), m, k)
  {
    hide AllocMid, AllocOk, ProperMoment;
    if k == 0 {
      forall a | a in h ensures AllocMid(h[a], a, m, DoneBases(m.full, 0, a)) {
        StartMid(h[a], a, m);
      }
    } else {
      ScanMid(h, m, k - 1);
      ScanStep(ScanHist(h, m.full, k - 1, m.active, m.s), m, k);
    }
  }

  /** A whole scan appends one entry to the log every region reads as. */
  lemma SnapshotKeeps(h: Hist, m: Moment)
    requires UsableHist(h) && ProperMoment(m)
    requires forall a :: a in h ==> AllocOk(h[a], a, m.scans, m.active, m.next)
    ensures var h' := Snapshot(h, m.full, m.active, m.s);
      forall a :: a in h' ==> AllocOk(h'[a], a, After(m), m.active, m.s + 1)
  {
    hide AllocMid, AllocOk, ProperMoment;
    ScanMid(h, m, |m.full|);
    var h1 := ScanHist(h, m.full, |m.full|, m.active, m.s);
    forall a | a in h1 ensures AllocOk(StaleAlloc(h1[a], m.active, m.s), a, After(m), m.active, m.s + 1) {
      forall b: nat | b !in DoneBases(m.full, |m.full|, a) ensures RecordOf(m.full, a, b) == FREED {
        RecordOfUnlisted(m.full, a, b);
      }
      StaleMid(h1[a], a, m, DoneBases(m.full, |m.full|, a));
    }
  }
}
