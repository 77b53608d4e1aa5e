/**
 The history of one region: its attributes in an execution tree, its bytes in page histories (RegionHistory).
 The two are updated and branched together; together they read as one log of (attributes, bytes).
 */
module RegionModel {
  import opened Options
  import opened Lineage
  import opened TreeHistory
  import opened PagedMemory
  import opened PageBytes

  datatype MemState = MemFree | MemReserve | MemCommit

  /** MEMORY_BASIC_INFORMATION. */
  datatype Mbi = Mbi(base: nat, allocBase: nat, allocProtect: nat, size: nat, state: MemState, protect: nat, kind: nat)

  const FREE_MBI := Mbi(0, 0, 0, 0, MemFree, 0, 0)

  datatype RegionInfo = RegionInfo(mbi: Mbi, memory: seq<PageByte>)

  /** What is recorded for a region that a scan did not see. */
  const FREED := RegionInfo(FREE_MBI, [])

  datatype Region = Region(base: nat, mbis: Tree<Mbi>, memory: Memory<Page>)

  const UINT32 := 0x1_0000_0000

  /** Committed regions carry their bytes, whole pages of them; others carry none. */
  predicate Sound(info: RegionInfo) {
    if info.mbi.state == MemCommit then |info.memory| == info.mbi.size && info.mbi.size % PAGE_SIZE == 0
    else info.memory == []
  }

  ghost predicate Usable(rg: Region) {
    Sized(rg.mbis) && CursorsInRange(rg.memory)
  }

  function NewRegion(info: RegionInfo, r: nat, s: nat): (rg: Region)
    ensures Usable(rg)
  {
    Region(info.mbi.base, NewTree(FREE_MBI, info.mbi, r, s), Write([], r, s, Pages(info.memory)))
  }

  function UpdateRegion(rg: Region, info: RegionInfo, r: nat, s: nat): (rg': Region)
    requires Usable(rg)
    ensures Usable(rg')
  {
    Region(rg.base, AddChild(rg.mbis, info.mbi, r, s), Write(rg.memory, r, s, Pages(info.memory)))
  }

  function BranchRegion(rg: Region, from: Point, to: nat): Region
    requires Sized(rg.mbis) && Readable(rg.memory)
  {
    Region(rg.base, Revert(rg.mbis, from, to), Branches(rg.memory, from, to))
  }

  /** The number of pages a read asks for: the size is passed on as 32 bits. */
  function AskedSize(mbi: Mbi): nat {
    if mbi.state == MemCommit then mbi.size % UINT32 else 0
  }

  /** A read is in range when the attributes visible there ask for no more pages than the region has. */
  ghost predicate InRange(rg: Region, r: nat, s: nat)
    requires Sized(rg.mbis)
  {
    GetState(rg.mbis, r, s).Some? ==> AskedSize(GetState(rg.mbis, r, s).value) / PAGE_SIZE <= |rg.memory|
  }

  /** get_region_at_time: whole pages as visible, then zeros. */
  function BytesAt(m: Memory<Page>, r: nat, s: nat, size: nat): seq<PageByte>
    requires Readable(m) && size / PAGE_SIZE <= |m|
  {
    Join(PagesAt(m, r, s, size / PAGE_SIZE, Blank())) + Zeros(size % PAGE_SIZE)
  }

  function InfoAt(rg: Region, r: nat, s: nat): Option<RegionInfo>
    requires Sized(rg.mbis) && Readable(rg.memory) && InRange(rg, r, s)
  {
    if GetState(rg.mbis, r, s).None? then None
    else Some(RegionInfo(GetState(rg.mbis, r, s).value, BytesAt(rg.memory, r, s, AskedSize(GetState(rg.mbis, r, s).value))))
  }

  /** The region after that read: the cursors of the pages it visited have moved. */
  function TouchRegion(rg: Region, r: nat, s: nat): Region
    requires Sized(rg.mbis) && Readable(rg.memory) && InRange(rg, r, s)
  {
    if GetState(rg.mbis, r, s).None? then rg
    else Region(rg.base, rg.mbis, Touched(rg.memory, r, s, AskedSize(GetState(rg.mbis, r, s).value) / PAGE_SIZE))
  }

  // ---- one log for both halves -------------------------------------------------------------------------

  ghost function MbiLog(l: Log<RegionInfo>): Log<Mbi> {
    MapLog(l, (info: RegionInfo) => info.mbi)
  }

  ghost function BytesLog(l: Log<RegionInfo>): Log<seq<Page>> {
    MapLog(l, (info: RegionInfo) => Pages(info.memory))
  }

  ghost predicate AllSound(l: Log<RegionInfo>) {
    forall r, i :: r in l.entries && 0 <= i < |l.entries[r]| ==> Sound(l.entries[r][i].data)
  }

  ghost predicate RegionInv(rg: Region, l: Log<RegionInfo>, active: nat, next: nat) {
    && Wf(l, active, next)
    && AllSound(l)
    && TreeInv(rg.mbis, MbiLog(l), active, next)
    && MemoryInv(rg.memory, BytesLog(l), active, next)
  }

  ghost predicate RegionTip(rg: Region, active: nat) {
    CursorsAtTip(rg.memory, active)
  }

  lemma NewRegionKeeps(info: RegionInfo, l: Log<RegionInfo>, active: nat, s: nat)
    requires Sound(info) && Wf(l, active, s + 1) && At(l, active) == [Entry(s, info)]
    requires forall r: nat :: r != active ==> At(l, r) == []
    ensures RegionInv(NewRegion(info, active, s), l, active, s + 1) && RegionTip(NewRegion(info, active, s), active)
  {
    hide NewTree, TreeInv, MemoryInv, Pages;
    MapWf(l, (i: RegionInfo) => i.mbi, active, s + 1);
    MapWf(l, (i: RegionInfo) => Pages(i.memory), active, s + 1);
    SingleEntry(l, active, s, info, (i: RegionInfo) => i.mbi);
    SingleEntry(l, active, s, info, (i: RegionInfo) => Pages(i.memory));
    NewTreeKeeps(FREE_MBI, info.mbi, MbiLog(l), active, s);
    FirstKeeps(BytesLog(l), active, s, Pages(info.memory));
    assert forall r :: r in l.entries && r != active ==> At(l, r) == [];
  }

  lemma SingleEntry<A, B>(l: Log<A>, active: nat, s: nat, d: A, f: A -> B)
    requires active in l.entries && At(l, active) == [Entry(s, d)] && forall r: nat :: r != active ==> At(l, r) == []
    ensures At(MapLog(l, f), active) == [Entry(s, f(d))] && forall r: nat :: r != active ==> At(MapLog(l, f), r) == []
  {
    forall r: nat | r != active ensures At(MapLog(l, f), r) == [] {
      assert At(l, r) == [];
    }
  }

  lemma SoundAppend(l: Log<RegionInfo>, r: nat, s: nat, info: RegionInfo)
    requires AllSound(l) && Sound(info)
    ensures AllSound(Append(l, r, s, info))
  {
  }

  lemma SoundBranch(l: Log<RegionInfo>, from: Point, to: nat)
    requires AllSound(l)
    ensures AllSound(Branch(l, from, to))
  {
  }

  lemma SoundRead(l: Log<RegionInfo>, r: nat, s: nat)
    requires OriginsBelow(l.origins) && AllSound(l) && Read(l, r, s).Some?
    ensures Sound(Read(l, r, s).value)
  {
  }

  /** One update of both halves appends one record to the log. */
  lemma UpdateRegionKeeps(rg: Region, l: Log<RegionInfo>, active: nat, next: nat, info: RegionInfo, s: nat)
    requires RegionInv(rg, l, active, next) && RegionTip(rg, active) && next <= s && Sound(info)
    ensures RegionInv(UpdateRegion(rg, info, active, s), Append(l, active, s, info), active, s + 1)
    ensures RegionTip(UpdateRegion(rg, info, active, s), active)
  {
    AppendWf(l, active, next, s, info);
    SoundAppend(l, active, s, info);
    MapAppend(l, (i: RegionInfo) => i.mbi, active, s, info);
    MapAppend(l, (i: RegionInfo) => Pages(i.memory), active, s, info);
    AddKeeps(rg.mbis, MbiLog(l), active, next, s, info.mbi);
    WriteKeeps(rg.memory, BytesLog(l), active, next, s, Pages(info.memory));
  }

  /** Marking the region free at its own creation key leaves what it reads untouched. */
  lemma ShadowFreeKeeps(rg: Region, l: Log<RegionInfo>, active: nat, next: nat)
    requires RegionInv(rg, l, active, next) && RegionTip(rg, active) && active == rg.mbis.recs[1].run
    ensures RegionInv(UpdateRegion(rg, FREED, active, rg.mbis.recs[1].runSeq), l, active, next)
    ensures RegionTip(UpdateRegion(rg, FREED, active, rg.mbis.recs[1].runSeq), active)
  {
    ShadowKeeps(rg.mbis, MbiLog(l), active, next, FREE_MBI);
    assert Write(rg.memory, active, rg.mbis.recs[1].runSeq, []) == rg.memory;
  }

  lemma BranchRegionKeeps(rg: Region, l: Log<RegionInfo>, active: nat, next: nat, from: Point)
    requires RegionInv(rg, l, active, next) && from.run <= active
    ensures RegionInv(BranchRegion(rg, from, active + 1), Branch(l, from, active + 1), active + 1, 0)
    ensures RegionTip(BranchRegion(rg, from, active + 1), active + 1)
  {
    BranchWf(l, active, next, from, active + 1);
    SoundBranch(l, from, active + 1);
    MapBranch(l, (i: RegionInfo) => i.mbi, from, active + 1);
    RevertKeeps(rg.mbis, MbiLog(l), active, next, from);
    BranchBytes(rg.memory, l, active, next, from);
  }

  lemma BranchBytes(m: Memory<Page>, l: Log<RegionInfo>, active: nat, next: nat, from: Point)
    requires MemoryInv(m, BytesLog(l), active, next) && from.run <= active
    ensures MemoryInv(Branches(m, from, active + 1), BytesLog(Branch(l, from, active + 1)), active + 1, 0)
    ensures CursorsAtTip(Branches(m, from, active + 1), active + 1)
  {
    MapBranch(l, (i: RegionInfo) => Pages(i.memory), from, active + 1);
    BranchesKeep(m, BytesLog(l), active, next, from);
  }

  /**
   Reading a region never runs past its pages and returns the record visible there, attributes and bytes, if and
   only if a committed record's size fits in 32 bits.
   */
  lemma RegionReads(rg: Region, l: Log<RegionInfo>, active: nat, next: nat, r: nat, s: nat)
    requires RegionInv(rg, l, active, next)
    ensures InRange(rg, r, s)
    ensures InfoAt(rg, r, s) == Read(l, r, s)
       <==> (Read(l, r, s).Some? && Read(l, r, s).value.mbi.state == MemCommit ==> Read(l, r, s).value.mbi.size < UINT32)
    ensures InfoAt(rg, r, s).Some? <==> Read(l, r, s).Some?
    ensures InfoAt(rg, r, s).Some? ==> InfoAt(rg, r, s).value.mbi == Read(l, r, s).value.mbi
  {
    TreeReads(rg.mbis, MbiLog(l), active, next, r, s);
    MapReads(l, (i: RegionInfo) => i.mbi, r, s);
    if Read(l, r, s).Some? {
      SoundRead(l, r, s);
      BytesRead(rg.memory, l, active, next, r, s);
    }
  }

  /** Recorded once and read back at once. */
  ghost predicate ComesBack(info: RegionInfo) {
    var rg := NewRegion(info, 0, 0);
    Readable(rg.memory) && InRange(rg, 0, 0) && InfoAt(rg, 0, 0) == Some(info)
  }

  lemma BackWhenFits(info: RegionInfo)
    requires Sound(info)
    ensures ComesBack(info) <==> (info.mbi.state == MemCommit ==> info.mbi.size < UINT32)
  {
    hide NewRegion, Zeros, InfoAt, InRange, TreeInv, MemoryInv;
    var l := Log(map[0 := [Entry(0, info)]], map[]);
    NewRegionKeeps(info, l, 0, 0);
    InvReadable(NewRegion(info, 0, 0), l, 0, 1);
    RegionReads(NewRegion(info, 0, 0), l, 0, 1, 0, 0);
  }

  lemma InvReadable(rg: Region, l: Log<RegionInfo>, active: nat, next: nat)
    requires RegionInv(rg, l, active, next)
    ensures Sized(rg.mbis) && Readable(rg.memory) && OriginsBelow(l.origins)
  {
  }

  /** A committed region of 4 GiB does not come back. */
  lemma LargeRegionIsCut() returns (info: RegionInfo)
    ensures info.mbi.state == MemCommit && info.mbi.size == UINT32 && Sound(info) && !ComesBack(info)
  {
    info := RegionInfo(Mbi(0x10000, 0x10000, 4, UINT32, MemCommit, 4, 0x20000), Zeros(UINT32));
    BackWhenFits(info);
  }

  lemma BytesRead(m: Memory<Page>, l: Log<RegionInfo>, active: nat, next: nat, r: nat, s: nat)
    requires OriginsBelow(l.origins) && MemoryInv(m, BytesLog(l), active, next)
    requires Read(l, r, s).Some? && Sound(Read(l, r, s).value)
    ensures var info := Read(l, r, s).value;
      && AskedSize(info.mbi) / PAGE_SIZE <= |m|
      && (BytesAt(m, r, s, AskedSize(info.mbi)) == info.memory <==> (info.mbi.state == MemCommit ==> info.mbi.size < UINT32))
  {
    MapReads(l, (i: RegionInfo) => Pages(i.memory), r, s);
    ReadsBack(m, BytesLog(l), active, next, r, s, Blank());
    BytesFit(m, r, s, Read(l, r, s).value);
  }

  lemma BytesFit(m: Memory<Page>, r: nat, s: nat, info: RegionInfo)
    requires Readable(m) && Sound(info)
    requires |Pages(info.memory)| <= |m| && PagesAt(m, r, s, |Pages(info.memory)|, Blank()) == Pages(info.memory)
    ensures AskedSize(info.mbi) / PAGE_SIZE <= |m|
    ensures BytesAt(m, r, s, AskedSize(info.mbi)) == info.memory <==> (info.mbi.state == MemCommit ==> info.mbi.size < UINT32)
  {
    hide PagesAt, Readable, Pages, Join;
    if info.mbi.state == MemCommit && info.mbi.size >= UINT32 {
      BytesLength(m, r, s, AskedSize(info.mbi));
    } else {
      JoinPages(info.memory);
      assert Join(Pages(info.memory)) + Zeros(0) == info.memory;
    }
  }

  lemma BytesLength(m: Memory<Page>, r: nat, s: nat, size: nat)
    requires Readable(m) && size / PAGE_SIZE <= |m|
    ensures |BytesAt(m, r, s, size)| == size
  {
  }

  /** A read between a restore and its branch leaves no trace after the branch. */
  lemma BranchAfterTouch(rg: Region, r: nat, s: nat, from: Point, to: nat)
    requires Sized(rg.mbis) && Readable(rg.memory) && InRange(rg, r, s)
    ensures Readable(TouchRegion(rg, r, s).memory)
    ensures BranchRegion(TouchRegion(rg, r, s), from, to) == BranchRegion(rg, from, to)
  {
    var mbi := GetState(rg.mbis, r, s);
    if mbi.Some? {
      BranchAfterReads(rg.memory, r, s, AskedSize(mbi.value) / PAGE_SIZE, from, to);
    }
  }
}

/** An allocation: its regions in the order they were first seen (AllocationRegion), and one scan of it. */
module AllocationModel {
  import opened Options
  import opened Lineage
  import opened TreeHistory
  import opened PagedMemory
  import opened RegionModel

  datatype Alloc = Alloc(regions: seq<Region>, seen: seq<nat>)

  ghost predicate UsableAlloc(al: Alloc) {
    |al.regions| > 0 && forall j :: 0 <= j < |al.regions| ==> Usable(al.regions[j])
  }

  function IndexOf(regions: seq<Region>, base: nat): (i: Option<nat>)
    ensures i.Some? ==> i.value < |regions| && regions[i.value].base == base
    ensures i.None? ==> forall j :: 0 <= j < |regions| ==> regions[j].base != base
  {
    if regions == [] then None
    else
      var i := IndexOf(regions[..|regions| - 1], base);
      if i.Some? then i else if regions[|regions| - 1].base == base then Some(|regions| - 1) else None
  }

  /** The first region of an allocation is not noted as seen. */
  function NewAlloc(info: RegionInfo, r: nat, s: nat): (al: Alloc)
    ensures UsableAlloc(al)
  {
    Alloc([NewRegion(info, r, s)], [])
  }

  function UpdateAlloc(al: Alloc, info: RegionInfo, r: nat, s: nat): (al': Alloc)
    requires UsableAlloc(al)
    ensures UsableAlloc(al')
  {
    var i := IndexOf(al.regions, info.mbi.base);
    Alloc(if i.None? then al.regions + [NewRegion(info, r, s)]
          else al.regions[i.value := UpdateRegion(al.regions[i.value], info, r, s)],
          al.seen + [info.mbi.base])
  }

  function StaleRegion(al: Alloc, j: nat, r: nat, s: nat): (rg: Region)
    requires UsableAlloc(al) && j < |al.regions|
    ensures Usable(rg)
  {
    if al.regions[j].base in al.seen then al.regions[j] else UpdateRegion(al.regions[j], FREED, r, s)
  }

  /** Unless as many regions were seen as there are, every unseen region is recorded as free. */
  function StaleAlloc(al: Alloc, r: nat, s: nat): (al': Alloc)
    requires UsableAlloc(al)
    ensures UsableAlloc(al')
    ensures |al'.regions| == |al.regions| && al'.seen == []
    ensures forall j :: 0 <= j < |al.regions| ==>
      al'.regions[j] == if |al.regions| == |al.seen| then al.regions[j] else StaleRegion(al, j, r, s)
  {
    if |al.regions| == |al.seen| then Alloc(al.regions, [])
    else Alloc(seq(|al.regions|, j requires 0 <= j < |al.regions| && UsableAlloc(al) => StaleRegion(al, j, r, s)), [])
  }

  ghost predicate ReadableAlloc(al: Alloc) {
    |al.regions| > 0 && forall j :: 0 <= j < |al.regions| ==> Sized(al.regions[j].mbis) && Readable(al.regions[j].memory)
  }

  function BranchAlloc(al: Alloc, from: Point, to: nat): (al': Alloc)
    requires ReadableAlloc(al)
    ensures |al'.regions| == |al.regions| && al'.seen == al.seen
    ensures forall j :: 0 <= j < |al.regions| ==> al'.regions[j] == BranchRegion(al.regions[j], from, to)
  {
    Alloc(seq(|al.regions|, j requires 0 <= j < |al.regions| && ReadableAlloc(al) => BranchRegion(al.regions[j], from, to)), al.seen)
  }

  // ---- one scan ------------------------------------------------------------------------------------------

  type Scan = seq<RegionInfo>

  /** What a scan says about the region at base b of allocation a. */
  function RecordOf(scan: Scan, a: nat, b: nat): RegionInfo {
    if scan == [] then FREED
    else if scan[0].mbi.allocBase == a && scan[0].mbi.base == b then scan[0]
    else RecordOf(scan[1..], a, b)
  }

  ghost predicate Names(scan: Scan, a: nat, b: nat) {
    exists i :: 0 <= i < |scan| && scan[i].mbi.allocBase == a && scan[i].mbi.base == b
  }

  /** No region is listed twice. */
  ghost predicate DistinctKeys(scan: Scan) {
    forall i, j :: 0 <= i < j < |scan| ==>
      scan[i].mbi.allocBase != scan[j].mbi.allocBase || scan[i].mbi.base != scan[j].mbi.base
  }

  ghost predicate ProperScan(scan: Scan) {
    DistinctKeys(scan) && forall i :: 0 <= i < |scan| ==> Sound(scan[i])
  }

  lemma {:induction false} RecordOfListed(scan: Scan, i: nat)
    requires DistinctKeys(scan) && i < |scan|
    ensures RecordOf(scan, scan[i].mbi.allocBase, scan[i].mbi.base) == scan[i]
  {
    if i > 0 {
      RecordOfListed(scan[1..], i - 1);
    }
  }

  lemma {:induction false} RecordOfUnlisted(scan: Scan, a: nat, b: nat)
    requires !Names(scan, a, b)
    ensures RecordOf(scan, a, b) == FREED
  {
    if scan != [] {
      var rest := scan[1..];
      assert scan[0].mbi.allocBase != a || scan[0].mbi.base != b;
      assert forall i :: 0 <= i < |rest| ==> rest[i] == scan[i + 1];
      RecordOfUnlisted(rest, a, b);
    }
  }

  lemma {:induction false} RecordOfSound(scan: Scan, a: nat, b: nat)
    requires forall i :: 0 <= i < |scan| ==> Sound(scan[i])
    ensures Sound(RecordOf(scan, a, b))
  {
    if scan != [] {
      RecordOfSound(scan[1..], a, b);
    }
  }

  /** Where a region's history starts. */
  function Created(rg: Region): Point
    requires Sized(rg.mbis)
  {
    Point(rg.mbis.recs[1].run, rg.mbis.recs[1].runSeq)
  }

  /** The log of scans, seen from one region since its creation. */
  ghost function RegionLog(scans: Log<Scan>, a: nat, b: nat, c: Point): Log<RegionInfo> {
    MapLog(From(scans, c), (scan: Scan) => RecordOf(scan, a, b))
  }

  ghost predicate RegionOk(rg: Region, a: nat, scans: Log<Scan>, active: nat, next: nat) {
    && Usable(rg)
    && RegionInv(rg, RegionLog(scans, a, rg.base, Created(rg)), active, next)
    && RegionTip(rg, active)
  }

  ghost predicate AllProper(scans: Log<Scan>) {
    forall r, i :: r in scans.entries && 0 <= i < |scans.entries[r]| ==> ProperScan(scans.entries[r][i].data)
  }

  lemma CreatedBefore(rg: Region, l: Log<RegionInfo>, active: nat, next: nat, s: nat)
    requires RegionInv(rg, l, active, next) && next <= s
    ensures NotBefore(Point(active, s), Created(rg))
  {
    FirstKeyIsOld(rg.mbis, MbiLog(l), active, next);
  }

  lemma NewRegionOk(info: RegionInfo, a: nat, scans: Log<Scan>, active: nat, next: nat, s: nat, full: Scan)
    requires Wf(scans, active, next) && next <= s && Sound(info) && RecordOf(full, a, info.mbi.base) == info
    ensures RegionOk(NewRegion(info, active, s), a, Append(scans, active, s, full), active, s + 1)
    ensures Created(NewRegion(info, active, s)) == Point(active, s)
  {
    var c, scans', f := Point(active, s), Append(scans, active, s, full), (scan: Scan) => RecordOf(scan, a, info.mbi.base);
    AppendWf(scans, active, next, s, full);
    FromWf(scans', c, active, s + 1);
    MapWf(From(scans', c), f, active, s + 1);
    FromLast(scans, active, next, s, full);
    SingleEntry(From(scans', c), active, s, full, f);
    NewRegionKeeps(info, RegionLog(scans', a, info.mbi.base, c), active, s);
  }

  lemma UpdateRegionOk(rg: Region, a: nat, scans: Log<Scan>, active: nat, next: nat, info: RegionInfo, s: nat, full: Scan)
    requires RegionOk(rg, a, scans, active, next) && Wf(scans, active, next) && next <= s
    requires Sound(info) && RecordOf(full, a, rg.base) == info
    ensures RegionOk(UpdateRegion(rg, info, active, s), a, Append(scans, active, s, full), active, s + 1)
    ensures Created(UpdateRegion(rg, info, active, s)) == Created(rg)
  {
    CreatedBefore(rg, RegionLog(scans, a, rg.base, Created(rg)), active, next, s);
    FromAppend(scans, Created(rg), active, s, full);
    MapAppend(From(scans, Created(rg)), (scan: Scan) => RecordOf(scan, a, rg.base), active, s, full);
    UpdateRegionKeeps(rg, RegionLog(scans, a, rg.base, Created(rg)), active, next, info, s);
  }

  lemma ShadowRegionOk(rg: Region, a: nat, scans: Log<Scan>, active: nat, next: nat, s: nat)
    requires RegionOk(rg, a, scans, active, next) && Created(rg) == Point(active, s)
    ensures RegionOk(UpdateRegion(rg, FREED, active, s), a, scans, active, next)
    ensures Created(UpdateRegion(rg, FREED, active, s)) == Created(rg)
  {
    ShadowFreeKeeps(rg, RegionLog(scans, a, rg.base, Created(rg)), active, next);
  }

  lemma BranchRegionOk(rg: Region, a: nat, scans: Log<Scan>, active: nat, next: nat, from: Point)
    requires RegionOk(rg, a, scans, active, next) && from.run <= active
    ensures Usable(BranchRegion(rg, from, active + 1)) && Created(BranchRegion(rg, from, active + 1)) == Created(rg)
    ensures RegionOk(BranchRegion(rg, from, active + 1), a, Branch(scans, from, active + 1), active + 1, 0)
  {
    FromBranch(scans, Created(rg), from, active + 1);
    MapBranch(From(scans, Created(rg)), (scan: Scan) => RecordOf(scan, a, rg.base), from, active + 1);
    BranchRegionKeeps(rg, RegionLog(scans, a, rg.base, Created(rg)), active, next, from);
  }
}
