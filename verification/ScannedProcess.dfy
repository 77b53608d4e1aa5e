/** What a scan says of the process and what a rebuild brings back, address by address. */
module ScannedProcesses {
  import opened PageBytes
  import opened RegionModel
  import opened AllocationModel
  import opened MemoryClasses
  import opened AddressSpaces
  import opened MemoryManagers
  import opened Rebuilds

  /** The byte at an address; a page that was never written holds zeros. */
  function HeldAt(p: Process, x: nat): PageByte {
    if x in p.memory then p.memory[x] else 0
  }

  /** The system's shared page, and the addresses the debugger keeps for itself. */
  predicate LeftOut(base: nat, blacklist: seq<nat>) {
    0x7ffe0000 <= base <= 0x7ffeffff || base in blacklist
  }

  /** A region of a scan as the process has it: attributes of each address, and the bytes when there are any. */
  ghost predicate TrueOf(p: Process, top: nat, info: RegionInfo) {
    var m := info.mbi;
    && m.size > 0 && m.base + m.size <= top
    && (forall x: nat :: m.base <= x < m.base + m.size ==>
          if x in p.space then p.space[x] == Attr(m.allocBase, m.allocProtect, m.state, m.protect, m.kind) else m.state == MemFree)
    && (if m.state == MemCommit then |info.memory| == m.size else info.memory == [])
    && (forall k :: 0 <= k < |info.memory| ==> info.memory[k] == HeldAt(p, m.base + k))
  }

  lemma {:induction false} BytesAreRead(memory: Bytes, queries: seq<Mbi>, blacklist: seq<nat>, info: RegionInfo)
    requires info in ScanOf(memory, queries, blacklist)
    ensures if info.mbi.state == MemCommit then |info.memory| == info.mbi.size else info.memory == []
    ensures forall k :: 0 <= k < |info.memory| ==>
      info.memory[k] == if info.mbi.base + k in memory then memory[info.mbi.base + k] else 0
  {
    var n := |queries| - 1;
    if info in ScanOf(memory, queries[..n], blacklist) {
      BytesAreRead(memory, queries[..n], blacklist, info);
    } else if info.mbi.state == MemCommit {
      var bytes := ReadBytes(memory, queries[n].base, queries[n].size);
      assert info == RegionInfo(queries[n], bytes);
      forall k | 0 <= k < |bytes| ensures bytes[k] == ByteAt(memory, queries[n].base + k) {
      }
    }
  }

  lemma RegionIsTrue(p: Process, top: nat, blacklist: seq<nat>, info: RegionInfo)
    requires info in ScanOf(p.memory, Queries(p.space, 0, top), blacklist) && info.mbi in Queries(p.space, 0, top)
    ensures TrueOf(p, top, info)
  {
    hide Queries, ScanOf;
    var queries, m := Queries(p.space, 0, top), info.mbi;
    var i :| 0 <= i < |queries| && queries[i] == m;
    QueriedRegion(p.space, 0, top, i);
    BytesAreRead(p.memory, queries, blacklist, info);
    forall x: nat | m.base <= x < m.base + m.size
      ensures if x in p.space then p.space[x] == Attr(m.allocBase, m.allocProtect, m.state, m.protect, m.kind) else m.state == MemFree
    {
      assert Within(m, x) && AttrAt(p.space, x) == AttrOf(m);
    }
  }

  /** A scan tells the truth about every region it lists, and lists every region but those that are left out. */
  lemma ScanIsTrue(p: Process, top: nat, blacklist: seq<nat>)
    ensures var queries := Queries(p.space, 0, top); var scan := ScanOf(p.memory, queries, blacklist);
      && (forall info :: info in scan ==> TrueOf(p, top, info))
      && (forall m :: m in queries ==> (Includes(scan, m) <==> !LeftOut(m.base, blacklist)))
  {
    var queries := Queries(p.space, 0, top);
    var scan := ScanOf(p.memory, queries, blacklist);
    QueriesInOrder(p.space, top);
    ScanOfQueries(p.memory, queries, blacklist);
    hide Queries, ScanOf, TrueOf;
    forall info | info in scan ensures TrueOf(p, top, info) {
      RegionIsTrue(p, top, blacklist, info);
    }
    forall m | m in queries && Includes(scan, m) ensures !LeftOut(m.base, blacklist) {
      var i :| 0 <= i < |scan| && scan[i].mbi == m;
      assert scan[i] in scan;
    }
  }

  /** Every address is in exactly one region of the system's list. */
  lemma EachAddressIsListed(space: Space, top: nat, x: nat) returns (m: Mbi)
    requires x < top
    ensures m in Queries(space, 0, top) && m.base <= x < m.base + m.size
    ensures forall m' :: m' in Queries(space, 0, top) && m'.base <= x < m'.base + m'.size ==> m' == m
  {
    var i := QueriedAddress(space, 0, top, x);
    var queries := Queries(space, 0, top);
    m := queries[i];
    QueriesInOrder(space, top);
    forall m' | m' in queries && m'.base <= x < m'.base + m'.size ensures m' == m {
      var j :| 0 <= j < |queries| && queries[j] == m';
    }
  }

  /** After freeing and rebuilding, every address of a committed region of the scan holds the byte it held at the scan. */
  lemma BytesComeBack(was: Process, now: Process, top: nat, blacklist: seq<nat>, scan: Scan, infos: seq<AllocationInfo>, info: RegionInfo, x: nat)
    requires NoneFree(now.space) && scan == ScanOf(was.memory, Queries(was.space, 0, top), blacklist) && Returned(infos, scan)
    requires info in scan && info.mbi.state == MemCommit && info.mbi.base <= x < info.mbi.base + info.mbi.size
    ensures HeldAt(RebuildUpTo(FreeFrom(now, 0, top, blacklist), infos, |infos|), x) == HeldAt(was, x)
  {
    hide Queries, FreeFrom, RebuildUpTo, NoneFree, ScanOf, Kept, FromScan, Untouched, InSpan;
    ScanIsTaken(was, top, blacklist);
    TakenIsApart(scan, was.space);
    RebuildIsTrue(now, top, blacklist, scan, infos);
    BytesAreRead(was.memory, Queries(was.space, 0, top), blacklist, info);
    var p := RebuildUpTo(FreeFrom(now, 0, top, blacklist), infos, |infos|);
    assert Holds(p.memory, info);
    assert ByteAt(p.memory, info.mbi.base + (x - info.mbi.base)) == info.memory[x - info.mbi.base];
  }

  // ---- what the rebuild asks, written out ----------------------------------------------------------------------------------------

  /** A region starts at an address. */
  predicate RegionStart(space: Space, x: nat) {
    x in space && (x == 0 || x - 1 !in space || space[x - 1] != space[x])
  }

  /**
   An address that is not freed: of an image or a mapped file, of an allocation the debugger keeps for itself, or of one all
   of whose regions start in the system's shared page.
   */
  ghost predicate Stays(space: Space, blacklist: seq<nat>, x: nat) {
    && x in space
    && (|| space[x].kind == 0x1000000 || space[x].kind == 0x40000 || space[x].allocBase in blacklist
        || (forall y: nat :: RegionStart(space, y) && space[y].allocBase == space[x].allocBase ==> 0x7ffe0000 <= y <= 0x7ffeffff))
  }

  /** The pass keeps exactly the addresses that stay. */
  lemma KeptIs(space: Space, top: nat, blacklist: seq<nat>, x: nat)
    requires NoneFree(space) && Solid(space) && x in space && forall y :: y in space ==> y < top
    ensures x in Kept(space, top, blacklist) <==> Stays(space, blacklist, x)
  {
    var a := space[x].allocBase;
    SolidBelow(space, x);
    forall y: nat | y in space && space[y].allocBase == a ensures space[y].kind == space[x].kind {
      SolidBelow(space, y);
    }
    forall y: nat ensures RegionStart(space, y) ==> Starts(space, 0, top, y) {
    }
    forall y: nat | Starts(space, 0, top, y) && y in space ensures RegionStart(space, y) {
    }
    if Doomed(space, 0, top, blacklist, a) {
      var y: nat :| Starts(space, 0, top, y) && AttrAt(space, y).allocBase == a && !Spared(AttrAt(space, y), y, blacklist);
      assert y in space && RegionStart(space, y);
    }
    if !Stays(space, blacklist, x) {
      var y: nat :| RegionStart(space, y) && space[y].allocBase == a && !(0x7ffe0000 <= y <= 0x7ffeffff);
      assert Starts(space, 0, top, y) && !Spared(AttrAt(space, y), y, blacklist);
    }
  }

  /**
   Going back with nothing changed that stays: if the same addresses stay as did at the scan, as the same things, and every
   other address was private and is in a region that the scan lists, then the address space is the scanned one again and
   a scan gives the restored scan.
   */
  lemma UnchangedComesBack(was: Process, now: Process, top: nat, blacklist: seq<nat>, scan: Scan, infos: seq<AllocationInfo>)
    requires OkSpace(was.space, top) && OkSpace(now.space, top)
    requires scan == ScanOf(was.memory, Queries(was.space, 0, top), blacklist) && Returned(infos, scan)
    requires forall x :: Stays(was.space, blacklist, x) <==> Stays(now.space, blacklist, x)
    requires forall x :: Stays(was.space, blacklist, x) ==> x in now.space && now.space[x] == was.space[x]
    requires forall x :: x in was.space && !Stays(was.space, blacklist, x) ==>
      was.space[x].kind == 0x20000 && exists info :: info in scan && info.mbi.base <= x < info.mbi.base + info.mbi.size
    ensures var p := RebuildUpTo(FreeFrom(now, 0, top, blacklist), infos, |infos|);
      p.space == was.space && ScanOf(p.memory, Queries(p.space, 0, top), blacklist) == scan
  {
    hide Stays, Queries, ScanOf, FreeFrom, RebuildUpTo, Returned, Paged, Doomed;
    forall x | x in was.space ensures x in Kept(was.space, top, blacklist) <==> Stays(was.space, blacklist, x) {
      KeptIs(was.space, top, blacklist, x);
    }
    forall x | x in now.space ensures x in Kept(now.space, top, blacklist) <==> Stays(now.space, blacklist, x) {
      KeptIs(now.space, top, blacklist, x);
    }
    StayersAreMapped(was.space, blacklist);
    StayersAreMapped(now.space, blacklist);
    assert Kept(now.space, top, blacklist) == Kept(was.space, top, blacklist);
    forall x | x in was.space && x !in Kept(was.space, top, blacklist) ensures was.space[x].kind == MEM_PRIVATE && Listed(scan, x) {
      var info :| info in scan && info.mbi.base <= x < info.mbi.base + info.mbi.size;
      assert Within(info.mbi, x);
    }
    UnchangedIsCompatible(was.space, now.space, top, blacklist, scan);
    RescanIsSame(was, now, top, blacklist, scan, infos);
  }

  lemma StayersAreMapped(space: Space, blacklist: seq<nat>)
    ensures forall x :: Stays(space, blacklist, x) ==> x in space
  {
  }
}
