/** The debuggee's address space: what each address is part of, its bytes, and the memory calls of the system. */
module AddressSpaces {
  import opened PageBytes
  import opened RegionModel

  const MEM_IMAGE := 0x1000000
  const MEM_MAPPED := 0x40000
  const MEM_PRIVATE := 0x20000

  const PAGE_EXECUTE_READWRITE := 0x40
  const PAGE_EXECUTE_WRITECOPY := 0x80
  const PAGE_GUARD := 0x100

  const KUSER_BASE := 0x7ffe0000
  const KUSER_END := 0x7ffeffff

  /** What a mapped address is part of. */
  datatype Attr = Attr(allocBase: nat, allocProtect: nat, state: MemState, protect: nat, kind: nat)

  const FREE_ATTR := Attr(0, 0, MemFree, 0, 0)

  /** Mapped addresses only. */
  type Space = map<nat, Attr>

  type Bytes = map<nat, PageByte>

  datatype Process = Process(space: Space, memory: Bytes)

  function AttrAt(space: Space, x: nat): Attr {
    if x in space then space[x] else FREE_ATTR
  }

  function AttrOf(m: Mbi): Attr {
    Attr(m.allocBase, m.allocProtect, m.state, m.protect, m.kind)
  }

  function ByteAt(memory: Bytes, x: nat): PageByte {
    if x in memory then memory[x] else 0
  }

  function ReadBytes(memory: Bytes, base: nat, size: nat): (bytes: seq<PageByte>)
    ensures |bytes| == size
  {
    seq(size, i requires 0 <= i < size => ByteAt(memory, base + i))
  }

  function WriteBytes(memory: Bytes, base: nat, bytes: seq<PageByte>): Bytes {
    memory + Placed(base, bytes)
  }

  function Placed(base: nat, bytes: seq<PageByte>): (m: Bytes)
    ensures forall k: nat :: k in m <==> base <= k < base + |bytes|
    ensures forall k: nat :: k in m ==> m[k] == bytes[k - base]
  {
    if bytes == [] then map[]
    else Placed(base, bytes[..|bytes| - 1])[base + |bytes| - 1 := bytes[|bytes| - 1]]
  }

  predicate Within(m: Mbi, x: nat) {
    m.base <= x < m.base + m.size
  }

  ghost predicate NoneFree(space: Space) {
    forall x :: x in space ==> space[x].state != MemFree
  }

  /** Mapped addresses lie below top, in whole pages, and reserved ones have no access. */
  ghost predicate OkSpace(space: Space, top: nat) {
    && top % PAGE_SIZE == 0 && 0 !in space
    && (forall x :: x in space ==> x < top)
    && (forall x :: x in space && space[x].state == MemReserve ==> space[x].protect == 0)
    && Paged(space) && NoneFree(space) && Solid(space)
  }

  ghost predicate Paged(space: Space) {
    forall x: nat :: AttrAt(space, x) == AttrAt(space, x - x % PAGE_SIZE)
  }

  /** An allocation is gapless from its base on and all of one kind. */
  ghost predicate Solid(space: Space) {
    && (forall x :: x in space ==> space[x].allocBase <= x)
    && (forall x, y: nat :: x in space && space[x].allocBase <= y <= x ==> y in space && SameAllocation(space[x], space[y]))
  }

  lemma SolidBelow(space: Space, x: nat)
    requires Solid(space) && x in space
    ensures space[x].allocBase <= x
    ensures forall y: nat :: space[x].allocBase <= y <= x ==> y in space && SameAllocation(space[x], space[y])
  {
  }

  predicate SameAllocation(x: Attr, y: Attr) {
    x.allocBase == y.allocBase && x.allocProtect == y.allocProtect && x.kind == y.kind
  }

  // ---- memory queries ------------------------------------------------------------------------------------------

  /** The end of the longest run of equal addresses from x on. */
  function RunEnd(space: Space, x: nat, top: nat): (end: nat)
    requires x < top
    ensures x < end <= top
    ensures forall y: nat :: x <= y < end ==> AttrAt(space, y) == AttrAt(space, x)
    ensures end < top ==> AttrAt(space, end) != AttrAt(space, end - 1)
    decreases top - x
  {
    if x + 1 < top && AttrAt(space, x + 1) == AttrAt(space, x) then RunEnd(space, x + 1, top) else x + 1
  }

  /** VirtualQueryEx at x, the start of a page. */
  function Query(space: Space, x: nat, top: nat): (m: Mbi)
    requires x < top
    ensures m.base == x && m.size > 0 && x + m.size <= top && AttrOf(m) == AttrAt(space, x)
  {
    var attr := AttrAt(space, x);
    Mbi(x, attr.allocBase, attr.allocProtect, RunEnd(space, x, top) - x, attr.state, attr.protect, attr.kind)
  }

  /** The answers of successive queries, each starting where the one before ended. */
  function Queries(space: Space, lo: nat, top: nat): seq<Mbi>
    decreases top - lo
  {
    if lo >= top then []
    else
      var m := Query(space, lo, top);
      [m] + Queries(space, lo + m.size, top)
  }

  /** A query's answer: every address of the region is part of the same thing. */
  ghost predicate Uniform(space: Space, m: Mbi) {
    m.size > 0 && forall x: nat :: Within(m, x) ==> AttrAt(space, x) == AttrOf(m)
  }

  /** Each answer is uniform and in bounds, and later ones lie above. */
  lemma {:induction false} QueriedRegion(space: Space, lo: nat, top: nat, i: nat)
    requires i < |Queries(space, lo, top)|
    ensures var ms := Queries(space, lo, top);
      && Uniform(space, ms[i]) && lo <= ms[i].base && ms[i].base + ms[i].size <= top
      && (forall j: nat :: i < j < |ms| ==> ms[i].base + ms[i].size <= ms[j].base)
    decreases top - lo
  {
    hide RunEnd;
    var m := Query(space, lo, top);
    if i > 0 {
      QueriedRegion(space, lo + m.size, top, i - 1);
    } else {
      forall j: nat | 0 < j < |Queries(space, lo, top)| ensures m.base + m.size <= Queries(space, lo, top)[j].base {
        QueriedRegion(space, lo + m.size, top, j - 1);
      }
    }
  }

  /** Every address is in some answer. */
  lemma {:induction false} QueriedAddress(space: Space, lo: nat, top: nat, x: nat) returns (i: nat)
    requires lo <= x < top
    ensures i < |Queries(space, lo, top)| && Within(Queries(space, lo, top)[i], x)
    decreases top - lo
  {
    var m := Query(space, lo, top);
    if Within(m, x) {
      i := 0;
    } else {
      var j := QueriedAddress(space, lo + m.size, top, x);
      i := j + 1;
    }
  }

  // ---- freeing ---------------------------------------------------------------------------------------------------

  predicate InKuser(base: nat) {
    KUSER_BASE <= base <= KUSER_END
  }

  /** Regions for which nothing is released before a rebuild. */
  predicate Spared(m: Attr, base: nat, blacklist: seq<nat>) {
    m.state == MemFree || m.kind == MEM_IMAGE || m.kind == MEM_MAPPED || InKuser(base) || m.allocBase in blacklist
  }

  /** Releasing an allocation unmaps all of it. */
  function Release(p: Process, a: nat): Process {
    var space := map x | x in p.space && p.space[x].allocBase != a :: p.space[x];
    Process(space, map x | x in p.memory && x in space :: p.memory[x])
  }

  /** The freeing pass from lo on; every query sees what the releases before it have left. */
  function FreeFrom(p: Process, lo: nat, top: nat, blacklist: seq<nat>): Process
    decreases top - lo
  {
    if lo >= top then p
    else
      var m := Query(p.space, lo, top);
      FreeFrom(if Spared(AttrOf(m), lo, blacklist) then p else Release(p, m.allocBase), lo + m.size, top, blacklist)
  }

  /** A region starts at x, for a pass that starts at lo. */
  ghost predicate Starts(space: Space, lo: nat, top: nat, x: nat) {
    lo <= x < top && (x == lo || AttrAt(space, x - 1) != AttrAt(space, x))
  }

  /** Some region of the allocation is not spared. */
  ghost predicate Doomed(space: Space, lo: nat, top: nat, blacklist: seq<nat>, a: nat) {
    exists x: nat :: Starts(space, lo, top, x) && AttrAt(space, x).allocBase == a && !Spared(AttrAt(space, x), x, blacklist)
  }

  ghost function Kept(space: Space, top: nat, blacklist: seq<nat>): Space {
    map x | x in space && !Doomed(space, 0, top, blacklist, space[x].allocBase) :: space[x]
  }

  lemma DoomedFrom(space: Space, lo: nat, top: nat, blacklist: seq<nat>, a: nat)
    requires lo < top
    ensures var m := Query(space, lo, top);
      Doomed(space, lo, top, blacklist, a)
      <==> (m.allocBase == a && !Spared(AttrOf(m), lo, blacklist)) || Doomed(space, lo + m.size, top, blacklist, a)
  {
    var m := Query(space, lo, top);
    assert forall x: nat :: Starts(space, lo, top, x) <==> x == lo || Starts(space, lo + m.size, top, x);
  }

  /** Releasing one allocation neither saves nor dooms another. */
  lemma ReleaseDoomed(p: Process, b: nat, lo: nat, top: nat, blacklist: seq<nat>, a: nat)
    requires NoneFree(p.space) && a != b
    ensures Doomed(Release(p, b).space, lo, top, blacklist, a) <==> Doomed(p.space, lo, top, blacklist, a)
  {
    var q := Release(p, b);
    forall x: nat | AttrAt(p.space, x).allocBase == a && AttrAt(p.space, x).state != MemFree
      ensures Starts(q.space, lo, top, x) <==> Starts(p.space, lo, top, x)
    {
    }
  }

  ghost predicate StillThere(p: Process, q: Process) {
    forall x :: x in q.space ==> x in p.space && q.space[x] == p.space[x] && ByteAt(q.memory, x) == ByteAt(p.memory, x)
  }

  lemma ReleaseIs(p: Process, a: nat)
    ensures StillThere(p, Release(p, a))
    ensures forall x :: x in Release(p, a).space <==> x in p.space && p.space[x].allocBase != a
  {
  }

  /** The pass unmaps every allocation with a region that is not spared, and nothing else. */
  lemma {:induction false} FreeFromIs(p: Process, lo: nat, top: nat, blacklist: seq<nat>)
    requires NoneFree(p.space)
    ensures var q := FreeFrom(p, lo, top, blacklist);
      StillThere(p, q) && forall x :: x in q.space <==> x in p.space && !Doomed(p.space, lo, top, blacklist, p.space[x].allocBase)
    decreases top - lo
  {
    hide Doomed, Spared, Release, ByteAt, AttrAt, RunEnd;
    if lo < top {
      var m := Query(p.space, lo, top);
      var next := if Spared(AttrOf(m), lo, blacklist) then p else Release(p, m.allocBase);
      ReleaseIs(p, m.allocBase);
      FreeFromIs(next, lo + m.size, top, blacklist);
      assert FreeFrom(p, lo, top, blacklist) == FreeFrom(next, lo + m.size, top, blacklist);
      forall x | x in p.space
        ensures Doomed(p.space, lo, top, blacklist, p.space[x].allocBase)
           <==> x !in next.space || Doomed(next.space, lo + m.size, top, blacklist, p.space[x].allocBase)
      {
        DoomedFrom(p.space, lo, top, blacklist, p.space[x].allocBase);
        if x in next.space && next != p {
          ReleaseDoomed(p, m.allocBase, lo + m.size, top, blacklist, p.space[x].allocBase);
        }
      }
    } else {
      forall a ensures !Doomed(p.space, lo, top, blacklist, a) {
        NoneDoomed(p.space, lo, top, blacklist, a);
      }
    }
  }

  lemma NoneDoomed(space: Space, lo: nat, top: nat, blacklist: seq<nat>, a: nat)
    requires lo >= top
    ensures !Doomed(space, lo, top, blacklist, a)
  {
  }

  /** After the whole pass: spared allocations are as they were, bytes included, and everything else is unmapped. */
  lemma FreedIsKept(p: Process, top: nat, blacklist: seq<nat>)
    requires NoneFree(p.space)
    ensures var q := FreeFrom(p, 0, top, blacklist);
      q.space == Kept(p.space, top, blacklist) && forall x :: x in q.space ==> ByteAt(q.memory, x) == ByteAt(p.memory, x)
  {
    FreeFromIs(p, 0, top, blacklist);
  }

  // ---- rebuilding ------------------------------------------------------------------------------------------------

  function Span(a: nat, size: nat, attr: Attr): (space: Space)
    ensures forall x: nat :: x in space <==> a <= x < a + size
    ensures forall x :: x in space ==> space[x] == attr
  {
    if size == 0 then map[] else Span(a, size - 1, attr)[a + size - 1 := attr]
  }

  /** Reserved addresses are private and without access. */
  function Reserve(space: Space, a: nat, size: nat, allocProtect: nat): Space {
    Span(a, size, Attr(a, allocProtect, MemReserve, 0, MEM_PRIVATE)) + space
  }

  lemma ReserveIs(space: Space, a: nat, size: nat, allocProtect: nat)
    ensures var q := Reserve(space, a, size, allocProtect);
      && (forall x :: x in q <==> x in space || a <= x < a + size)
      && (forall x :: x in q ==> q[x] == if x in space then space[x] else Attr(a, allocProtect, MemReserve, 0, MEM_PRIVATE))
  {
  }

  function Commit(space: Space, m: Mbi): Space {
    map x | x in space :: if Within(m, x) then space[x].(state := MemCommit, protect := PAGE_EXECUTE_READWRITE) else space[x]
  }

  function Protect(space: Space, m: Mbi, protect: nat): Space {
    map x | x in space :: if Within(m, x) then space[x].(protect := protect) else space[x]
  }

  predicate Guarded(protect: nat) {
    protect / PAGE_GUARD % 2 == 1
  }

  /** How a region is made writable. */
  function Unlock(space: Space, m: Mbi, overwriting: bool): Space {
    if !overwriting then Commit(space, m)
    else if Guarded(m.protect) then Protect(space, m, m.protect - PAGE_GUARD)
    else if m.kind == MEM_IMAGE then Protect(space, m, PAGE_EXECUTE_WRITECOPY)
    else space
  }

  /** One region; only committed ones are rebuilt. */
  function RebuildRegion(p: Process, info: RegionInfo, overwriting: bool): Process {
    var m := info.mbi;
    if m.state != MemCommit then p
    else Process(Protect(Unlock(p.space, m, overwriting), m, m.protect), WriteBytes(p.memory, m.base, info.memory))
  }

  function RebuildRegions(p: Process, regions: seq<RegionInfo>, overwriting: bool): Process {
    if regions == [] then p
    else RebuildRegion(RebuildRegions(p, regions[..|regions| - 1], overwriting), regions[|regions| - 1], overwriting)
  }

  function SizeSum(infos: seq<RegionInfo>): nat {
    if infos == [] then 0 else SizeSum(infos[..|infos| - 1]) + infos[|infos| - 1].mbi.size
  }

  /** One allocation, reserved as a whole first when its base is free. */
  function RebuildAllocation(p: Process, a: nat, regions: seq<RegionInfo>): Process
    requires regions != []
  {
    if a in p.space then RebuildRegions(p, regions, true)
    else RebuildRegions(p.(space := Reserve(p.space, a, SizeSum(regions), regions[0].mbi.allocProtect)), regions, false)
  }
}
