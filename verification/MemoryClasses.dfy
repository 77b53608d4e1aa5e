/** The mutable classes above the page histories; their containers hold the parts by value, as the originals do. */
module MemoryClasses {
  import opened Options
  import opened Lineage
  import opened TreeHistory
  import opened PagedMemory
  import opened PageBytes
  import opened RegionModel
  import opened AllocationModel
  import opened ProcessMemory
  import opened MemoryTimeline

  class RegionHistory {
    const base: nat
    var mbis: Tree<Mbi>
    var memory: Memory<Page>

    function Value(): Region
      reads this
    {
      Region(base, mbis, memory)
    }

    constructor (info: RegionInfo, r: nat, s: nat)
      ensures Value() == NewRegion(info, r, s)
    {
      base := info.mbi.base;
      mbis := NewTree(FREE_MBI, info.mbi, r, s);
      memory := Write([], r, s, Pages(info.memory));
    }

    method GetCurrentRegionInfo(r: nat, s: nat) returns (info: Option<RegionInfo>)
      requires Sized(mbis) && Readable(memory) && InRange(Value(), r, s)
      modifies this
      ensures info == InfoAt(old(Value()), r, s)
      ensures Value() == TouchRegion(old(Value()), r, s)
    {
      var mbi := GetState(mbis, r, s);
      if mbi.None? {
        return None;
      }
      var bytes: seq<PageByte> := [];
      if mbi.value.state == MemCommit {
        var size := mbi.value.size % UINT32;
        bytes := BytesAt(memory, r, s, size);
        memory := Touched(memory, r, s, size / PAGE_SIZE);
      } else {
        assert Touched(memory, r, s, 0) == memory;
        assert BytesAt(memory, r, s, 0) == [];
      }
      info := Some(RegionInfo(mbi.value, bytes));
    }

    method Update(info: RegionInfo, r: nat, s: nat)
      requires Usable(Value())
      modifies this
      ensures Value() == UpdateRegion(old(Value()), info, r, s)
    {
      memory := Write(memory, r, s, Pages(info.memory));
      mbis := AddChild(mbis, info.mbi, r, s);
    }

    method MakeBranch(from: Point, to: nat)
      requires Sized(mbis) && Readable(memory)
      modifies this
      ensures Value() == BranchRegion(old(Value()), from, to)
    {
      memory := Branches(memory, from, to);
      mbis := Revert(mbis, from, to);
    }
  }

  class AllocationRegion {
    var regions: seq<Region>
    var seen: seq<nat>

    function Value(): Alloc
      reads this
    {
      Alloc(regions, seen)
    }

    constructor (info: RegionInfo, r: nat, s: nat)
      ensures Value() == NewAlloc(info, r, s)
    {
      regions, seen := [NewRegion(info, r, s)], [];
    }

    method Update(info: RegionInfo, r: nat, s: nat)
      requires UsableAlloc(Value()) && DistinctBases(regions)
      modifies this
      ensures Value() == UpdateAlloc(old(Value()), info, r, s)
    {
      seen := seen + [info.mbi.base];
      var i := 0;
      while i < |regions| && regions[i].base != info.mbi.base
        invariant 0 <= i <= |regions| && forall k :: 0 <= k < i ==> regions[k].base != info.mbi.base
      {
        i := i + 1;
      }
      if i == |regions| {
        regions := regions + [NewRegion(info, r, s)];
        return;
      }
      regions := regions[i := UpdateRegion(regions[i], info, r, s)];
    }

    method GetCurrentRegions(r: nat, s: nat) returns (infos: seq<RegionInfo>)
      requires InRangeAlloc(Value(), r, s)
      modifies this
      ensures infos == LiveRegions(old(Value()), r, s)
      ensures seen == old(seen) && |regions| == |old(regions)|
      ensures forall j :: 0 <= j < |regions| ==> regions[j] == TouchRegion(old(regions)[j], r, s)
    {
      hide InRange, InfoAt, TouchRegion;
      ghost var al := Value();
      infos := [];
      for j := 0 to |regions|
        invariant |regions| == |al.regions| && seen == al.seen && infos == LiveUpTo(al, r, s, j)
        invariant forall k :: 0 <= k < j ==> regions[k] == TouchRegion(al.regions[k], r, s)
        invariant forall k :: j <= k < |regions| ==> regions[k] == al.regions[k]
      {
        var info := InfoAt(regions[j], r, s);
        regions := regions[j := TouchRegion(regions[j], r, s)];
        if info.None? || info.value.mbi.state == MemFree {
          continue;
        }
        infos := infos + [info.value];
      }
    }

    method UpdateStaleRegions(r: nat, s: nat)
      requires UsableAlloc(Value())
      modifies this
      ensures Value() == StaleAlloc(old(Value()), r, s)
    {
      if |regions| == |seen| {
        seen := [];
        assert regions == StaleAlloc(old(Value()), r, s).regions;
        return;
      }
      ghost var al := Value();
      for j := 0 to |regions|
        invariant |regions| == |al.regions| && seen == al.seen
        invariant forall k :: 0 <= k < j ==> regions[k] == StaleRegion(al, k, r, s)
        invariant forall k :: j <= k < |regions| ==> regions[k] == al.regions[k]
      {
        if regions[j].base in seen {
          continue;
        }
        regions := regions[j := UpdateRegion(regions[j], FREED, r, s)];
      }
      seen := [];
      assert regions == StaleAlloc(al, r, s).regions;
    }

    method MakeBranch(from: Point, to: nat)
      requires ReadableAlloc(Value())
      modifies this
      ensures Value() == BranchAlloc(old(Value()), from, to)
    {
      ghost var al := Value();
      for j := 0 to |regions|
        invariant |regions| == |al.regions| && seen == al.seen
        invariant forall k :: 0 <= k < j ==> regions[k] == BranchRegion(al.regions[k], from, to)
        invariant forall k :: j <= k < |regions| ==> regions[k] == al.regions[k]
      {
        regions := regions[j := BranchRegion(regions[j], from, to)];
      }
      assert regions == BranchAlloc(al, from, to).regions;
    }

    method IsAllocationFreed(r: nat, s: nat) returns (freed: bool)
      requires InRangeAlloc(Value(), r, s)
      modifies this
      ensures freed == FreedAt(old(Value()), r, s)
      ensures seen == old(seen) && regions == old(regions)[0 := TouchRegion(old(regions)[0], r, s)]
    {
      var info := InfoAt(regions[0], r, s);
      regions := regions[0 := TouchRegion(regions[0], r, s)];
      if info.None? {
        return true;
      }
      freed := info.value.mbi.state == MemFree;
    }
  }

  datatype AllocationInfo = AllocationInfo(allocationBase: nat, allRegions: seq<RegionInfo>)

  /** The list form of the allocations returned, apart from those still to come: each once, in any order. */
  ghost predicate Lists(infos: seq<AllocationInfo>, cur: map<nat, seq<RegionInfo>>, left: set<nat>) {
    && (forall i :: 0 <= i < |infos| ==>
          && infos[i].allocationBase in cur && infos[i].allocationBase !in left
          && infos[i].allRegions == cur[infos[i].allocationBase])
    && (forall i, j :: 0 <= i < j < |infos| ==> infos[i].allocationBase != infos[j].allocationBase)
    && (forall a :: a in cur && a !in left ==> exists i :: 0 <= i < |infos| && infos[i].allocationBase == a)
  }

  lemma ListsNext(infos: seq<AllocationInfo>, cur: map<nat, seq<RegionInfo>>, left: set<nat>, a: nat)
    requires Lists(infos, cur, left) && a in left
    ensures a !in cur ==> Lists(infos, cur, left - {a})
    ensures a in cur ==> Lists(infos + [AllocationInfo(a, cur[a])], cur, left - {a})
  {
    if a in cur {
      var infos' := infos + [AllocationInfo(a, cur[a])];
      assert infos'[|infos|].allocationBase == a;
      forall x | x in cur && x !in left - {a} ensures exists i :: 0 <= i < |infos'| && infos'[i].allocationBase == x {
        if x != a {
          var i :| 0 <= i < |infos| && infos[i].allocationBase == x;
          assert infos'[i].allocationBase == x;
        }
      }
    }
  }

  lemma NoneListed(h: Hist, cur: map<nat, seq<RegionInfo>>)
    requires cur.Keys <= h.Keys
    ensures Lists([], cur, h.Keys)
  {
  }

  class ProcessMemoryHistory {
    var history: map<nat, Alloc>

    constructor ()
      ensures history == map[]
    {
      history := map[];
    }

    method GetCurrentAllocationRegions(r: nat, s: nat) returns (infos: seq<AllocationInfo>)
      requires InRangeHist(history, r, s)
      modifies this
      ensures Lists(infos, CurrentAllocations(old(history), r, s), {})
      ensures history == TouchHist(old(history), r, s)
    {
      hide InRangeAlloc, Lists, LiveRegions, TouchAlloc, FreedAt;
      ghost var h, cur := history, CurrentAllocations(history, r, s);
      infos := [];
      var keys := history.Keys;
      assert Lists([], cur, keys) by { NoneListed(h, cur); }
      while keys != {}
        invariant keys <= h.Keys == history.Keys
        invariant forall a :: a in h ==> history[a] == if a in keys then h[a] else TouchAlloc(h[a], r, s)
        invariant Lists(infos, cur, keys)
        decreases keys
      {
        var a :| a in keys;
        var al := history[a];
        ListsNext(infos, cur, keys, a);
        keys := keys - {a};
        history := history[a := TouchAlloc(al, r, s)];
        if FreedAt(al, r, s) {
          continue;
        }
        infos := infos + [AllocationInfo(a, LiveRegions(al, r, s))];
      }
      assert history == TouchHist(h, r, s);
    }

    method Update(info: RegionInfo, r: nat, s: nat)
      requires UsableHist(history)
      modifies this
      ensures history == UpdateHist(old(history), info, r, s)
    {
      var a := info.mbi.allocBase;
      if a !in history {
        history := history[a := NewAlloc(info, r, s)];
      } else {
        history := history[a := UpdateAlloc(history[a], info, r, s)];
      }
    }

    method UpdateStaleRegions(r: nat, s: nat)
      requires UsableHist(history)
      modifies this
      ensures history == StaleHist(old(history), r, s)
    {
      hide UsableAlloc;
      ghost var h := history;
      var keys := history.Keys;
      while keys != {}
        invariant keys <= h.Keys == history.Keys
        invariant forall a :: a in h ==> history[a] == if a in keys then h[a] else StaleAlloc(h[a], r, s)
        decreases keys
      {
        var a :| a in keys;
        keys := keys - {a};
        history := history[a := StaleAlloc(history[a], r, s)];
      }
      assert history == StaleHist(h, r, s);
    }

    method MakeBranch(from: Point, to: nat)
      requires ReadableHist(history)
      modifies this
      ensures history == BranchHist(old(history), from, to)
    {
      hide ReadableAlloc;
      ghost var h := history;
      var keys := history.Keys;
      while keys != {}
        invariant keys <= h.Keys == history.Keys
        invariant forall a :: a in h ==> history[a] == if a in keys then h[a] else BranchAlloc(h[a], from, to)
        decreases keys
      {
        var a :| a in keys;
        keys := keys - {a};
        history := history[a := BranchAlloc(history[a], from, to)];
      }
      assert history == BranchHist(h, from, to);
    }
  }
}
