/** Scanning the debuggee's address space into the history and rebuilding it from the history (memory_manager). */
module MemoryManagers {
  import opened RegionModel
  import opened AllocationModel
  import opened ProcessMemory
  import opened MemoryTimeline
  import opened MemoryReads
  import opened MemoryClasses
  import opened AddressSpaces

  predicate Skipped(base: nat, blacklist: seq<nat>) {
    InKuser(base) || base in blacklist
  }

  /** What the system's region list amounts to: skipped regions out, bytes of committed regions in. */
  function ScanOf(memory: Bytes, queries: seq<Mbi>, blacklist: seq<nat>): Scan {
    if queries == [] then []
    else
      var m, rest := queries[|queries| - 1], ScanOf(memory, queries[..|queries| - 1], blacklist);
      if Skipped(m.base, blacklist) then rest
      else rest + [RegionInfo(m, if m.state == MemCommit then ReadBytes(memory, m.base, m.size) else [])]
  }

  lemma ScanOfNext(memory: Bytes, queries: seq<Mbi>, blacklist: seq<nat>, i: nat)
    requires i < |queries|
    ensures var m := queries[i];
      ScanOf(memory, queries[..i + 1], blacklist)
      == ScanOf(memory, queries[..i], blacklist)
         + if Skipped(m.base, blacklist) then []
           else [RegionInfo(m, if m.state == MemCommit then ReadBytes(memory, m.base, m.size) else [])]
  {
    assert queries[..i + 1][..i] == queries[..i];
  }

  lemma NothingScanned(memory: Bytes, blacklist: seq<nat>)
    ensures ScanOf(memory, [], blacklist) == []
  {
  }

  lemma QueriesNext(space: Space, address: nat, top: nat, queries: seq<Mbi>, i: nat)
    requires address < top && i <= |queries| && queries[i..] == Queries(space, address, top)
    ensures i < |queries| && queries[i] == Query(space, address, top)
    ensures queries[i + 1..] == Queries(space, address + queries[i].size, top)
  {
    assert queries[i] == queries[i..][0] && queries[i + 1..] == queries[i..][1..];
  }

  lemma QueriesDone(space: Space, address: nat, top: nat)
    requires top <= address
    ensures Queries(space, address, top) == []
  {
  }

  lemma {:induction false} ScanHistPrefix(h: Hist, full: Scan, info: RegionInfo, k: nat, r: nat, s: nat)
    requires UsableHist(h) && k <= |full|
    ensures ScanHist(h, full + [info], k, r, s) == ScanHist(h, full, k, r, s)
  {
    hide UsableHist, UpdateHist;
    if k > 0 {
      ScanHistPrefix(h, full, info, k - 1, r, s);
    }
  }

  lemma ScanHistNone(h: Hist, r: nat, s: nat)
    requires UsableHist(h)
    ensures ScanHist(h, [], 0, r, s) == h
  {
  }

  lemma ScanHistNext(h: Hist, full: Scan, info: RegionInfo, r: nat, s: nat)
    requires UsableHist(h)
    ensures ScanHist(h, full + [info], |full| + 1, r, s) == UpdateHist(ScanHist(h, full, |full|, r, s), info, r, s)
  {
    hide UsableAlloc;
    ScanHistPrefix(h, full, info, |full|, r, s);
  }

  // ---- rebuilding ----------------------------------------------------------------------------------------------

  ghost predicate NoneEmpty(infos: seq<AllocationInfo>) {
    forall i :: 0 <= i < |infos| ==> infos[i].allRegions != []
  }

  /** The first k allocations returned. */
  ghost function RebuildUpTo(p: Process, infos: seq<AllocationInfo>, k: nat): Process
    requires k <= |infos| && NoneEmpty(infos)
  {
    if k == 0 then p
    else RebuildAllocation(RebuildUpTo(p, infos, k - 1), infos[k - 1].allocationBase, infos[k - 1].allRegions)
  }

  lemma ListedNonEmpty(infos: seq<AllocationInfo>, cur: map<nat, seq<RegionInfo>>)
    requires Lists(infos, cur, {}) && forall a :: a in cur ==> cur[a] != []
    ensures NoneEmpty(infos)
  {
  }

  /** An allocation that is not freed has its first region to return. */
  lemma NoneReturnedEmpty(h: Hist, r: nat, s: nat)
    requires InRangeHist(h, r, s)
    ensures var cur := CurrentAllocations(h, r, s); forall a :: a in cur ==> cur[a] != []
  {
    hide InRange, InfoAt;
    forall a | a in CurrentAllocations(h, r, s) ensures LiveRegions(h[a], r, s) != [] {
      LiveUpToPrefix(h[a], r, s, |h[a].regions|);
    }
  }

  class MemoryManager {
    /** Where the system's queries end. */
    const top: nat
    const history: ProcessMemoryHistory
    var blacklist: seq<nat>
    var space: Space
    var memory: Bytes

    function Process(): Process
      reads this
    {
      AddressSpaces.Process(space, memory)
    }

    /** What a scan would record now. */
    function CurrentScan(): Scan
      reads this
    {
      ScanOf(memory, Queries(space, 0, top), blacklist)
    }

    constructor (top: nat, process: Process)
      ensures fresh(history) && history.history == map[] && blacklist == []
      ensures this.top == top && Process() == process
    {
      this.top, space, memory := top, process.space, process.memory;
      history := new ProcessMemoryHistory();
      blacklist := [];
    }

    method AddBlacklistAddress(address: nat)
      modifies this`blacklist
      ensures blacklist == old(blacklist) + [address]
    {
      blacklist := blacklist + [address];
    }

    /** One scan of the address space. */
    method SnapshotMemory(r: nat, s: nat)
      requires UsableHist(history.history)
      modifies history
      ensures history.history == Snapshot(old(history.history), CurrentScan(), r, s)
    {
      hide UsableHist, ScanHist, UpdateHist, Queries, ScanOf;
      ghost var h, scan, queries, i := history.history, [], Queries(space, 0, top), 0;
      ScanHistNone(h, r, s);
      assert ScanOf(memory, [], blacklist) == [] by { NothingScanned(memory, blacklist); }
      var address := 0;
      while address < top
        invariant i <= |queries| && queries[i..] == Queries(space, address, top)
        invariant scan == ScanOf(memory, queries[..i], blacklist)
        invariant UsableHist(h) && UsableHist(history.history) && history.history == ScanHist(h, scan, |scan|, r, s)
      {
        var m := Query(space, address, top);
        QueriesNext(space, address, top, queries, i);
        address := m.base + m.size;
        ScanOfNext(memory, queries, blacklist, i);
        i := i + 1;
        if KUSER_BASE <= m.base && m.base <= KUSER_END {
          continue;
        }
        if m.base in blacklist {
          continue;
        }
        var regionMemory := [];
        if m.state == MemCommit {
          regionMemory := ReadBytes(memory, m.base, m.size);
        }
        var info := RegionInfo(m, regionMemory);
        ScanHistNext(h, scan, info, r, s);
        history.Update(info, r, s);
        scan := scan + [info];
      }
      QueriesDone(space, address, top);
      assert queries[..i] == queries;
      history.UpdateStaleRegions(r, s);
    }

    /** total_region_size. */
    static method TotalSize(regions: seq<RegionInfo>) returns (total: nat)
      ensures total == SizeSum(regions)
    {
      total := 0;
      for j := 0 to |regions|
        invariant total == SizeSum(regions[..j])
      {
        assert regions[..j + 1][..j] == regions[..j];
        total := total + regions[j].mbi.size;
      }
      assert regions[..|regions|] == regions;
    }

    /** Free what is easy to free. */
    method FreeAll()
      modifies this`space, this`memory
      ensures Process() == FreeFrom(old(Process()), 0, top, blacklist)
    {
      ghost var p := Process();
      var address := 0;
      while address < top
        invariant FreeFrom(Process(), address, top, blacklist) == FreeFrom(p, 0, top, blacklist)
      {
        var m := Query(space, address, top);
        var at := address;
        address := m.base + m.size;
        if m.state == MemFree || m.kind == MEM_IMAGE || m.kind == MEM_MAPPED {
          continue;
        }
        if KUSER_BASE <= at && at <= KUSER_END {
          continue;
        }
        if m.allocBase in blacklist {
          continue;
        }
        var q := Release(Process(), m.allocBase);
        space, memory := q.space, q.memory;
      }
    }

    /** One allocation's committed regions, in order. */
    method Rebuild(regions: seq<RegionInfo>, overwriting: bool)
      modifies this`space, this`memory
      ensures Process() == RebuildRegions(old(Process()), regions, overwriting)
    {
      ghost var p := Process();
      for j := 0 to |regions|
        invariant Process() == RebuildRegions(p, regions[..j], overwriting)
      {
        var m := regions[j].mbi;
        assert regions[..j + 1][..j] == regions[..j];
        if m.state != MemCommit {
          continue;
        }
        if !overwriting {
          space := Commit(space, m);
        } else if Guarded(m.protect) {
          space := Protect(space, m, m.protect - PAGE_GUARD);
        } else if m.kind == MEM_IMAGE {
          space := Protect(space, m, PAGE_EXECUTE_WRITECOPY);
        }
        memory := WriteBytes(memory, m.base, regions[j].memory);
        space := Protect(space, m, m.protect);
      }
      assert regions[..|regions|] == regions;
    }

    /** Free, then rebuild what was visible at (r, s), allocation by allocation in the order they are returned. */
    method RestoreMemoryAtSequence(r: nat, s: nat) returns (ghost infos: seq<AllocationInfo>)
      requires InRangeHist(history.history, r, s)
      modifies this`space, this`memory, history
      ensures history.history == TouchHist(old(history.history), r, s)
      ensures Lists(infos, CurrentAllocations(old(history.history), r, s), {}) && NoneEmpty(infos)
      ensures Process() == RebuildUpTo(FreeFrom(old(Process()), 0, top, blacklist), infos, |infos|)
    {
      hide InRangeHist, Lists, CurrentAllocations, LiveOf, SizeSum, RebuildRegions, FreeFrom;
      NoneReturnedEmpty(history.history, r, s);
      FreeAll();
      ghost var freed := Process();
      ghost var cur := CurrentAllocations(history.history, r, s);
      var listed := history.GetCurrentAllocationRegions(r, s);
      ghost var touched := history.history;
      infos := listed;
      ListedNonEmpty(infos, cur);
      for i := 0 to |listed|
        invariant Process() == RebuildUpTo(freed, infos, i) && history.history == touched
      {
        var a, regions := listed[i].allocationBase, listed[i].allRegions;
        var total := TotalSize(regions);
        var overwritingExisting := a in space;
        if !overwritingExisting {
          space := Reserve(space, a, total, regions[0].mbi.allocProtect);
        }
        Rebuild(regions, overwritingExisting);
      }
    }
  }
}
