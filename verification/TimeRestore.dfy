/** The histories of a debugging session: tracking, snapshots, and going back to a point (snapshot_log, TimeRestorePhase). */
module TimeRestores {
  import opened Options
  import opened Lineage
  import opened TreeHistory
  import opened TreeTimelines
  import opened AllocationModel
  import opened ProcessMemory
  import opened MemoryTimeline
  import opened MemoryReads
  import opened MemoryClasses
  import opened AddressSpaces
  import opened MemoryManagers
  import opened Rebuilds

  // ---- one tree -----------------------------------------------------------------------------------------------------

  /** The tree stands for a timeline whose run is the session's; its last record is no later than the session. */
  ghost predicate TreeAt<T>(v: Versioned<T>, run: nat, s: nat) {
    Ok(v) && v.time.active == run && v.time.next <= s + 1
  }

  ghost predicate TreesAt<T>(trees: map<nat, Tree<T>>, times: map<nat, Timeline<T>>, run: nat, s: nat) {
    trees.Keys == times.Keys && forall k :: k in trees ==> TreeAt(Versioned(trees[k], times[k]), run, s)
  }

  /** From the point on the tree reads the state, if the key is new; no other read differs. */
  ghost predicate Reads<T>(t: Tree<T>, t': Tree<T>, p: Point, state: T, isNew: bool) {
    Sized(t) && Sized(t') && forall r, q ::
      GetState(t', r, q) == if isNew && r == p.run && p.runSeq <= q then Some(state) else GetState(t, r, q)
  }

  /** The fresh run reads as the target at every sequence number; no other run reads differently. */
  ghost predicate Restarts<T>(t: Tree<T>, t': Tree<T>, target: Point, to: nat) {
    Sized(t) && Sized(t') && forall r, q ::
      GetState(t', r, q) == if r == to then GetState(t, target.run, target.runSeq) else GetState(t, r, q)
  }

  lemma AddAt<T>(v: Versioned<T>, run: nat, s: nat, state: T)
    requires TreeAt(v, run, s) && CanAdd(v, s)
    ensures Sized(v.tree) && TreeAt(Add(v, s, state), run, s)
    ensures Reads(v.tree, Add(v, s, state).tree, Point(run, s), state, v.time.next <= s)
  {
    hide Ok, GetState, AddChild;
    AddReads(v, s, state, 0, 0);
    forall r, q ensures GetState(Add(v, s, state).tree, r, q)
                     == if v.time.next <= s && r == run && s <= q then Some(state) else GetState(v.tree, r, q)
    {
      AddReads(v, s, state, r, q);
    }
  }

  lemma RevertAt<T>(v: Versioned<T>, run: nat, s: nat, target: Point)
    requires TreeAt(v, run, s) && target.run <= run
    ensures Sized(v.tree) && TreeAt(Undo(v, target), run + 1, 0)
    ensures Restarts(v.tree, Undo(v, target).tree, target, run + 1) && CanAdd(Undo(v, target), 0)
  {
    hide Ok, GetState, Revert;
    RevertReads(v, target, 0, 0);
    forall r, q ensures GetState(Undo(v, target).tree, r, q)
                     == if r == run + 1 then GetState(v.tree, target.run, target.runSeq) else GetState(v.tree, r, q)
    {
      RevertReads(v, target, r, q);
    }
  }

  lemma StartAt<T>(blank: T, state: T, run: nat, s: nat, origins: map<nat, Point>)
    requires OriginsBelow(origins) && forall q :: q in origins ==> q <= run
    ensures TreeAt(Versioned(NewTree(blank, state, run, s), Timeline(Log(map[run := [Entry(s, state)]], origins), run, s + 1)), run, s)
  {
    NewTreeKeeps(blank, state, Log(map[run := [Entry(s, state)]], origins), run, s);
  }

  /** CreateThreadHistoryBranch, CreateModuleHistoryBranch. */
  method RevertAll<T>(trees: map<nat, Tree<T>>, target: Point, to: nat, ghost times: map<nat, Timeline<T>>, ghost s: nat)
    returns (out: map<nat, Tree<T>>, ghost times': map<nat, Timeline<T>>)
    requires to > 0 && TreesAt(trees, times, to - 1, s) && target.run < to
    ensures TreesAt(out, times', to, 0)
    ensures out.Keys == trees.Keys && forall k :: k in trees ==> Restarts(trees[k], out[k], target, to)
  {
    hide TreeAt, Restarts, Take, Revert;
    out, times' := trees, times;
    var keys := trees.Keys;
    while keys != {}
      invariant keys <= trees.Keys == out.Keys == times'.Keys
      invariant forall k :: k in keys ==> out[k] == trees[k] && times'[k] == times[k]
      invariant forall k :: k in trees && k !in keys ==>
        Restarts(trees[k], out[k], target, to) && TreeAt(Versioned(out[k], times'[k]), to, 0)
      decreases keys
    {
      var k :| k in keys;
      RevertAt(Versioned(trees[k], times[k]), to - 1, s, target);
      TimeActive(Versioned(trees[k], times[k]), to - 1, s);
      keys := keys - {k};
      out := out[k := Revert(out[k], target, to)];
      times' := times'[k := Take(times[k], Restore(target))];
    }
  }

  lemma TimeActive<T>(v: Versioned<T>, run: nat, s: nat)
    requires TreeAt(v, run, s)
    ensures v.time.active == run && Sized(v.tree)
  {
    OkFacts(v);
  }

  /** A thread first tracked and then snapshotted at one sequence number: its snapshot record is never read. */
  lemma TrackedThenSnapshot<Th>(blank: Th, tracked: Th, snapped: Th, run: nat, s: nat, q: nat)
    requires s <= q
    ensures var t := NewTree(blank, tracked, run, s); Sized(AddChild(t, snapped, run, s)) && GetState(AddChild(t, snapped, run, s), run, q) == Some(tracked)
  {
    hide TreeInv, GetState, NewTree, AddChild, Read;
    var v := Versioned(NewTree(blank, tracked, run, s), Timeline(Log(map[run := [Entry(s, tracked)]], map[]), run, s + 1));
    StartAt(blank, tracked, run, s, map[]);
    StartsAtKey(blank, tracked, run, s);
    AddReads(v, s, snapped, run, q);
    TreeReads(v.tree, v.time.log, run, s + 1, run, q);
    OnlyEntry(run, s, tracked, q);
  }

  lemma StartsAtKey<T>(blank: T, state: T, run: nat, s: nat)
    ensures var t := NewTree(blank, state, run, s); |t.recs| == 2 && t.recs[1].run == run && t.recs[1].runSeq == s
  {
  }

  lemma OnlyEntry<T>(run: nat, s: nat, state: T, q: nat)
    requires s <= q
    ensures Read(Log(map[run := [Entry(s, state)]], map[]), run, q) == Some(state)
  {
  }

  /** One more record; the first one of a key starts its tree. */
  method Track<T>(trees: map<nat, Tree<T>>, k: nat, blank: T, state: T, run: nat, s: nat,
                  ghost times: map<nat, Timeline<T>>, ghost origins: map<nat, Point>)
    returns (out: map<nat, Tree<T>>, ghost times': map<nat, Timeline<T>>)
    requires TreesAt(trees, times, run, s) && (k in trees ==> CanAdd(Versioned(trees[k], times[k]), s))
    requires OriginsBelow(origins) && forall q :: q in origins ==> q <= run
    ensures TreesAt(out, times', run, s)
    ensures out.Keys == trees.Keys + {k} && forall x :: x in trees && x != k ==> out[x] == trees[x]
    ensures if k in trees then Reads(trees[k], out[k], Point(run, s), state, times[k].next <= s)
            else out[k] == NewTree(blank, state, run, s)
  {
    hide TreeAt, Reads, NewTree, AddChild, CanAdd;
    if k in trees {
      AddAt(Versioned(trees[k], times[k]), run, s, state);
      TimeActive(Versioned(trees[k], times[k]), run, s);
      out := trees[k := AddChild(trees[k], state, run, s)];
      times' := times[k := Add(Versioned(trees[k], times[k]), s, state).time];
    } else {
      StartAt(blank, state, run, s, origins);
      out := trees[k := NewTree(blank, state, run, s)];
      times' := times[k := Timeline(Log(map[run := [Entry(s, state)]], origins), run, s + 1)];
    }
  }

  // ---- memory ----------------------------------------------------------------------------------------------------------

  lemma WorldFacts(w: World, p: Point)
    requires GoodWorld(w) && p.run <= w.active
    ensures CanMove(w, Restored(p)) && WorldOk(w) && UsableHist(w.hist) && OriginsBelow(w.scans.origins) && InRangeHist(w.hist, p.run, p.runSeq)
    ensures forall q :: q in w.scans.origins ==> q <= w.active
  {
    hide AllocOk, HasRegion, InRangeAlloc, UsableAlloc, Tracked, AllProper, AllHeaded, HeadsAtBase;
    OkIsInRange(w, p.run, p.runSeq);
  }

  /** The memory step of a restore is the one of the state machine, so every result about runs applies after it. */
  lemma ExitIsRestore(w: World, target: Point)
    requires WorldOk(w) && target.run <= w.active
    ensures InRangeHist(w.hist, target.run, target.runSeq)
    ensures var h := TouchHist(w.hist, target.run, target.runSeq);
      ReadableHist(h) && BranchHist(h, target, w.active + 1) == Next(w, Restored(target)).hist
  {
    hide AllocOk, HasRegion, InRangeAlloc, UsableAlloc, ReadableAlloc, Tracked, AllProper;
    OkIsInRange(w, target.run, target.runSeq);
    TouchedIsReadable(w.hist, target.run, target.runSeq);
  }

  /** The scan a point sees. */
  ghost function ScanAt(w: World, p: Point): Option<Scan>
    requires GoodWorld(w)
  {
    WorldBelow(w);
    Read(w.scans, p.run, p.runSeq)
  }

  /** After a scan, its run shows it from its sequence number on; every other point shows what it did. */
  ghost predicate ScanRecorded(w: World, w': World, p: Point, scan: Scan) {
    GoodWorld(w) && GoodWorld(w') && forall r, q ::
      ScanAt(w', Point(r, q)) == if r == p.run && p.runSeq <= q then Some(scan) else ScanAt(w, Point(r, q))
  }

  /** After a restore, the fresh run shows the target's scan everywhere; every other point shows what it did. */
  ghost predicate ScansRestart(w: World, w': World, target: Point) {
    GoodWorld(w) && GoodWorld(w') && forall r, q ::
      ScanAt(w', Point(r, q)) == if r == w'.active then ScanAt(w, target) else ScanAt(w, Point(r, q))
  }

  /** Every point returns its scan, if and only if the committed sizes fit in 32 bits. */
  ghost predicate ShowsScans(w: World) {
    GoodWorld(w) && forall p: Point :: ReturnsScan(w.hist, ScanAt(w, p), p.run, p.runSeq) <==> ScanFits(ScanAt(w, p))
  }

  lemma GoodShowsScans(w: World)
    requires GoodWorld(w)
    ensures ShowsScans(w)
  {
    hide GoodWorld, ScanAt, ScanFits, ReturnsScan;
    forall p: Point ensures ReturnsScan(w.hist, ScanAt(w, p), p.run, p.runSeq) <==> ScanFits(ScanAt(w, p)) {
      CurrentIsScanAt(w, p);
    }
  }

  /** What every point returns after a restore. */
  lemma MemoryRestarts(w: World, p: Point, r: nat, s: nat)
    requires GoodWorld(w) && p.run <= w.active
    ensures var w' := Next(w, Restored(p));
      GoodWorld(w') && ScanAt(w', Point(r, s)) == if r == w.active + 1 then ScanAt(w, p) else ScanAt(w, Point(r, s))
  {
    hide AllocOk, HasRegion, InRangeAlloc, UsableAlloc, Tracked, AllHeaded, HeadsAtBase, AllProper, Read;
    NextGood(w, Restored(p));
    WorldBelow(w);
    BranchReads(w.scans, w.active, w.next, p, w.active + 1, r, s);
  }

  /** What every point returns after a scan. */
  lemma MemoryRecords(w: World, at: nat, scan: Scan, r: nat, s: nat)
    requires GoodWorld(w) && w.next <= at && ProperScan(scan) && Headed(scan)
    ensures var w' := Next(w, Scanned(at, scan));
      GoodWorld(w') && ScanAt(w', Point(r, s)) == if r == w.active && at <= s then Some(scan) else ScanAt(w, Point(r, s))
  {
    hide AllocOk, HasRegion, InRangeAlloc, UsableAlloc, Tracked, AllHeaded, HeadsAtBase, AllProper, Read, ProperScan, Headed;
    NextGood(w, Scanned(at, scan));
    WorldBelow(w);
    AppendReads(w.scans, w.active, w.next, at, scan, r, s);
  }

  lemma StartIsGood()
    ensures GoodWorld(START) && OriginsBelow(map[])
  {
  }

  lemma StartKey<T>(blank: T, state: T)
    ensures var t := NewTree(blank, state, 0, 0); |t.recs| == 2 && t.recs[1].run == 0 && t.recs[1].runSeq == 0
  {
  }

  /** No scan lists overlapping bytes. */
  ghost predicate AllApart(scans: Log<Scan>) {
    forall r, i :: r in scans.entries && 0 <= i < |scans.entries[r]| ==> ScanApart(scans.entries[r][i].data)
  }

  lemma ApartAt(w: World, p: Point)
    requires GoodWorld(w) && AllApart(w.scans) && ScanAt(w, p).Some?
    ensures ScanApart(ScanAt(w, p).value)
  {
    hide ScanApart, AllocOk, HasRegion, Tracked, AllHeaded, HeadsAtBase;
    WorldBelow(w);
  }

  lemma ApartAfter(w: World, at: nat, scan: Scan)
    requires GoodWorld(w) && w.next <= at && ProperScan(scan) && AllApart(w.scans) && ScanApart(scan)
    ensures CanMove(w, Scanned(at, scan)) && AllApart(Next(w, Scanned(at, scan)).scans)
  {
    hide ScanApart, AllocOk, HasRegion, Tracked, AllProper, AllHeaded, HeadsAtBase, UsableAlloc, Snapshot, ProperScan;
  }

  lemma ApartAfterRestore(w: World, p: Point)
    requires GoodWorld(w) && p.run <= w.active && AllApart(w.scans)
    ensures CanMove(w, Restored(p)) && AllApart(Next(w, Restored(p)).scans)
  {
    hide ScanApart, AllocOk, HasRegion, Tracked, AllProper, AllHeaded, HeadsAtBase, UsableAlloc;
  }

  // ---- the session -------------------------------------------------------------------------------------------------------

  class Session<Th, Dll, Snap> {
    var runId: nat
    var runSequence: nat
    var threads: map<nat, Tree<Th>>
    var currentThreadIds: set<nat>
    var modules: map<nat, Tree<Dll>>
    var snapshots: Tree<Snap>
    const manager: MemoryManager
    const noThread: Th
    const noModule: Dll

    ghost var threadTimes: map<nat, Timeline<Th>>
    ghost var moduleTimes: map<nat, Timeline<Dll>>
    ghost var snapshotTime: Timeline<Snap>
    ghost var world: World

    ghost predicate ValidTrees()
      reads this`runId, this`runSequence, this`threads, this`currentThreadIds, this`modules, this`snapshots
      reads this`threadTimes, this`moduleTimes, this`snapshotTime
    {
      && TreesAt(threads, threadTimes, runId, runSequence)
      && TreesAt(modules, moduleTimes, runId, runSequence)
      && TreeAt(Versioned(snapshots, snapshotTime), runId, runSequence)
      && CanAdd(Versioned(snapshots, snapshotTime), runSequence)
      && currentThreadIds <= threads.Keys
    }

    /** Every history is at the session's run, and stands for a log of that run and the runs before it. */
    ghost predicate Valid()
      reads this, manager.history
    {
      && ValidTrees()
      && GoodWorld(world) && world.active == runId && world.next <= runSequence
      && world.hist == manager.history.history && AllApart(world.scans)
    }

    /** StartSnapshotHistory at the start of recording. */
    constructor (m: MemoryManager, noThread: Th, noModule: Dll, none: Snap, first: Snap)
      requires m.history.history == map[]
      ensures Valid() && manager == m && runId == 0 && runSequence == 0
      ensures threads == map[] && modules == map[] && snapshots == NewTree(none, first, 0, 0)
    {
      hide GoodWorld, TreeInv, NewTree, TreeAt, Wf, OriginsBelow;
      manager, this.noThread, this.noModule := m, noThread, noModule;
      runId, runSequence, threads, currentThreadIds, modules := 0, 0, map[], {}, map[];
      snapshots := NewTree(none, first, 0, 0);
      threadTimes, moduleTimes, world := map[], map[], START;
      snapshotTime := Timeline(Log(map[0 := [Entry(0, first)]], map[]), 0, 1);
      new;
      StartIsGood();
      StartAt(none, first, 0, 0, map[]);
      StartKey(none, first);
    }

    method TrackThread(k: nat, state: Th)
      requires Valid() && (k in threads ==> CanAdd(Versioned(threads[k], threadTimes[k]), runSequence))
      modifies this
      ensures Valid() && threads.Keys == old(threads).Keys + {k} && currentThreadIds == old(currentThreadIds) + {k}
      ensures forall x :: x in old(threads) && x != k ==> threads[x] == old(threads)[x]
      ensures k in old(threads) ==>
        Reads(old(threads)[k], threads[k], Point(runId, runSequence), state, old(threadTimes)[k].next <= runSequence)
      ensures k !in old(threads) ==> threads[k] == NewTree(noThread, state, runId, runSequence)
      ensures runId == old(runId) && runSequence == old(runSequence) && modules == old(modules) && snapshots == old(snapshots)
    {
      hide TreesAt, TreeAt, GoodWorld, CanAdd, Reads, NewTree;
      TreesKeys(threads, threadTimes, runId, runSequence);
      WorldFacts(world, Point(0, 0));
      currentThreadIds := currentThreadIds + {k};
      threads, threadTimes := Track(threads, k, noThread, state, runId, runSequence, threadTimes, world.scans.origins);
    }

    /** A thread that was never tracked is only forgotten. */
    method UntrackThread(k: nat, state: Th)
      requires Valid() && (k in threads ==> CanAdd(Versioned(threads[k], threadTimes[k]), runSequence))
      modifies this
      ensures Valid() && threads.Keys == old(threads).Keys && currentThreadIds == old(currentThreadIds) - {k}
      ensures forall x :: x in threads && x != k ==> threads[x] == old(threads)[x]
      ensures k in threads ==>
        Reads(old(threads)[k], threads[k], Point(runId, runSequence), state, old(threadTimes)[k].next <= runSequence)
      ensures runId == old(runId) && runSequence == old(runSequence) && modules == old(modules) && snapshots == old(snapshots)
    {
      hide TreesAt, TreeAt, GoodWorld, CanAdd, Reads, NewTree;
      TreesKeys(threads, threadTimes, runId, runSequence);
      WorldFacts(world, Point(0, 0));
      currentThreadIds := currentThreadIds - {k};
      if k in threads {
        threads, threadTimes := Track(threads, k, noThread, state, runId, runSequence, threadTimes, world.scans.origins);
      }
    }

    /** TrackDLL; UntrackDLL is the same for a module that was tracked before, and nothing otherwise. */
    method TrackModule(k: nat, state: Dll)
      requires Valid() && (k in modules ==> CanAdd(Versioned(modules[k], moduleTimes[k]), runSequence))
      modifies this
      ensures Valid() && modules.Keys == old(modules).Keys + {k}
      ensures forall x :: x in old(modules) && x != k ==> modules[x] == old(modules)[x]
      ensures k in old(modules) ==>
        Reads(old(modules)[k], modules[k], Point(runId, runSequence), state, old(moduleTimes)[k].next <= runSequence)
      ensures k !in old(modules) ==> modules[k] == NewTree(noModule, state, runId, runSequence)
      ensures runId == old(runId) && runSequence == old(runSequence) && threads == old(threads) && snapshots == old(snapshots)
      ensures currentThreadIds == old(currentThreadIds)
    {
      hide TreesAt, TreeAt, GoodWorld, CanAdd, Reads, NewTree;
      TreesKeys(modules, moduleTimes, runId, runSequence);
      WorldFacts(world, Point(0, 0));
      modules, moduleTimes := Track(modules, k, noModule, state, runId, runSequence, moduleTimes, world.scans.origins);
    }

    /** A recorded event moves the sequence on. */
    method NextEvent()
      requires Valid()
      modifies this`runSequence
      ensures Valid() && runSequence == old(runSequence) + 1
    {
      hide TreeAt, GoodWorld, AllApart;
      TreesLater(threads, threadTimes, runId, runSequence);
      TreesLater(modules, moduleTimes, runId, runSequence);
      LaterAt(Versioned(snapshots, snapshotTime), runId, runSequence);
      runSequence := runSequence + 1;
    }

    /** SnapshotThreads; contexts holds the threads whose context could be read. */
    method SnapshotThreads(contexts: map<nat, Th>)
      requires Valid()
      requires forall k :: k in currentThreadIds && k in contexts ==> CanAdd(Versioned(threads[k], threadTimes[k]), runSequence)
      modifies this`threads, this`threadTimes
      ensures Valid() && threads.Keys == old(threads).Keys
      ensures ThreadsRecorded(old(threads), threads, old(threadTimes), currentThreadIds * contexts.Keys, contexts, Point(runId, runSequence))
    {
      hide TreesAt, TreeAt, GoodWorld, CanAdd, Reads, ThreadsRecorded, AddChild, Take;
      TreesKeys(threads, threadTimes, runId, runSequence);
      NoneRecorded(threads, threadTimes, contexts, Point(runId, runSequence));
      ghost var was, times, done := threads, threadTimes, {};
      var keys := currentThreadIds;
      while keys != {}
        invariant currentThreadIds == old(currentThreadIds) && keys <= currentThreadIds <= was.Keys == threads.Keys == threadTimes.Keys
        invariant TreesAt(threads, threadTimes, runId, runSequence)
        invariant forall k :: k in keys ==> threads[k] == was[k] && threadTimes[k] == times[k]
        invariant done == (currentThreadIds - keys) * contexts.Keys
        invariant ThreadsRecorded(was, threads, times, done, contexts, Point(runId, runSequence))
        decreases keys
      {
        var k :| k in keys;
        keys := keys - {k};
        if k !in contexts {
          continue;
        }
        AddIn(threads, threadTimes, k, runId, runSequence, contexts[k]);
        OneRecorded(was, threads, times, done, contexts, Point(runId, runSequence), k, AddChild(threads[k], contexts[k], runId, runSequence));
        done := done + {k};
        threadTimes := threadTimes[k := Add(Versioned(threads[k], threadTimes[k]), runSequence, contexts[k]).time];
        threads := threads[k := AddChild(threads[k], contexts[k], runId, runSequence)];
      }
      assert done == currentThreadIds * contexts.Keys;
    }

    /** The point's threads, memory and snapshot are recorded, and the sequence moves on. */
    method SnapshotProcess(snap: Snap, contexts: map<nat, Th>)
      requires Valid()
      requires forall k :: k in currentThreadIds && k in contexts ==> CanAdd(Versioned(threads[k], threadTimes[k]), runSequence)
      requires OkSpace(manager.space, manager.top) && manager.top > 0 && SkipsWhole(manager.space, manager.top, manager.blacklist)
      modifies this, manager.history
      ensures Valid() && runId == old(runId) && runSequence == old(runSequence) + 1 && modules == old(modules)
      ensures threads.Keys == old(threads).Keys && currentThreadIds == old(currentThreadIds)
      ensures ThreadsRecorded(old(threads), threads, old(threadTimes), currentThreadIds * contexts.Keys, contexts,
                              Point(runId, old(runSequence)))
      ensures Reads(old(snapshots), snapshots, Point(runId, old(runSequence)), snap, old(snapshotTime).next <= old(runSequence))
      ensures ScanRecorded(old(world), world, Point(runId, old(runSequence)), manager.CurrentScan())
      ensures ShowsScans(world)
    {
      hide AllApart, ScanApart, TreesAt, TreeAt, GoodWorld, CanAdd, Reads, OkSpace, SkipsWhole, Queries, ScanOf, Next, ProperScan, Headed, AddChild, ThreadsRecorded,
        ScanRecorded, ShowsScans, Snapshot, UsableHist, OriginsBelow, InRangeHist, Take, Ok;
      SnapshotThreads(contexts);
      ghost var scan := manager.CurrentScan();
      ScanIsGood(manager.Process(), manager.top, manager.blacklist);
      CurrentIsApart(manager.Process(), manager.top, manager.blacklist);
      WorldFacts(world, Point(0, 0));
      ghost var w, v := world, Versioned(snapshots, snapshotTime);
      manager.SnapshotMemory(runId, runSequence);
      ScanIsMove(w, runSequence, scan);
      world := Next(w, Scanned(runSequence, scan));
      MemoryRecorded(w, runSequence, scan);
      ApartAfter(w, runSequence, scan);
      AddAt(v, runId, runSequence, snap);
      TimeActive(v, runId, runSequence);
      snapshots := AddChild(snapshots, snap, runId, runSequence);
      snapshotTime := Add(v, runSequence, snap).time;
      SnapshotAhead(v, runId, runSequence, snap);
      TreesLater(threads, threadTimes, runId, runSequence);
      TreesLater(modules, moduleTimes, runId, runSequence);
      runSequence := runSequence + 1;
    }

    /** The fresh run, in all four histories. */
    method StartRun(target: Point)
      requires ValidTrees() && target.run <= runId && ReadableHist(manager.history.history)
      modifies this`runId, this`runSequence, this`threads, this`threadTimes, this`modules, this`moduleTimes, this`snapshots, this`snapshotTime,
        manager.history
      ensures ValidTrees() && runId == old(runId) + 1 && runSequence == 0
      ensures threads.Keys == old(threads).Keys && forall k :: k in threads ==> Restarts(old(threads)[k], threads[k], target, runId)
      ensures modules.Keys == old(modules).Keys && forall k :: k in modules ==> Restarts(old(modules)[k], modules[k], target, runId)
      ensures Restarts(old(snapshots), snapshots, target, runId)
      ensures manager.history.history == BranchHist(old(manager.history.history), target, runId)
    {
      hide TreesAt, TreeAt, CanAdd, Restarts, Revert, ReadableHist, BranchHist, Ok, Take;
      ghost var v, s := Versioned(snapshots, snapshotTime), runSequence;
      RevertAt(v, runId, s, target);
      TimeActive(v, runId, s);
      runId := runId + 1;
      runSequence := 0;
      threads, threadTimes := RevertAll(threads, target, runId, threadTimes, s);
      modules, moduleTimes := RevertAll(modules, target, runId, moduleTimes, s);
      manager.history.MakeBranch(target, runId);
      snapshots := Revert(snapshots, target, runId);
      snapshotTime := Undo(v, target).time;
    }

    /**
     Memory is freed and rebuilt; then all four histories start the same fresh run from the same target, and read there
     what they read at the target.
     */
    method Exit(target: Point) returns (ghost infos: seq<AllocationInfo>)
      requires Valid() && target.run <= runId
      modifies this, manager`space, manager`memory, manager.history
      ensures Valid() && runId == old(runId) + 1 && runSequence == 0 && currentThreadIds == old(currentThreadIds)
      ensures threads.Keys == old(threads).Keys && forall k :: k in threads ==> Restarts(old(threads)[k], threads[k], target, runId)
      ensures modules.Keys == old(modules).Keys && forall k :: k in modules ==> Restarts(old(modules)[k], modules[k], target, runId)
      ensures Restarts(old(snapshots), snapshots, target, runId)
      ensures ScansRestart(old(world), world, target) && ShowsScans(world)
      ensures NoneEmpty(infos)
      ensures manager.Process() == RebuildUpTo(FreeFrom(old(manager.Process()), 0, manager.top, manager.blacklist), infos, |infos|)
      ensures PutBack(old(ScanAt(world, target)), infos, old(manager.Process()), manager.Process())
    {
      hide AllApart, ValidTrees, GoodWorld, Restarts, ScanAt, Next, InRangeHist, ReadableHist, ReturnsScan, ScanFits, Returned,
        Lists, CurrentAllocations, FreeFrom, RebuildUpTo, ScansRestart, ShowsScans, TouchHist, BranchHist, NoneEmpty, OriginsBelow, UsableHist,
        PutBack;
      ghost var w, before := world, manager.Process();
      WorldFacts(w, target);
      ExitIsRestore(w, target);
      infos := manager.RestoreMemoryAtSequence(target.run, target.runSeq);
      TargetPutBack(w, target, infos, before, manager.Process(), manager.top, manager.blacklist);
      world := Next(w, Restored(target));
      StartRun(target);
      MemoryAfterExit(w, target);
      ApartAfterRestore(w, target);
    }
  }

  /** The recorded trees read their new states; the others are as they were. */
  ghost predicate ThreadsRecorded<T>(was: map<nat, Tree<T>>, now: map<nat, Tree<T>>, times: map<nat, Timeline<T>>, recorded: set<nat>,
                                     states: map<nat, T>, p: Point) {
    && was.Keys == now.Keys == times.Keys && recorded <= was.Keys && recorded <= states.Keys
    && (forall k :: k in recorded ==> Reads(was[k], now[k], p, states[k], times[k].next <= p.runSeq))
    && (forall k :: k in was && k !in recorded ==> now[k] == was[k])
  }

  lemma NoneRecorded<T>(trees: map<nat, Tree<T>>, times: map<nat, Timeline<T>>, states: map<nat, T>, p: Point)
    requires trees.Keys == times.Keys
    ensures ThreadsRecorded(trees, trees, times, {}, states, p)
  {
  }

  lemma OneRecorded<T>(was: map<nat, Tree<T>>, now: map<nat, Tree<T>>, times: map<nat, Timeline<T>>, recorded: set<nat>,
                       states: map<nat, T>, p: Point, k: nat, t: Tree<T>)
    requires ThreadsRecorded(was, now, times, recorded, states, p) && k in was && k in states && k !in recorded
    ensures Reads(was[k], t, p, states[k], times[k].next <= p.runSeq) ==>
      ThreadsRecorded(was, now[k := t], times, recorded + {k}, states, p)
  {
    hide Reads;
  }

  lemma AddIn<T>(trees: map<nat, Tree<T>>, times: map<nat, Timeline<T>>, k: nat, run: nat, s: nat, state: T)
    requires TreesAt(trees, times, run, s) && k in trees && CanAdd(Versioned(trees[k], times[k]), s)
    ensures Sized(trees[k]) && times[k].active == run
    ensures TreesAt(trees[k := AddChild(trees[k], state, run, s)], times[k := Add(Versioned(trees[k], times[k]), s, state).time], run, s)
    ensures Reads(trees[k], AddChild(trees[k], state, run, s), Point(run, s), state, times[k].next <= s)
  {
    hide TreeAt, Reads, CanAdd;
    AddAt(Versioned(trees[k], times[k]), run, s, state);
    TimeActive(Versioned(trees[k], times[k]), run, s);
  }

  lemma TreesKeys<T>(trees: map<nat, Tree<T>>, times: map<nat, Timeline<T>>, run: nat, s: nat)
    requires TreesAt(trees, times, run, s)
    ensures trees.Keys == times.Keys
  {
  }

  lemma CurrentIsApart(p: Process, top: nat, blacklist: seq<nat>)
    ensures ScanApart(ScanOf(p.memory, Queries(p.space, 0, top), blacklist))
  {
    ScanIsTaken(p, top, blacklist);
    TakenIsApart(ScanOf(p.memory, Queries(p.space, 0, top), blacklist), p.space);
  }

  lemma ScanIsMove(w: World, s: nat, scan: Scan)
    requires GoodWorld(w) && w.next <= s && ProperScan(scan)
    ensures CanMove(w, Scanned(s, scan)) && WorldOk(w) && UsableHist(w.hist)
    ensures var w' := Next(w, Scanned(s, scan)); w'.active == w.active && w'.next == s + 1 && w'.hist == Snapshot(w.hist, scan, w.active, s)
  {
    hide AllocOk, HasRegion, UsableAlloc, Tracked, AllProper, AllHeaded, HeadsAtBase, Snapshot;
  }

  lemma SnapshotAhead<T>(v: Versioned<T>, run: nat, s: nat, state: T)
    requires TreeAt(v, run, s) && CanAdd(v, s)
    ensures Sized(v.tree) && TreeAt(Add(v, s, state), run, s + 1) && CanAdd(Add(v, s, state), s + 1)
  {
    hide Ok;
    AddAt(v, run, s, state);
  }

  lemma LaterAt<T>(v: Versioned<T>, run: nat, s: nat)
    requires TreeAt(v, run, s)
    ensures TreeAt(v, run, s + 1) && CanAdd(v, s + 1)
  {
    hide Ok;
  }

  lemma TreesLater<T>(trees: map<nat, Tree<T>>, times: map<nat, Timeline<T>>, run: nat, s: nat)
    requires TreesAt(trees, times, run, s)
    ensures TreesAt(trees, times, run, s + 1)
  {
    hide Ok;
  }

  /** If the sizes fit, the target's scan is what was returned, and its bytes are back in their places. */
  ghost predicate PutBack(v: Option<Scan>, infos: seq<AllocationInfo>, was: Process, now: Process) {
    v.Some? && ScanFits(v) ==> Returned(infos, v.value) && (NoneFree(was.space) ==> AllHold(now.memory, v.value))
  }

  lemma TargetPutBack(w: World, target: Point, infos: seq<AllocationInfo>, was: Process, now: Process,
                      top: nat, blacklist: seq<nat>)
    requires GoodWorld(w) && AllApart(w.scans) && InRangeHist(w.hist, target.run, target.runSeq) && NoneEmpty(infos)
    requires Lists(infos, CurrentAllocations(w.hist, target.run, target.runSeq), {})
    requires now == RebuildUpTo(FreeFrom(was, 0, top, blacklist), infos, |infos|)
    ensures PutBack(ScanAt(w, target), infos, was, now)
  {
    hide GoodWorld, AllApart, InRangeHist, Lists, CurrentAllocations, ScanFits, ReturnsScan, Returned, NoneFree, ScanApart, AllHold, FreeFrom, RebuildUpTo,
      Kept, Untouched, InSpan;
    CurrentIsScan(w, target.run, target.runSeq);
    var v := ScanAt(w, target);
    if v.Some? && ScanFits(v) {
      ReturnedFacts(w.hist, v.value, target.run, target.runSeq, infos);
      ApartAt(w, target);
      if NoneFree(was.space) {
        RebuildIsTrue(was, top, blacklist, v.value, infos);
      }
    }
  }

  lemma MemoryRecorded(w: World, at: nat, scan: Scan)
    requires GoodWorld(w) && w.next <= at && ProperScan(scan) && Headed(scan)
    ensures CanMove(w, Scanned(at, scan)) && ScanRecorded(w, Next(w, Scanned(at, scan)), Point(w.active, at), scan)
    ensures GoodWorld(Next(w, Scanned(at, scan))) && ShowsScans(Next(w, Scanned(at, scan)))
  {
    hide GoodWorld, ScanAt, ShowsScans, ProperScan, Headed, Next;
    ScanIsMove(w, at, scan);
    var w' := Next(w, Scanned(at, scan));
    MemoryRecords(w, at, scan, 0, 0);
    forall r, q ensures ScanAt(w', Point(r, q)) == if r == w.active && at <= q then Some(scan) else ScanAt(w, Point(r, q)) {
      MemoryRecords(w, at, scan, r, q);
    }
    GoodShowsScans(w');
  }

  lemma MemoryAfterExit(w: World, target: Point)
    requires GoodWorld(w) && target.run <= w.active
    ensures CanMove(w, Restored(target))
    ensures var w' := Next(w, Restored(target));
      w'.active == w.active + 1 && w'.next == 0 && GoodWorld(w') && ScansRestart(w, w', target) && ShowsScans(w')
  {
    hide GoodWorld, ScanAt, ShowsScans;
    WorldFacts(w, target);
    var w' := Next(w, Restored(target));
    MemoryRestarts(w, target, 0, 0);
    forall r, q ensures ScanAt(w', Point(r, q)) == if r == w.active + 1 then ScanAt(w, target) else ScanAt(w, Point(r, q)) {
      MemoryRestarts(w, target, r, q);
    }
    GoodShowsScans(w');
  }

  lemma CurrentIsScanAt(w: World, p: Point)
    requires GoodWorld(w)
    ensures ReturnsScan(w.hist, ScanAt(w, p), p.run, p.runSeq) <==> ScanFits(ScanAt(w, p))
  {
    hide GoodWorld, ScanFits, ReturnsScan;
    CurrentIsScan(w, p.run, p.runSeq);
  }
}
