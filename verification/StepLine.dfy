/** The code of a source line, and the stops that end a step over it. */
module LineRanges {
  datatype LineRange = LineRange(start: nat, end: nat)

  predicate InRanges(ranges: seq<LineRange>, a: nat) {
    exists i :: 0 <= i < |ranges| && ranges[i].start <= a < ranges[i].end
  }

  predicate ByStart(ranges: seq<LineRange>) {
    forall i, j :: 0 <= i < j < |ranges| ==> ranges[i].start <= ranges[j].start
  }

  /** Ranges in order with a gap between any two. */
  predicate Merged(ranges: seq<LineRange>) {
    && (forall i :: 0 <= i < |ranges| ==> ranges[i].start < ranges[i].end)
    && (forall i, j :: 0 <= i < j < |ranges| ==> ranges[i].end < ranges[j].start)
  }

  method AddressInLineRanges(ranges: seq<LineRange>, a: nat) returns (found: bool)
    ensures found == InRanges(ranges, a)
  {
    for i := 0 to |ranges|
      invariant forall k :: 0 <= k < i ==> !(ranges[k].start <= a < ranges[k].end)
    {
      if ranges[i].start <= a < ranges[i].end {
        return true;
      }
    }
    return false;
  }

  method SortByStart(a: array<LineRange>)
    modifies a
    ensures ByStart(a[..]) && multiset(a[..]) == multiset(old(a[..]))
  {
    for n := 0 to a.Length
      invariant ByStart(a[..n]) && multiset(a[..]) == multiset(old(a[..]))
    {
      Sink(a, n);
    }
    assert a[..a.Length] == a[..];
  }

  /** Put the n-th element in its place among the ones before it. */
  method Sink(a: array<LineRange>, n: nat)
    requires n < a.Length && ByStart(a[..n])
    modifies a
    ensures ByStart(a[..n + 1]) && multiset(a[..]) == multiset(old(a[..]))
  {
    var j := n;
    while j > 0 && a[j - 1].start > a[j].start
      invariant 0 <= j <= n && multiset(a[..]) == multiset(old(a[..]))
      invariant forall i, k :: 0 <= i < k <= n && k != j && i != j ==> a[i].start <= a[k].start
      invariant forall k :: j < k <= n ==> a[j].start <= a[k].start
    {
      Swap(a, j - 1, j);
      j := j - 1;
    }
  }

  method Swap(a: array<LineRange>, i: nat, j: nat)
    requires i < a.Length && j < a.Length
    modifies a
    ensures a[i] == old(a[j]) && a[j] == old(a[i])
    ensures forall k :: 0 <= k < a.Length && k != i && k != j ==> a[k] == old(a[k])
    ensures multiset(a[..]) == multiset(old(a[..]))
  {
    a[i], a[j] := a[j], a[i];
  }

  /** Sorted ranges, merged where they touch or overlap: the same addresses in the fewest pieces. */
  method Merge(ranges: seq<LineRange>) returns (merged: seq<LineRange>)
    requires ByStart(ranges) && forall i :: 0 <= i < |ranges| ==> ranges[i].start < ranges[i].end
    ensures Merged(merged) && forall a: nat :: InRanges(merged, a) <==> InRanges(ranges, a)
  {
    merged := [];
    for i := 0 to |ranges|
      invariant Merged(merged) && forall a: nat :: InRanges(merged, a) <==> InRanges(ranges[..i], a)
      invariant merged != [] ==> i > 0 && merged[|merged| - 1].start <= ranges[i - 1].start
    {
      var r, before := ranges[i], merged;
      var last := |merged| - 1;
      if merged != [] && r.start <= merged[last].end {
        var end := if merged[last].end < r.end then r.end else merged[last].end;
        merged := merged[last := LineRange(merged[last].start, end)];
        Widened(before, r, merged);
      } else {
        merged := merged + [r];
        Appended(before, r);
      }
      Appended(ranges[..i], r);
      assert ranges[..i + 1] == ranges[..i] + [r];
    }
    assert ranges[..|ranges|] == ranges;
  }

  lemma Appended(ranges: seq<LineRange>, r: LineRange)
    ensures forall a: nat :: InRanges(ranges + [r], a) <==> InRanges(ranges, a) || r.start <= a < r.end
  {
    var all := ranges + [r];
    forall a: nat ensures InRanges(all, a) <==> InRanges(ranges, a) || r.start <= a < r.end {
      if InRanges(ranges, a) {
        var i :| 0 <= i < |ranges| && ranges[i].start <= a < ranges[i].end;
        assert all[i] == ranges[i];
      }
      assert all[|ranges|] == r;
    }
  }

  lemma Widened(ranges: seq<LineRange>, r: LineRange, wide: seq<LineRange>)
    requires ranges != [] && ranges[|ranges| - 1].start <= r.start <= ranges[|ranges| - 1].end
    requires wide == ranges[|ranges| - 1 := LineRange(ranges[|ranges| - 1].start,
                                                      if ranges[|ranges| - 1].end < r.end then r.end else ranges[|ranges| - 1].end)]
    ensures forall a: nat :: InRanges(wide, a) <==> InRanges(ranges, a) || r.start <= a < r.end
  {
    var last := |ranges| - 1;
    forall a: nat ensures InRanges(wide, a) <==> InRanges(ranges, a) || r.start <= a < r.end {
      if InRanges(ranges, a) {
        var i :| 0 <= i < |ranges| && ranges[i].start <= a < ranges[i].end;
        assert wide[i].start <= a < wide[i].end;
      }
      if r.start <= a < r.end {
        assert wide[last].start <= a < wide[last].end;
      }
      if InRanges(wide, a) {
        var i :| 0 <= i < |wide| && wide[i].start <= a < wide[i].end;
        assert ranges[i].start <= a < ranges[i].end || (r.start <= a < r.end);
      }
    }
  }
}

module StepPlanning {
  import opened Options
  import opened Words
  import opened InstructionSet
  import opened Instrumentation
  import opened Analysis
  import opened LineRanges
  import P = Predecessors

  datatype StepMode = LineStep | IntoStep

  datatype StopKind = LineStop | CallStop | IndirectJumpStop | ReturnStop

  datatype Stop = Stop(original: nat, trueAddress: nat, kind: StopKind)

  ghost predicate Planted(stops: seq<Stop>, a: nat) {
    exists i :: 0 <= i < |stops| && stops[i].original == a
  }

  ghost predicate PlantedAs(stops: seq<Stop>, a: nat, kind: StopKind) {
    exists i :: 0 <= i < |stops| && stops[i].original == a && stops[i].kind == kind
  }

  ghost predicate Distinct(stops: seq<Stop>) {
    forall i, j :: 0 <= i < j < |stops| ==> stops[i].original != stops[j].original
  }

  /** A stop is planted once for an address; the first kind stands. */
  method AddBreakpoint(stubs: Instrumenter, stops: seq<Stop>, a: nat, kind: StopKind) returns (stops': seq<Stop>)
    requires Distinct(stops)
    ensures Distinct(stops') && stops <= stops'
    ensures stops' == if Planted(stops, a) then stops else stops + [Stop(a, TrueOf(stubs.Value(), a), kind)]
  {
    for i := 0 to |stops|
      invariant forall k :: 0 <= k < i ==> stops[k].original != a
    {
      if stops[i].original == a {
        return stops;
      }
    }
    var t, _ := stubs.TrueAddress(a);
    return stops + [Stop(a, t, kind)];
  }

  predicate NeverFallsThrough(kind: BranchKind) {
    kind == UnconditionalJmp || kind == IndirectJump || kind == Return
  }

  /** The first branch that ends at an address. */
  function EndingAt(branches: seq<BranchSite>, a: nat): Option<BranchSite> {
    if branches == [] then None else if branches[0].next == a then Some(branches[0]) else EndingAt(branches[1..], a)
  }

  predicate WalksOff(branches: seq<BranchSite>, a: nat) {
    var b := EndingAt(branches, a);
    b.None? || !NeverFallsThrough(b.value.kind)
  }

  method FallsOff(branches: seq<BranchSite>, a: nat) returns (falls: bool)
    ensures falls == WalksOff(branches, a)
  {
    falls := true;
    assert branches[0..] == branches;
    for i := 0 to |branches|
      invariant falls && EndingAt(branches, a) == EndingAt(branches[i..], a)
    {
      assert branches[i..][1..] == branches[i + 1..];
      if branches[i].next == a {
        return !NeverFallsThrough(branches[i].kind);
      }
    }
  }

  /** The stop a branch inside the line asks for, if any. */
  function BranchStop(ranges: seq<LineRange>, mode: StepMode, b: BranchSite): Option<(nat, StopKind)> {
    match b.kind
    case Conditional => if InRanges(ranges, b.target) then None else Some((b.target, LineStop))
    case UnconditionalJmp => if InRanges(ranges, b.target) then None else Some((b.target, LineStop))
    case Call => if mode == IntoStep then Some((b.address, CallStop)) else None
    case IndirectCall => if mode == IntoStep then Some((b.address, CallStop)) else None
    case IndirectJump => Some((b.address, IndirectJumpStop))
    case Return => Some((b.address, ReturnStop))
  }

  /** Control walks off the end of a range here. */
  ghost predicate IsExit(ranges: seq<LineRange>, branches: seq<BranchSite>, a: nat) {
    WalksOff(branches, a) && exists i :: 0 <= i < |ranges| && ranges[i].end == a
  }

  /** A stop is wanted at the end of a range that control walks off, or by a branch of the line. */
  ghost predicate Wanted(ranges: seq<LineRange>, branches: seq<BranchSite>, mode: StepMode, a: nat, kind: StopKind) {
    || (kind == LineStop && IsExit(ranges, branches, a))
    || (exists k :: 0 <= k < |branches| && WantedBy(ranges, mode, branches[k], a, kind))
  }

  ghost predicate WantedBy(ranges: seq<LineRange>, mode: StepMode, b: BranchSite, a: nat, kind: StopKind) {
    InRanges(ranges, b.address) && BranchStop(ranges, mode, b) == Some((a, kind))
  }

  lemma PlantedGrows(stops: seq<Stop>, stops': seq<Stop>, a: nat)
    requires stops <= stops' && Planted(stops, a)
    ensures Planted(stops', a)
  {
    var i :| 0 <= i < |stops| && stops[i].original == a;
    assert stops'[i] == stops[i];
  }

  /** Stops for some of what is wanted: each is wanted, and its true address is where the instruction really is. */
  ghost predicate Plan(stubs: Staged, ranges: seq<LineRange>, branches: seq<BranchSite>, mode: StepMode, stops: seq<Stop>) {
    && Distinct(stops)
    && (forall i :: 0 <= i < |stops| ==> Wanted(ranges, branches, mode, stops[i].original, stops[i].kind))
    && (forall i :: 0 <= i < |stops| ==> stops[i].trueAddress == TrueOf(stubs, stops[i].original))
  }

  /** Planting one more wanted stop keeps the ones there are. */
  method Plant(stubs: Instrumenter, ranges: seq<LineRange>, branches: seq<BranchSite>, mode: StepMode, stops: seq<Stop>, a: nat, kind: StopKind)
    returns (stops': seq<Stop>)
    requires Plan(stubs.Value(), ranges, branches, mode, stops) && Wanted(ranges, branches, mode, a, kind)
    ensures Plan(stubs.Value(), ranges, branches, mode, stops') && Planted(stops', a)
    ensures forall x :: Planted(stops, x) ==> Planted(stops', x)
  {
    hide Wanted;
    stops' := AddBreakpoint(stubs, stops, a, kind);
    assert !Planted(stops, a) ==> stops'[|stops|].original == a;
    forall x | Planted(stops, x) ensures Planted(stops', x) {
      PlantedGrows(stops, stops', x);
    }
  }

  /** The stops at the ends of the ranges. */
  method FallthroughExits(stubs: Instrumenter, ranges: seq<LineRange>, branches: seq<BranchSite>, mode: StepMode) returns (stops: seq<Stop>)
    ensures Plan(stubs.Value(), ranges, branches, mode, stops)
    ensures forall a :: IsExit(ranges, branches, a) ==> Planted(stops, a)
  {
    hide Planted, Plan, WalksOff;
    stops := [];
    assert Plan(stubs.Value(), ranges, branches, mode, stops) by { EmptyPlan(stubs.Value(), ranges, branches, mode); }
    for n := 0 to |ranges|
      invariant Plan(stubs.Value(), ranges, branches, mode, stops)
      invariant forall j :: 0 <= j < n && WalksOff(branches, ranges[j].end) ==> Planted(stops, ranges[j].end)
    {
      var falls := FallsOff(branches, ranges[n].end);
      if falls {
        stops := Plant(stubs, ranges, branches, mode, stops, ranges[n].end, LineStop);
      }
    }
  }

  lemma EmptyPlan(stubs: Staged, ranges: seq<LineRange>, branches: seq<BranchSite>, mode: StepMode)
    ensures Plan(stubs, ranges, branches, mode, [])
  {
  }

  /** The stops asked for by the branches of the line, after the ones there are. */
  method BranchExits(stubs: Instrumenter, ranges: seq<LineRange>, branches: seq<BranchSite>, mode: StepMode, exits: seq<Stop>) returns (stops: seq<Stop>)
    requires Plan(stubs.Value(), ranges, branches, mode, exits)
    ensures Plan(stubs.Value(), ranges, branches, mode, stops)
    ensures forall x :: Planted(exits, x) ==> Planted(stops, x)
    ensures forall k, a, kind :: 0 <= k < |branches| && WantedBy(ranges, mode, branches[k], a, kind) ==> Planted(stops, a)
  {
    hide Planted, Plan, IsExit;
    stops := exits;
    for n := 0 to |branches|
      invariant Plan(stubs.Value(), ranges, branches, mode, stops)
      invariant forall x :: Planted(exits, x) ==> Planted(stops, x)
      invariant forall k, a, kind :: 0 <= k < n && WantedBy(ranges, mode, branches[k], a, kind) ==> Planted(stops, a)
    {
      var b := branches[n];
      var inside := AddressInLineRanges(ranges, b.address);
      if inside {
        match b.kind {
          case Conditional =>
            var loops := AddressInLineRanges(ranges, b.target);
            if !loops {
              stops := PlantFor(stubs, ranges, branches, mode, stops, n, b.target, LineStop);
            }
          case UnconditionalJmp =>
            var loops := AddressInLineRanges(ranges, b.target);
            if !loops {
              stops := PlantFor(stubs, ranges, branches, mode, stops, n, b.target, LineStop);
            }
          case Call =>
            if mode == IntoStep {
              stops := PlantFor(stubs, ranges, branches, mode, stops, n, b.address, CallStop);
            }
          case IndirectCall =>
            if mode == IntoStep {
              stops := PlantFor(stubs, ranges, branches, mode, stops, n, b.address, CallStop);
            }
          case IndirectJump =>
            stops := PlantFor(stubs, ranges, branches, mode, stops, n, b.address, IndirectJumpStop);
          case Return =>
            stops := PlantFor(stubs, ranges, branches, mode, stops, n, b.address, ReturnStop);
        }
      }
    }
  }

  method PlantFor(stubs: Instrumenter, ranges: seq<LineRange>, branches: seq<BranchSite>, mode: StepMode, stops: seq<Stop>,
                  n: nat, a: nat, kind: StopKind)
    returns (stops': seq<Stop>)
    requires Plan(stubs.Value(), ranges, branches, mode, stops) && n < |branches| && WantedBy(ranges, mode, branches[n], a, kind)
    ensures Plan(stubs.Value(), ranges, branches, mode, stops') && Planted(stops', a)
    ensures forall x :: Planted(stops, x) ==> Planted(stops', x)
  {
    hide Planted, Plan, IsExit;
    stops' := Plant(stubs, ranges, branches, mode, stops, a, kind);
  }

  /** The stops for a step from a true address, given the ranges of its line; none without a line or a known function. */
  method BreakpointsForStep(stubs: Instrumenter, analysis: P.PredecessorAnalysis, t: nat, ranges: seq<LineRange>, mode: StepMode)
    returns (stops: seq<Stop>)
    ensures var fn := P.Containing(analysis.functions, OriginalOf(stubs.Value(), t));
      if ranges == [] || fn.None? then stops == []
      else
        && Plan(stubs.Value(), ranges, fn.value.branches, mode, stops) && Complete(ranges, fn.value.branches, mode, stops)
        && (Merged(ranges) && OneEach(fn.value.branches) ==> StopsAreRight(ranges, fn.value.branches, mode, stops))
  {
    var a := stubs.OriginalAddress(t);
    if ranges == [] {
      return [];
    }
    var fn := analysis.FunctionContaining(a);
    if fn.None? {
      return [];
    }
    hide Planted, Plan, IsExit, WantedBy, Merged, OneEach, StopsAreRight, BranchStop;
    stops := FallthroughExits(stubs, ranges, fn.value.branches, mode);
    stops := BranchExits(stubs, ranges, fn.value.branches, mode, stops);
    if Merged(ranges) && OneEach(fn.value.branches) {
      PlanIsRight(stubs.Value(), ranges, fn.value.branches, mode, stops);
    }
  }

  /** Every address where a stop is wanted has one. */
  ghost predicate Complete(ranges: seq<LineRange>, branches: seq<BranchSite>, mode: StepMode, stops: seq<Stop>) {
    forall a, kind :: Wanted(ranges, branches, mode, a, kind) ==> Planted(stops, a)
  }

  // ---- the stops, kind by kind -----------------------------------------------------------------------------------------------------

  /** No two branches start or end at one address. */
  ghost predicate OneEach(branches: seq<BranchSite>) {
    forall i, j :: 0 <= i < j < |branches| ==> branches[i].address != branches[j].address && branches[i].next != branches[j].next
  }

  /** Nothing that cannot continue ends there. */
  ghost predicate CanWalkTo(branches: seq<BranchSite>, a: nat) {
    forall i :: 0 <= i < |branches| && branches[i].next == a ==>
      branches[i].kind == Conditional || branches[i].kind == Call || branches[i].kind == IndirectCall
  }

  /** What a branch of the line gets: a stop at each call when stepping into, at each indirect jump and return, and where a jump leaves. */
  ghost predicate BranchIsStopped(ranges: seq<LineRange>, mode: StepMode, stops: seq<Stop>, b: BranchSite) {
    && (b.kind == Call || b.kind == IndirectCall ==> mode == IntoStep ==> PlantedAs(stops, b.address, CallStop))
    && (b.kind == IndirectJump ==> PlantedAs(stops, b.address, IndirectJumpStop))
    && (b.kind == Return ==> PlantedAs(stops, b.address, ReturnStop))
    && (b.kind == Conditional || b.kind == UnconditionalJmp ==> InRanges(ranges, b.target) || PlantedAs(stops, b.target, LineStop))
  }

  /** Why a stop is there: call stops only when stepping into, line stops where a jump leaves or a range is walked off. */
  ghost predicate StopHasReason(ranges: seq<LineRange>, branches: seq<BranchSite>, mode: StepMode, stop: Stop) {
    match stop.kind
    case CallStop =>
      mode == IntoStep && exists i :: 0 <= i < |branches| && InRanges(ranges, branches[i].address) && branches[i].address == stop.original
                                      && (branches[i].kind == Call || branches[i].kind == IndirectCall)
    case IndirectJumpStop =>
      exists i :: 0 <= i < |branches| && InRanges(ranges, branches[i].address) && branches[i].address == stop.original && branches[i].kind == IndirectJump
    case ReturnStop =>
      exists i :: 0 <= i < |branches| && InRanges(ranges, branches[i].address) && branches[i].address == stop.original && branches[i].kind == Return
    case LineStop =>
      || (exists i :: 0 <= i < |ranges| && ranges[i].end == stop.original && CanWalkTo(branches, stop.original))
      || (!InRanges(ranges, stop.original) &&
          exists i :: 0 <= i < |branches| && InRanges(ranges, branches[i].address) && branches[i].target == stop.original
                      && (branches[i].kind == Conditional || branches[i].kind == UnconditionalJmp))
  }

  ghost predicate StopsAreRight(ranges: seq<LineRange>, branches: seq<BranchSite>, mode: StepMode, stops: seq<Stop>) {
    && (forall i :: 0 <= i < |branches| && InRanges(ranges, branches[i].address) ==> BranchIsStopped(ranges, mode, stops, branches[i]))
    && (forall i :: 0 <= i < |ranges| && CanWalkTo(branches, ranges[i].end) ==> PlantedAs(stops, ranges[i].end, LineStop))
    && (forall i :: 0 <= i < |stops| ==> StopHasReason(ranges, branches, mode, stops[i]))
    && (mode == LineStep ==> forall i :: 0 <= i < |stops| ==> stops[i].kind != CallStop)
  }

  lemma WalksIfCan(branches: seq<BranchSite>, a: nat)
    requires OneEach(branches)
    ensures WalksOff(branches, a) <==> CanWalkTo(branches, a)
  {
    EndingIn(branches, a);
    var e := EndingAt(branches, a);
    if e.Some? {
      var k :| 0 <= k < |branches| && branches[k] == e.value;
      forall i | 0 <= i < |branches| && branches[i].next == a ensures branches[i] == e.value {
      }
    }
  }

  lemma OneKindEach(ranges: seq<LineRange>, branches: seq<BranchSite>, mode: StepMode, a: nat, k1: StopKind, k2: StopKind)
    requires Merged(ranges) && OneEach(branches) && Wanted(ranges, branches, mode, a, k1) && Wanted(ranges, branches, mode, a, k2)
    ensures k1 == k2
  {
    hide Wanted, Merged, InRanges;
    if k1 == LineStop || k2 == LineStop {
      WantedOutside(ranges, branches, mode, a);
    }
    if k1 != LineStop {
      var m := WantedInside(ranges, branches, mode, a, k1);
      if k2 != LineStop {
        var n := WantedInside(ranges, branches, mode, a, k2);
      }
    } else if k2 != LineStop {
      var n := WantedInside(ranges, branches, mode, a, k2);
    }
  }

  lemma WantedIsPlanted(stubs: Staged, ranges: seq<LineRange>, branches: seq<BranchSite>, mode: StepMode, stops: seq<Stop>, a: nat, kind: StopKind)
    requires Merged(ranges) && OneEach(branches) && Plan(stubs, ranges, branches, mode, stops) && Complete(ranges, branches, mode, stops)
    requires Wanted(ranges, branches, mode, a, kind)
    ensures PlantedAs(stops, a, kind)
  {
    hide Wanted, Merged, Distinct, OneEach;
    var i :| 0 <= i < |stops| && stops[i].original == a;
    OneKindEach(ranges, branches, mode, a, kind, stops[i].kind);
  }

  lemma WantedHasReason(ranges: seq<LineRange>, branches: seq<BranchSite>, mode: StepMode, stop: Stop)
    requires Merged(ranges) && OneEach(branches) && Wanted(ranges, branches, mode, stop.original, stop.kind)
    ensures StopHasReason(ranges, branches, mode, stop)
  {
    hide InRanges, Merged, OneEach, WalksOff, CanWalkTo;
    WalksIfCan(branches, stop.original);
    if k :| 0 <= k < |branches| && WantedBy(ranges, mode, branches[k], stop.original, stop.kind) {
      var b := branches[k];
      assert InRanges(ranges, b.address) && BranchStop(ranges, mode, b) == Some((stop.original, stop.kind));
    }
  }

  /** Everything planted and wanted, kind by kind. */
  lemma PlanIsRight(stubs: Staged, ranges: seq<LineRange>, branches: seq<BranchSite>, mode: StepMode, stops: seq<Stop>)
    requires Merged(ranges) && OneEach(branches) && Plan(stubs, ranges, branches, mode, stops) && Complete(ranges, branches, mode, stops)
    ensures StopsAreRight(ranges, branches, mode, stops)
  {
    hide InRanges, Merged, OneEach, WalksOff, CanWalkTo, Plan, Complete, PlantedAs, StopHasReason, Wanted;
    forall i | 0 <= i < |branches| && InRanges(ranges, branches[i].address) ensures BranchIsStopped(ranges, mode, stops, branches[i]) {
      var b := branches[i];
      var w := BranchStop(ranges, mode, b);
      if w.Some? {
        AskedIsWanted(ranges, branches, mode, i, w.value.0, w.value.1);
        WantedIsPlanted(stubs, ranges, branches, mode, stops, w.value.0, w.value.1);
      }
    }
    forall i | 0 <= i < |ranges| && CanWalkTo(branches, ranges[i].end) ensures PlantedAs(stops, ranges[i].end, LineStop) {
      WalksIfCan(branches, ranges[i].end);
      ExitIsWanted(ranges, branches, mode, i);
      WantedIsPlanted(stubs, ranges, branches, mode, stops, ranges[i].end, LineStop);
    }
    forall i | 0 <= i < |stops| ensures StopHasReason(ranges, branches, mode, stops[i]) {
      PlannedIsWanted(stubs, ranges, branches, mode, stops, i);
      WantedHasReason(ranges, branches, mode, stops[i]);
    }
    forall i | 0 <= i < |stops| && mode == LineStep ensures stops[i].kind != CallStop {
      assert StopHasReason(ranges, branches, mode, stops[i]);
      NoCallStop(ranges, branches, stops[i]);
    }
  }

  lemma AskedIsWanted(ranges: seq<LineRange>, branches: seq<BranchSite>, mode: StepMode, i: nat, a: nat, kind: StopKind)
    requires i < |branches| && InRanges(ranges, branches[i].address) && BranchStop(ranges, mode, branches[i]) == Some((a, kind))
    ensures Wanted(ranges, branches, mode, a, kind)
  {
    assert WantedBy(ranges, mode, branches[i], a, kind);
  }

  lemma ExitIsWanted(ranges: seq<LineRange>, branches: seq<BranchSite>, mode: StepMode, i: nat)
    requires i < |ranges| && WalksOff(branches, ranges[i].end)
    ensures Wanted(ranges, branches, mode, ranges[i].end, LineStop)
  {
    hide WalksOff;
  }

  lemma PlannedIsWanted(stubs: Staged, ranges: seq<LineRange>, branches: seq<BranchSite>, mode: StepMode, stops: seq<Stop>, i: nat)
    requires Plan(stubs, ranges, branches, mode, stops) && i < |stops|
    ensures Wanted(ranges, branches, mode, stops[i].original, stops[i].kind)
  {
    hide Wanted;
  }

  lemma NoCallStop(ranges: seq<LineRange>, branches: seq<BranchSite>, stop: Stop)
    requires StopHasReason(ranges, branches, LineStep, stop)
    ensures stop.kind != CallStop
  {
  }

  /** The branches of a sweep are one each. */
  lemma {:induction false} SweptAreOneEach(isa: Isa, b: seq<Byte>, start: nat, off: nat)
    ensures OneEach(Branches(isa, b, start, off))
    ensures forall site :: site in Branches(isa, b, start, off) ==> start + off <= site.address < site.next
    ensures forall site :: site in Branches(isa, b, start, off) && At(isa, b, off).Some? ==>
      site.address == start + off || start + off + At(isa, b, off).value.length <= site.address
    ensures forall i, j :: 0 <= i < j < |Branches(isa, b, start, off)| ==> Branches(isa, b, start, off)[i].next <= Branches(isa, b, start, off)[j].address
    decreases |b| - off
  {
    var f := At(isa, b, off);
    if f.Some? {
      SweptAreOneEach(isa, b, start, off + f.value.length);
      var rest, all := Branches(isa, b, start, off + f.value.length), Branches(isa, b, start, off);
      forall i | 0 <= i < |rest| ensures rest[i] in rest {
      }
    }
  }

  // ---- what a plan is good for ---------------------------------------------------------------------------------------------------

  /** No line stop lies in the line: the step cannot end where it started. */
  lemma NoStopInside(stubs: Staged, ranges: seq<LineRange>, branches: seq<BranchSite>, mode: StepMode, stops: seq<Stop>)
    requires Merged(ranges) && Plan(stubs, ranges, branches, mode, stops)
    ensures forall i :: 0 <= i < |stops| ==> (stops[i].kind == LineStop <==> !InRanges(ranges, stops[i].original))
  {
    hide WalksOff;
    forall i | 0 <= i < |stops| ensures stops[i].kind == LineStop <==> !InRanges(ranges, stops[i].original) {
      assert Wanted(ranges, branches, mode, stops[i].original, stops[i].kind);
    }
  }

  lemma WantedInside(ranges: seq<LineRange>, branches: seq<BranchSite>, mode: StepMode, a: nat, kind: StopKind) returns (k: nat)
    requires Wanted(ranges, branches, mode, a, kind) && kind != LineStop
    ensures k < |branches| && branches[k].address == a && InRanges(ranges, a) && BranchStop(ranges, mode, branches[k]) == Some((a, kind))
  {
    hide IsExit;
    k :| 0 <= k < |branches| && WantedBy(ranges, mode, branches[k], a, kind);
  }

  lemma WantedOutside(ranges: seq<LineRange>, branches: seq<BranchSite>, mode: StepMode, a: nat)
    requires Merged(ranges) && Wanted(ranges, branches, mode, a, LineStop)
    ensures !InRanges(ranges, a)
  {
    hide WalksOff;
  }

  /** Two stops are never wanted at one address, so no stop is planted with another's kind. */
  lemma KindsStand(stubs: Staged, isa: Isa, body: seq<Byte>, start: nat, ranges: seq<LineRange>, mode: StepMode, stops: seq<Stop>, a: nat, kind: StopKind)
    requires Merged(ranges)
    requires var branches := Branches(isa, body, start, 0);
      Plan(stubs, ranges, branches, mode, stops) && Complete(ranges, branches, mode, stops) && Wanted(ranges, branches, mode, a, kind)
    ensures PlantedAs(stops, a, kind)
  {
    hide Wanted, Merged, Branches, Plan, Complete;
    SweptAreOneEach(isa, body, start, 0);
    WantedIsPlanted(stubs, ranges, Branches(isa, body, start, 0), mode, stops, a, kind);
  }

  /** A thread of the stepped frame goes from one instruction of the function to the next; calls come back to their next address. */
  ghost predicate Moves(isa: Isa, body: seq<Byte>, start: nat, a: nat, c: nat) {
    && a >= start && Reaches(isa, body, 0, a - start)
    && var f := At(isa, body, a - start);
    && f.Some?
    && match SiteAt(f.value, start, a)
       case None => c == a + f.value.length
       case Some(site) =>
         match site.kind
         case Conditional => c == site.next || c == site.target
         case UnconditionalJmp => c == site.target
         case Call => c == site.next
         case IndirectCall => c == site.next
         case IndirectJump => true
         case Return => true
  }

  /** An instruction that starts in a range ends in it. */
  ghost predicate EndsIn(isa: Isa, body: seq<Byte>, start: nat, r: LineRange, a: nat) {
    r.start <= a < r.end && a >= start && Reaches(isa, body, 0, a - start) && At(isa, body, a - start).Some? ==>
      a + At(isa, body, a - start).value.length <= r.end
  }

  /** The ranges hold whole instructions. */
  ghost predicate Whole(isa: Isa, body: seq<Byte>, start: nat, ranges: seq<LineRange>) {
    forall i, a: nat :: 0 <= i < |ranges| ==> EndsIn(isa, body, start, ranges[i], a)
  }

  /** Every branch that is reached is found by the sweep. */
  lemma {:induction false} ReachedIsFound(isa: Isa, b: seq<Byte>, start: nat, off: nat, x: nat)
    requires Reaches(isa, b, off, x) && At(isa, b, x).Some? && SiteAt(At(isa, b, x).value, start, start + x).Some?
    ensures SiteAt(At(isa, b, x).value, start, start + x).value in Branches(isa, b, start, off)
    decreases |b| - off
  {
    if off != x {
      ReachedIsFound(isa, b, start, off + At(isa, b, off).value.length, x);
    }
  }

  lemma EndsBefore(isa: Isa, b: seq<Byte>, x: nat, y: nat)
    requires Reaches(isa, b, 0, x) && Reaches(isa, b, 0, y) && At(isa, b, x).Some? && x < y
    ensures x + At(isa, b, x).value.length <= y
  {
    ReachesOn(isa, b, 0, x, y);
    ReachesForward(isa, b, x + At(isa, b, x).value.length, y);
  }

  /** One instruction only ends at an address. */
  lemma SameEnd(isa: Isa, b: seq<Byte>, x: nat, y: nat)
    requires Reaches(isa, b, 0, x) && Reaches(isa, b, 0, y) && At(isa, b, x).Some? && At(isa, b, y).Some?
    requires x + At(isa, b, x).value.length == y + At(isa, b, y).value.length
    ensures x == y
  {
    if x < y {
      EndsBefore(isa, b, x, y);
    } else if y < x {
      EndsBefore(isa, b, y, x);
    }
  }

  lemma {:induction false} EndingIn(branches: seq<BranchSite>, a: nat)
    ensures var e := EndingAt(branches, a); e.Some? ==> e.value in branches && e.value.next == a
    ensures var e := EndingAt(branches, a); e.None? ==> forall b :: b in branches ==> b.next != a
  {
    if branches != [] && branches[0].next != a {
      EndingIn(branches[1..], a);
    }
  }

  /** The branch found to end at an address is that of the instruction that ends there. */
  lemma EndingAtIs(isa: Isa, body: seq<Byte>, start: nat, a: nat)
    requires a >= start && Reaches(isa, body, 0, a - start) && At(isa, body, a - start).Some?
    ensures var f := At(isa, body, a - start).value; EndingAt(Branches(isa, body, start, 0), a + f.length) == SiteAt(f, start, a)
  {
    var f, branches := At(isa, body, a - start).value, Branches(isa, body, start, 0);
    EndingIn(branches, a + f.length);
    var e := EndingAt(branches, a + f.length);
    hide Branches, EndingAt, Reaches, Classify;
    if e.Some? {
      BranchIsReached(isa, body, start, 0, e.value);
      hide SiteAt;
      SameEnd(isa, body, a - start, e.value.address - start);
    } else if SiteAt(f, start, a).Some? {
      ReachedIsFound(isa, body, start, 0, a - start);
    }
  }

  /** Control walks off an address exactly when the instruction that ends there can continue. */
  lemma WalksOffIs(isa: Isa, body: seq<Byte>, start: nat, a: nat)
    requires a >= start && Reaches(isa, body, 0, a - start) && At(isa, body, a - start).Some?
    ensures var f := At(isa, body, a - start).value; var site := SiteAt(f, start, a);
      WalksOff(Branches(isa, body, start, 0), a + f.length) <==> site.None? || !NeverFallsThrough(site.value.kind)
  {
    EndingAtIs(isa, body, start, a);
    hide Branches, EndingAt, Reaches, SiteAt, At;
  }

  /** A step out of the line is to a wanted line stop, or from a wanted stop on an indirect jump or a return. */
  lemma LeavingIsWanted(isa: Isa, body: seq<Byte>, start: nat, ranges: seq<LineRange>, mode: StepMode, a: nat, c: nat)
    requires Whole(isa, body, start, ranges) && Moves(isa, body, start, a, c) && InRanges(ranges, a) && !InRanges(ranges, c)
    ensures var branches := Branches(isa, body, start, 0);
      || Wanted(ranges, branches, mode, c, LineStop)
      || Wanted(ranges, branches, mode, a, IndirectJumpStop)
      || Wanted(ranges, branches, mode, a, ReturnStop)
  {
    var f, branches := At(isa, body, a - start).value, Branches(isa, body, start, 0);
    var site := SiteAt(f, start, a);
    var i :| 0 <= i < |ranges| && ranges[i].start <= a < ranges[i].end;
    WalksOffIs(isa, body, start, a);
    if site.Some? {
      ReachedIsFound(isa, body, start, 0, a - start);
      var k :| 0 <= k < |branches| && branches[k] == site.value;
      assert BranchStop(ranges, mode, site.value).Some? ==>
        WantedBy(ranges, mode, branches[k], BranchStop(ranges, mode, site.value).value.0, BranchStop(ranges, mode, site.value).value.1);
    }
    if c == a + f.length && (site.None? || !NeverFallsThrough(site.value.kind)) {
      assert EndsIn(isa, body, start, ranges[i], a);
      assert f.length >= 1 && ranges[i].end == c;
      assert IsExit(ranges, branches, c);
    }
  }

  /**
   From an address of the line every trace of the frame that leaves the line has come to a planted stop by then: where it
   leaves, or at a stop on the way, all before which is inside the line.
   */
  lemma StepIsCaught(stubs: Staged, isa: Isa, body: seq<Byte>, start: nat, ranges: seq<LineRange>, mode: StepMode, stops: seq<Stop>,
                     trace: seq<nat>, k: nat)
    requires Whole(isa, body, start, ranges) && Complete(ranges, Branches(isa, body, start, 0), mode, stops)
    requires k < |trace| && InRanges(ranges, trace[0]) && !InRanges(ranges, trace[k])
    requires forall i :: 0 <= i < k ==> Moves(isa, body, start, trace[i], trace[i + 1])
    ensures exists j :: 0 <= j <= k && Planted(stops, trace[j]) && forall i :: 0 <= i < j ==> InRanges(ranges, trace[i])
  {
    hide Wanted, Moves, Whole, Planted, InRanges;
    var n := FirstOutside(ranges, trace, k);
    LeavingIsWanted(isa, body, start, ranges, mode, trace[n - 1], trace[n]);
    assert Planted(stops, trace[n]) || Planted(stops, trace[n - 1]);
  }

  lemma {:induction false} FirstOutside(ranges: seq<LineRange>, trace: seq<nat>, k: nat) returns (n: nat)
    requires k < |trace| && InRanges(ranges, trace[0]) && !InRanges(ranges, trace[k])
    ensures 0 < n <= k && !InRanges(ranges, trace[n]) && forall i :: 0 <= i < n ==> InRanges(ranges, trace[i])
  {
    if i :| 0 <= i < k && !InRanges(ranges, trace[i]) {
      n := FirstOutside(ranges, trace, i);
    } else {
      n := k;
    }
  }
}
