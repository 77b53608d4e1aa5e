/** The optional value used throughout the project. */
module Options {
  datatype Option<+T> = None | Some(value: T)
}

/**
 The lineage log: the one abstract history that every versioned structure of the debugger implements.

 A run is identified by a number. Recording appends to the active run; restoring an earlier point starts a
 fresh run whose origin is that point. A read at (run, seq) sees the last entry of the run at or before seq,
 or else whatever was visible at the run's origin.
 */
module Lineage {
  import opened Options

  datatype Point = Point(run: nat, runSeq: nat)

  datatype Entry<+T> = Entry(runSeq: nat, data: T)

  /** Where an entry sits: the idx-th entry of a run. */
  datatype Place = Place(run: nat, idx: nat)

  datatype Log<T> = Log(entries: map<nat, seq<Entry<T>>>, origins: map<nat, Point>)

  function At<T>(l: Log<T>, r: nat): seq<Entry<T>> {
    if r in l.entries then l.entries[r] else []
  }

  /** The index of the first entry after s, counted from the end as the list is sorted (std::upper_bound). */
  function UpperBound<T>(es: seq<Entry<T>>, s: nat): (n: nat)
    ensures n <= |es|
  {
    if es == [] then 0
    else if es[|es| - 1].runSeq <= s then |es|
    else UpperBound(es[..|es| - 1], s)
  }

  ghost predicate Sorted<T>(es: seq<Entry<T>>) {
    forall i, j :: 0 <= i < j < |es| ==> es[i].runSeq < es[j].runSeq
  }

  lemma {:induction false} UpperBoundSplits<T>(es: seq<Entry<T>>, s: nat)
    requires Sorted(es)
    ensures forall i :: 0 <= i < UpperBound(es, s) ==> es[i].runSeq <= s
    ensures forall i :: UpperBound(es, s) <= i < |es| ==> s < es[i].runSeq
  {
    if es == [] {
    } else if s < es[|es| - 1].runSeq {
      UpperBoundSplits(es[..|es| - 1], s);
    }
  }

  /** Appending an entry that lies after s does not move the bound; one at or before s takes it to the end. */
  lemma UpperBoundAppend<T>(es: seq<Entry<T>>, e: Entry<T>, s: nat)
    ensures UpperBound(es + [e], s) == if e.runSeq <= s then |es| + 1 else UpperBound(es, s)
  {
    assert (es + [e])[..|es|] == es;
  }

  predicate OriginsBelow(o: map<nat, Point>) {
    forall r :: r in o ==> o[r].run < r
  }

  /** The entry visible from (r, s). */
  function Locate<T>(l: Log<T>, r: nat, s: nat): (p: Option<Place>)
    requires OriginsBelow(l.origins)
    ensures p.Some? ==> p.value.run <= r && p.value.run in l.entries && p.value.idx < |l.entries[p.value.run]|
  {
    if UpperBound(At(l, r), s) > 0 then Some(Place(r, UpperBound(At(l, r), s) - 1))
    else if r in l.origins then Locate(l, l.origins[r].run, l.origins[r].runSeq)
    else None
  }

  function Found<T>(l: Log<T>, p: Option<Place>): Option<T>
    requires p.Some? ==> p.value.run in l.entries && p.value.idx < |l.entries[p.value.run]|
  {
    if p.Some? then Some(l.entries[p.value.run][p.value.idx].data) else None
  }

  function Read<T>(l: Log<T>, r: nat, s: nat): Option<T>
    requires OriginsBelow(l.origins)
  {
    Found(l, Locate(l, r, s))
  }

  function Append<T>(l: Log<T>, r: nat, s: nat, d: T): Log<T> {
    l.(entries := l.entries[r := At(l, r) + [Entry(s, d)]])
  }

  function Branch<T>(l: Log<T>, from: Point, to: nat): Log<T> {
    Log(l.entries[to := []], l.origins[to := from])
  }

  /** A log whose newest run is `active`, where the next entry of that run carries at least `next`. */
  ghost predicate Wf<T>(l: Log<T>, active: nat, next: nat) {
    && active in l.entries
    && OriginsBelow(l.origins)
    && (forall r :: r in l.entries ==> r <= active && Sorted(l.entries[r]))
    && (forall r :: r in l.origins ==> r <= active)
    && (forall e :: e in l.entries[active] ==> e.runSeq < next)
  }

  // ---- what one step does to every read -------------------------------------------------------------

  lemma AppendWf<T>(l: Log<T>, active: nat, next: nat, s: nat, d: T)
    requires Wf(l, active, next) && next <= s
    ensures Wf(Append(l, active, s, d), active, s + 1)
  {
    var es := l.entries[active];
    assert forall i :: 0 <= i < |es| ==> es[i] in es;
    assert Sorted(es + [Entry(s, d)]);
  }

  lemma {:induction false} AppendLocatesElsewhere<T>(l: Log<T>, active: nat, next: nat, s: nat, d: T, r: nat, q: nat)
    requires Wf(l, active, next) && next <= s
    requires r != active || q < s
    ensures Locate(Append(l, active, s, d), r, q) == Locate(l, r, q)
    decreases r
  {
    UpperBoundAppend(At(l, active), Entry(s, d), q);
    if UpperBound(At(l, r), q) == 0 && r in l.origins {
      AppendLocatesElsewhere(l, active, next, s, d, l.origins[r].run, l.origins[r].runSeq);
    }
  }

  /** An append answers every read at or after it in its own run, and changes no other read. */
  lemma AppendReads<T>(l: Log<T>, active: nat, next: nat, s: nat, d: T, r: nat, q: nat)
    requires Wf(l, active, next) && next <= s
    ensures Read(Append(l, active, s, d), r, q) == if r == active && s <= q then Some(d) else Read(l, r, q)
  {
    if r == active && s <= q {
      UpperBoundAppend(At(l, active), Entry(s, d), q);
    } else {
      AppendLocatesElsewhere(l, active, next, s, d, r, q);
    }
  }

  lemma BranchWf<T>(l: Log<T>, active: nat, next: nat, from: Point, to: nat)
    requires Wf(l, active, next) && from.run <= active < to
    ensures Wf(Branch(l, from, to), to, 0)
  {
  }

  lemma {:induction false} BranchLocatesElsewhere<T>(l: Log<T>, active: nat, next: nat, from: Point, to: nat, r: nat, q: nat)
    requires Wf(l, active, next) && from.run <= active < to && r != to
    ensures Locate(Branch(l, from, to), r, q) == Locate(l, r, q)
    decreases r
  {
    if UpperBound(At(l, r), q) == 0 && r in l.origins {
      BranchLocatesElsewhere(l, active, next, from, to, l.origins[r].run, l.origins[r].runSeq);
    }
  }

  /** A fresh run reads everywhere as its origin; no other read changes. */
  lemma BranchReads<T>(l: Log<T>, active: nat, next: nat, from: Point, to: nat, r: nat, q: nat)
    requires Wf(l, active, next) && from.run <= active < to
    ensures Read(Branch(l, from, to), r, q) == if r == to then Read(l, from.run, from.runSeq) else Read(l, r, q)
  {
    BranchLocatesElsewhere(l, active, next, from, to, if r == to then from.run else r, if r == to then from.runSeq else q);
  }

  // ---- reads that agree ----------------------------------------------------------------------------

  ghost predicate SameReads<T>(a: Log<T>, b: Log<T>)
    requires OriginsBelow(a.origins) && OriginsBelow(b.origins)
  {
    forall r, s :: Read(a, r, s) == Read(b, r, s)
  }

  lemma SameAfterAppend<T>(a: Log<T>, b: Log<T>, active: nat, next: nat, s: nat, d: T)
    requires Wf(a, active, next) && Wf(b, active, next) && next <= s && SameReads(a, b)
    ensures SameReads(Append(a, active, s, d), Append(b, active, s, d))
  {
    forall r, q ensures Read(Append(a, active, s, d), r, q) == Read(Append(b, active, s, d), r, q) {
      AppendReads(a, active, next, s, d, r, q);
      AppendReads(b, active, next, s, d, r, q);
    }
  }

  lemma SameAfterBranch<T>(a: Log<T>, b: Log<T>, active: nat, next: nat, from: Point, to: nat)
    requires Wf(a, active, next) && Wf(b, active, next) && from.run <= active < to && SameReads(a, b)
    ensures OriginsBelow(Branch(a, from, to).origins) && OriginsBelow(Branch(b, from, to).origins)
    ensures SameReads(Branch(a, from, to), Branch(b, from, to))
  {
    forall r, q ensures Read(Branch(a, from, to), r, q) == Read(Branch(b, from, to), r, q) {
      BranchReads(a, active, next, from, to, r, q);
      BranchReads(b, active, next, from, to, r, q);
    }
  }

  /** Skipping an append is invisible exactly when the value is already what the active run reads from there on. */
  lemma SameAfterSkip<T>(a: Log<T>, b: Log<T>, active: nat, next: nat, s: nat, d: T)
    requires Wf(a, active, next) && Wf(b, active, next) && next <= s && SameReads(a, b)
    ensures SameReads(a, Append(b, active, s, d)) <==> Read(a, active, s) == Some(d)
  {
    AppendReads(b, active, next, s, d, active, s);
    if Read(a, active, s) == Some(d) {
      forall r, q ensures Read(a, r, q) == Read(Append(b, active, s, d), r, q) {
        AppendReads(b, active, next, s, d, r, q);
        if r == active && s <= q {
          TipReads(a, active, next, q);
          TipReads(a, active, next, s);
        }
      }
    }
  }

  /** What the active run reads once all its entries are in the past. */
  function Tip<T>(l: Log<T>, active: nat): (p: Option<Place>)
    requires OriginsBelow(l.origins)
    ensures p.Some? ==> p.value.run <= active && p.value.run in l.entries && p.value.idx < |l.entries[p.value.run]|
  {
    if At(l, active) != [] then Some(Place(active, |At(l, active)| - 1))
    else if active in l.origins then Locate(l, l.origins[active].run, l.origins[active].runSeq)
    else None
  }

  lemma TipReads<T>(l: Log<T>, active: nat, next: nat, s: nat)
    requires Wf(l, active, next) && next <= s
    ensures Locate(l, active, s) == Tip(l, active)
  {
    var es := l.entries[active];
    if es != [] {
      assert es[|es| - 1] in es;
    }
  }

  lemma {:induction false} NothingBelow<T>(l: Log<T>, c: nat, r: nat, s: nat)
    requires OriginsBelow(l.origins) && r < c
    requires forall q: nat :: q < c ==> At(l, q) == []
    ensures Locate(l, r, s) == None
    decreases r
  {
    assert At(l, r) == [];
    if r in l.origins {
      NothingBelow(l, c, l.origins[r].run, l.origins[r].runSeq);
    }
  }

  // ---- whole runs ------------------------------------------------------------------------------------

  /** A log being recorded: the active run and the least sequence number its next record may carry. */
  datatype Timeline<T> = Timeline(log: Log<T>, active: nat, next: nat)

  datatype Step<T> = Record(runSeq: nat, data: T) | Restore(target: Point)

  ghost predicate ValidTimeline<T>(t: Timeline<T>) {
    Wf(t.log, t.active, t.next)
  }

  predicate Enabled<T>(t: Timeline<T>, step: Step<T>) {
    match step
    case Record(s, _) => t.next <= s
    case Restore(p) => p.run <= t.active
  }

  function Take<T>(t: Timeline<T>, step: Step<T>): Timeline<T> {
    match step
    case Record(s, d) => Timeline(Append(t.log, t.active, s, d), t.active, s + 1)
    case Restore(p) => Timeline(Branch(t.log, p, t.active + 1), t.active + 1, 0)
  }

  predicate Possible<T>(t: Timeline<T>, steps: seq<Step<T>>)
    decreases |steps|
  {
    steps == [] || (Enabled(t, steps[0]) && Possible(Take(t, steps[0]), steps[1..]))
  }

  function Run<T>(t: Timeline<T>, steps: seq<Step<T>>): Timeline<T>
    decreases |steps|
  {
    if steps == [] then t else Run(Take(t, steps[0]), steps[1..])
  }

  /** A point whose run is closed, or that lies before the next record of the active run. */
  predicate Settled<T>(t: Timeline<T>, p: Point) {
    p.run < t.active || (p.run == t.active && p.runSeq < t.next)
  }

  lemma StepKeeps<T>(t: Timeline<T>, step: Step<T>, p: Point)
    requires ValidTimeline(t) && Enabled(t, step) && Settled(t, p)
    ensures ValidTimeline(Take(t, step)) && Settled(Take(t, step), p)
    ensures Read(Take(t, step).log, p.run, p.runSeq) == Read(t.log, p.run, p.runSeq)
  {
    match step
    case Record(s, d) =>
      AppendWf(t.log, t.active, t.next, s, d);
      AppendReads(t.log, t.active, t.next, s, d, p.run, p.runSeq);
    case Restore(q) =>
      BranchWf(t.log, t.active, t.next, q, t.active + 1);
      BranchReads(t.log, t.active, t.next, q, t.active + 1, p.run, p.runSeq);
  }

  /** Full persistence: whatever is recorded or restored later, every settled point reads the same forever. */
  lemma {:induction false} Persistence<T>(t: Timeline<T>, steps: seq<Step<T>>, p: Point)
    requires ValidTimeline(t) && Possible(t, steps) && Settled(t, p)
    ensures ValidTimeline(Run(t, steps)) && Settled(Run(t, steps), p)
    ensures Read(Run(t, steps).log, p.run, p.runSeq) == Read(t.log, p.run, p.runSeq)
    decreases |steps|
  {
    if steps == [] {
    } else {
      StepKeeps(t, steps[0], p);
      Persistence(Take(t, steps[0]), steps[1..], p);
    }
  }

  // ---- a log seen through a function, from some point on ---------------------------------------------------

  function MapEntries<A, B>(es: seq<Entry<A>>, f: A -> B): (fs: seq<Entry<B>>)
    ensures |fs| == |es| && forall i :: 0 <= i < |es| ==> fs[i] == Entry(es[i].runSeq, f(es[i].data))
  {
    seq(|es|, i requires 0 <= i < |es| => Entry(es[i].runSeq, f(es[i].data)))
  }

  function MapLog<A, B>(l: Log<A>, f: A -> B): Log<B> {
    Log(map r | r in l.entries :: MapEntries(l.entries[r], f), l.origins)
  }

  lemma {:induction false} MapUpperBound<A, B>(es: seq<Entry<A>>, f: A -> B, s: nat)
    ensures UpperBound(MapEntries(es, f), s) == UpperBound(es, s)
  {
    if es != [] {
      var front := es[..|es| - 1];
      MapUpperBound(front, f, s);
      assert MapEntries(es, f)[..|es| - 1] == MapEntries(front, f);
    }
  }

  lemma {:induction false} MapLocates<A, B>(l: Log<A>, f: A -> B, r: nat, s: nat)
    requires OriginsBelow(l.origins)
    ensures Locate(MapLog(l, f), r, s) == Locate(l, r, s)
    decreases r
  {
    MapUpperBound(At(l, r), f, s);
    assert At(MapLog(l, f), r) == MapEntries(At(l, r), f);
    if UpperBound(At(l, r), s) == 0 && r in l.origins {
      MapLocates(l, f, l.origins[r].run, l.origins[r].runSeq);
    }
  }

  lemma MapReads<A, B>(l: Log<A>, f: A -> B, r: nat, s: nat)
    requires OriginsBelow(l.origins)
    ensures Read(MapLog(l, f), r, s) == match Read(l, r, s) case None => None case Some(d) => Some(f(d))
  {
    MapLocates(l, f, r, s);
  }

  lemma MapWf<A, B>(l: Log<A>, f: A -> B, active: nat, next: nat)
    requires Wf(l, active, next)
    ensures Wf(MapLog(l, f), active, next)
  {
    var es, fs := l.entries[active], MapEntries(l.entries[active], f);
    forall e | e in fs ensures e.runSeq < next {
      var i :| 0 <= i < |fs| && fs[i] == e;
      assert es[i] in es;
    }
  }

  lemma MapAppend<A, B>(l: Log<A>, f: A -> B, r: nat, s: nat, d: A)
    ensures MapLog(Append(l, r, s, d), f) == Append(MapLog(l, f), r, s, f(d))
  {
    assert MapEntries(At(l, r) + [Entry(s, d)], f) == MapEntries(At(l, r), f) + [Entry(s, f(d))];
    assert MapLog(Append(l, r, s, d), f).entries == Append(MapLog(l, f), r, s, f(d)).entries;
  }

  lemma MapBranch<A, B>(l: Log<A>, f: A -> B, from: Point, to: nat)
    ensures MapLog(Branch(l, from, to), f) == Branch(MapLog(l, f), from, to)
  {
    assert MapLog(Branch(l, from, to), f).entries == Branch(MapLog(l, f), from, to).entries;
  }

  function DropBefore<T>(es: seq<Entry<T>>, s: nat): seq<Entry<T>> {
    if es == [] then [] else if es[0].runSeq < s then DropBefore(es[1..], s) else es
  }

  predicate NotBefore(p: Point, c: Point) {
    c.run < p.run || (c.run == p.run && c.runSeq <= p.runSeq)
  }

  /** The log without what was recorded before c. */
  function From<T>(l: Log<T>, c: Point): Log<T> {
    Log(map r | r in l.entries ::
          if r < c.run then [] else if r == c.run then DropBefore(l.entries[r], c.runSeq) else l.entries[r],
        l.origins)
  }

  lemma {:induction false} DropFacts<T>(es: seq<Entry<T>>, s: nat)
    requires Sorted(es)
    ensures var d := DropBefore(es, s);
      && Sorted(d) && |d| <= |es| && d == es[|es| - |d|..]
      && (forall i :: 0 <= i < |es| - |d| ==> es[i].runSeq < s)
      && (forall i :: 0 <= i < |d| ==> s <= d[i].runSeq)
  {
    if es != [] && es[0].runSeq < s {
      DropFacts(es[1..], s);
    }
  }

  lemma {:induction false} DropAppend<T>(es: seq<Entry<T>>, s: nat, e: Entry<T>)
    requires s <= e.runSeq
    ensures DropBefore(es + [e], s) == DropBefore(es, s) + [e]
  {
    if es != [] && es[0].runSeq < s {
      DropAppend(es[1..], s, e);
      assert (es + [e])[1..] == es[1..] + [e];
    }
  }

  lemma {:induction false} DropUpperBound<T>(es: seq<Entry<T>>, s: nat, q: nat)
    requires Sorted(es)
    ensures var d, n := DropBefore(es, s), UpperBound(es, q);
      UpperBound(d, q) == if n > 0 && es[n - 1].runSeq >= s then n - (|es| - |d|) else 0
  {
    var d := DropBefore(es, s);
    DropFacts(es, s);
    UpperBoundSplits(es, q);
    UpperBoundSplits(d, q);
    var n, m := UpperBound(es, q), UpperBound(d, q);
    assert m > 0 ==> d[m - 1] == es[|es| - |d| + m - 1];
    assert m < |d| ==> d[m] == es[|es| - |d| + m];
  }

  /** Where the entry visible from (r, s) was recorded. */
  function RecordedAt<T>(l: Log<T>, r: nat, s: nat): Option<Point>
    requires OriginsBelow(l.origins)
  {
    var p := Locate(l, r, s);
    if p.Some? then Some(Point(p.value.run, l.entries[p.value.run][p.value.idx].runSeq)) else None
  }

  lemma {:induction false} FromReads<T>(l: Log<T>, c: Point, active: nat, next: nat, r: nat, s: nat)
    requires Wf(l, active, next)
    ensures Read(From(l, c), r, s)
         == if RecordedAt(l, r, s).Some? && NotBefore(RecordedAt(l, r, s).value, c) then Read(l, r, s) else None
    decreases r
  {
    if c.run < r {
      if UpperBound(At(l, r), s) == 0 && r in l.origins {
        FromReads(l, c, active, next, l.origins[r].run, l.origins[r].runSeq);
      }
    } else {
      FromIsEmptyBefore(l, c);
      if r < c.run {
        NothingBelow(From(l, c), c.run, r, s);
      } else {
        FromReadsAt(l, c, active, next, s);
      }
    }
  }

  lemma FromIsEmptyBefore<T>(l: Log<T>, c: Point)
    ensures forall q: nat :: q < c.run ==> At(From(l, c), q) == []
  {
  }

  lemma FromReadsAt<T>(l: Log<T>, c: Point, active: nat, next: nat, s: nat)
    requires Wf(l, active, next)
    ensures Read(From(l, c), c.run, s)
         == if RecordedAt(l, c.run, s).Some? && NotBefore(RecordedAt(l, c.run, s).value, c) then Read(l, c.run, s) else None
  {
    hide UpperBound;
    var f, es := From(l, c), At(l, c.run);
    var d, n := DropBefore(es, c.runSeq), UpperBound(es, s);
    assert At(f, c.run) == d;
    DropUpperBound(es, c.runSeq, s);
    DropFacts(es, c.runSeq);
    if n > 0 && c.runSeq <= es[n - 1].runSeq {
      assert d[n - (|es| - |d|) - 1] == es[n - 1];
    } else if c.run in l.origins {
      FromIsEmptyBefore(l, c);
      NothingBelow(f, c.run, l.origins[c.run].run, l.origins[c.run].runSeq);
    }
  }

  lemma FromWf<T>(l: Log<T>, c: Point, active: nat, next: nat)
    requires Wf(l, active, next)
    ensures Wf(From(l, c), active, next)
  {
    forall r | r in l.entries ensures Sorted(DropBefore(l.entries[r], c.runSeq)) {
      DropFacts(l.entries[r], c.runSeq);
    }
    DropFacts(l.entries[active], c.runSeq);
  }

  lemma FromAppend<T>(l: Log<T>, c: Point, r: nat, s: nat, d: T)
    requires r in l.entries && NotBefore(Point(r, s), c)
    ensures From(Append(l, r, s, d), c) == Append(From(l, c), r, s, d)
  {
    if r == c.run {
      DropAppend(l.entries[r], c.runSeq, Entry(s, d));
    }
    assert From(Append(l, r, s, d), c).entries == Append(From(l, c), r, s, d).entries;
  }

  lemma FromBranch<T>(l: Log<T>, c: Point, from: Point, to: nat)
    ensures From(Branch(l, from, to), c) == Branch(From(l, c), from, to)
  {
    assert From(Branch(l, from, to), c).entries == Branch(From(l, c), from, to).entries;
  }

  /** Cut at the entry appended last, the log has that entry alone. */
  lemma FromLast<T>(l: Log<T>, active: nat, next: nat, s: nat, d: T)
    requires Wf(l, active, next) && next <= s
    ensures var f := From(Append(l, active, s, d), Point(active, s));
      At(f, active) == [Entry(s, d)] && forall r: nat :: r != active ==> At(f, r) == []
  {
    var es := l.entries[active];
    assert forall i :: 0 <= i < |es| ==> es[i] in es;
    DropAll(es, s);
    DropAppend(es, s, Entry(s, d));
  }

  lemma {:induction false} DropAll<T>(es: seq<Entry<T>>, s: nat)
    requires forall i :: 0 <= i < |es| ==> es[i].runSeq < s
    ensures DropBefore(es, s) == []
  {
    if es != [] {
      DropAll(es[1..], s);
    }
  }
}
