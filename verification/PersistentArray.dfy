/** The array-based histories: a lineage walk over per-run lists, with one value or with a page of cache lines. */
module PersistentArrays {
  import opened Options
  import opened Lineage
  import opened TreeHistory
  import opened TreeTimelines

  /** Logs that differ only in runs listed with no entries. */
  ghost predicate SameLists<T>(a: Log<T>, b: Log<T>) {
    a.origins == b.origins && forall r: nat :: At(a, r) == At(b, r)
  }

  lemma SameListsSelf<T>(a: Log<T>)
    ensures SameLists(a, a)
  {
  }

  lemma SameListsTrans<T>(a: Log<T>, b: Log<T>)
    requires SameLists(a, b)
    ensures forall c :: SameLists(b, c) ==> SameLists(a, c)
  {
  }

  lemma SameListsAppend<T>(a: Log<T>, b: Log<T>, r: nat, s: nat, d: T)
    requires SameLists(a, b)
    ensures SameLists(Append(a, r, s, d), Append(b, r, s, d))
  {
    assert At(a, r) == At(b, r);
    forall q: nat ensures At(Append(a, r, s, d), q) == At(Append(b, r, s, d), q) {
      assert At(a, q) == At(b, q);
    }
  }

  lemma {:induction false} SameListsRead<T>(a: Log<T>, b: Log<T>, r: nat, s: nat)
    requires SameLists(a, b) && OriginsBelow(a.origins)
    ensures Read(a, r, s) == Read(b, r, s)
  {
    assert At(a, r) == At(b, r);
    if UpperBound(At(a, r), s) == 0 && r in a.origins {
      SameListsRead(a, b, a.origins[r].run, a.origins[r].runSeq);
    }
  }

  class FullyPersistentArray<T> {
    var runs: map<nat, seq<Entry<T>>>
    var lineage: map<nat, Point>

    function Value(): Log<T>
      reads this
    {
      Log(runs, lineage)
    }

    constructor (r: nat, s: nat, data: T)
      ensures Value() == Append(Log(map[], map[]), r, s, data)
    {
      runs, lineage := map[r := [Entry(s, data)]], map[];
      new;
      assert [] + [Entry(s, data)] == runs[r];
    }

    method RegisterBranch(run: nat, parent: nat, parentSeq: nat)
      modifies this
      ensures Value() == Log(old(runs), old(lineage)[run := Point(parent, parentSeq)])
    {
      lineage := lineage[run := Point(parent, parentSeq)];
    }

    method Update(r: nat, s: nat, data: T)
      modifies this
      ensures Value() == Append(old(Value()), r, s, data)
    {
      runs := runs[r := (if r in runs then runs[r] else []) + [Entry(s, data)]];
    }

    /** The walk ends because a parent is always an older run. */
    method FindFatNode(run: nat, s: nat) returns (node: Option<Entry<T>>)
      requires OriginsBelow(lineage)
      ensures node == match Locate(Value(), run, s) case None => None case Some(p) => Some(runs[p.run][p.idx])
    {
      var searchRun, bound := run, s;
      while true
        invariant Locate(Value(), searchRun, bound) == Locate(Value(), run, s)
        decreases searchRun
      {
        if searchRun in runs {
          var idx := UpperBound(runs[searchRun], bound);
          if idx > 0 {
            return Some(runs[searchRun][idx - 1]);
          }
        }
        if searchRun !in lineage {
          return None;
        }
        searchRun, bound := lineage[searchRun].run, lineage[searchRun].runSeq;
      }
    }

    method TryGet(run: nat, s: nat) returns (data: Option<T>)
      requires OriginsBelow(lineage)
      ensures data == Read(Value(), run, s)
    {
      var node := FindFatNode(run, s);
      data := if node.None? then None else Some(node.value.data);
    }
  }

  // ---- the array and the execution tree over shared runs -----------------------------------------------------------------

  /** What a step of a run does to an array; a branch is registered without a list of its own. */
  function Store<T>(arr: Log<T>, t: Timeline<T>, step: Step<T>): Log<T> {
    match step
    case Record(s, d) => Append(arr, t.active, s, d)
    case Restore(p) => Log(arr.entries, arr.origins[t.active + 1 := p])
  }

  function StoreAll<T>(arr: Log<T>, t: Timeline<T>, steps: seq<Step<T>>): Log<T>
    decreases |steps|
  {
    if steps == [] then arr else StoreAll(Store(arr, t, steps[0]), Take(t, steps[0]), steps[1..])
  }

  function EditOf<T>(step: Step<T>): Edit<T> {
    match step
    case Record(s, d) => Added(s, d)
    case Restore(p) => Reverted(p)
  }

  function EditsOf<T>(steps: seq<Step<T>>): seq<Edit<T>> {
    if steps == [] then [] else [EditOf(steps[0])] + EditsOf(steps[1..])
  }

  lemma StoreFollows<T>(arr: Log<T>, t: Timeline<T>, step: Step<T>)
    requires ValidTimeline(t) && Enabled(t, step) && SameLists(arr, t.log)
    ensures ValidTimeline(Take(t, step)) && SameLists(Store(arr, t, step), Take(t, step).log)
  {
    match step
    case Record(s, d) =>
      AppendWf(t.log, t.active, t.next, s, d);
      SameListsAppend(arr, t.log, t.active, s, d);
    case Restore(p) =>
      BranchWf(t.log, t.active, t.next, p, t.active + 1);
      forall r: nat ensures At(Store(arr, t, step), r) == At(Take(t, step).log, r) {
        assert At(arr, r) == At(t.log, r);
      }
  }

  lemma {:induction false} StoresFollow<T>(arr: Log<T>, t: Timeline<T>, steps: seq<Step<T>>)
    requires ValidTimeline(t) && Possible(t, steps) && SameLists(arr, t.log)
    ensures ValidTimeline(Run(t, steps)) && SameLists(StoreAll(arr, t, steps), Run(t, steps).log)
    decreases |steps|
  {
    if steps != [] {
      StoreFollows(arr, t, steps[0]);
      StoresFollow(Store(arr, t, steps[0]), Take(t, steps[0]), steps[1..]);
    }
  }

  lemma {:induction false} EditsFollow<T>(v: Versioned<T>, steps: seq<Step<T>>)
    requires Ok(v) && Possible(v.time, steps)
    ensures Sized(v.tree) && CanRun(v, EditsOf(steps)) && Ok(After(v, EditsOf(steps))) && After(v, EditsOf(steps)).time == Run(v.time, steps)
    decreases |steps|
  {
    OkFacts(v);
    hide Ok;
    if steps != [] {
      match steps[0] {
        case Record(s, d) => AddReads(v, s, d, 0, 0);
        case Restore(p) => RevertReads(v, p, 0, 0);
      }
      EditsFollow(Apply(v, EditOf(steps[0])), steps[1..]);
      assert EditsOf(steps)[1..] == EditsOf(steps[1..]);
    }
  }

  /** The array and the execution tree answer alike from every point, after any run of records and restores. */
  lemma ArrayAgreesWithTree<T>(blank: T, first: T, run: nat, at: nat, steps: seq<Step<T>>, r: nat, s: nat)
    requires Possible(Timeline(Log(map[run := [Entry(at, first)]], map[]), run, at + 1), steps)
    ensures var t := Timeline(Log(map[run := [Entry(at, first)]], map[]), run, at + 1);
      var v, arr := Versioned(NewTree(blank, first, run, at), t), StoreAll(Append(Log(map[], map[]), run, at, first), t, steps);
      && CanRun(v, EditsOf(steps)) && OriginsBelow(arr.origins) && Sized(After(v, EditsOf(steps)).tree)
      && Read(arr, r, s) == GetState(After(v, EditsOf(steps)).tree, r, s)
  {
    var t := Timeline(Log(map[run := [Entry(at, first)]], map[]), run, at + 1);
    var v, arr := Versioned(NewTree(blank, first, run, at), t), Append(Log(map[], map[]), run, at, first);
    NewTreeKeeps(blank, first, t.log, run, at);
    assert SameLists(arr, t.log) by {
      assert At(arr, run) == [] + [Entry(at, first)];
    }
    StoresFollow(arr, t, steps);
    EditsFollow(v, steps);
    OkFacts(After(v, EditsOf(steps)));
    AgreeAt(StoreAll(arr, t, steps), After(v, EditsOf(steps)), r, s);
  }

  lemma AgreeAt<T>(arr: Log<T>, v: Versioned<T>, r: nat, s: nat)
    requires Ok(v) && SameLists(arr, v.time.log)
    ensures OriginsBelow(arr.origins) && Sized(v.tree) && Read(arr, r, s) == GetState(v.tree, r, s)
  {
    OkFacts(v);
    TreeReads(v.tree, v.time.log, v.time.active, v.time.next, r, s);
    SameListsRead(arr, v.time.log, r, s);
  }

  // ---- a page of cache lines ------------------------------------------------------------------------------------

  type Lists<L> = seq<seq<Entry<L>>>

  /** One cache line's log inside the per-run arrays. */
  ghost function LineLog<L>(runs: map<nat, Lists<L>>, lineage: map<nat, Point>, i: nat): (l: Log<L>)
    ensures l.origins == lineage
  {
    Log(map r | r in runs && i < |runs[r]| :: runs[r][i], lineage)
  }

  ghost function LineLogs<L>(runs: map<nat, Lists<L>>, lineage: map<nat, Point>, n: nat): (logs: seq<Log<L>>)
    ensures |logs| == n && forall i :: 0 <= i < n ==> logs[i] == LineLog(runs, lineage, i)
  {
    seq(n, i requires 0 <= i < n => LineLog(runs, lineage, i))
  }

  /** A write of a line, only where it differs from the previous one. */
  ghost function Changed<L>(l: Log<L>, r: nat, s: nat, line: L, previous: L): Log<L> {
    if line == previous then l else Append(l, r, s, line)
  }

  /** Recording only the lines that differ reads as recording every line iff the unchanged lines were current. */
  lemma DiffIsWhole<L>(l: Log<L>, active: nat, next: nat, s: nat, line: L, previous: L)
    requires Wf(l, active, next) && next <= s
    ensures SameReads(Changed(l, active, s, line, previous), Append(l, active, s, line))
       <==> (line == previous ==> Read(l, active, s) == Some(previous))
  {
    SameAfterSkip(l, l, active, next, s, line);
  }

  /** A write that compares with what the active run reads. */
  ghost function Diff<L>(l: Log<L>, t: Timeline<L>, step: Step<L>): Log<L>
    requires OriginsBelow(l.origins)
  {
    match step
    case Record(s, d) => if Read(l, t.active, s) == Some(d) then l else Append(l, t.active, s, d)
    case Restore(p) => Branch(l, p, t.active + 1)
  }

  ghost predicate SameRuns<L>(l: Log<L>, t: Timeline<L>) {
    Wf(l, t.active, t.next) && ValidTimeline(t) && SameReads(l, t.log)
  }

  lemma DiffFollows<L>(l: Log<L>, t: Timeline<L>, step: Step<L>)
    requires SameRuns(l, t) && Enabled(t, step)
    ensures SameRuns(Diff(l, t, step), Take(t, step))
  {
    hide SameReads, Read;
    match step
    case Record(s, d) =>
      AppendWf(t.log, t.active, t.next, s, d);
      AppendWf(l, t.active, t.next, s, d);
      SameAfterAppend(l, t.log, t.active, t.next, s, d);
      SameAfterSkip(l, t.log, t.active, t.next, s, d);
    case Restore(p) =>
      BranchWf(t.log, t.active, t.next, p, t.active + 1);
      BranchWf(l, t.active, t.next, p, t.active + 1);
      SameAfterBranch(l, t.log, t.active, t.next, p, t.active + 1);
  }

  ghost function DiffAll<L>(l: Log<L>, t: Timeline<L>, steps: seq<Step<L>>): Log<L>
    requires SameRuns(l, t) && Possible(t, steps)
    decreases |steps|
  {
    if steps == [] then l
    else
      DiffFollows(l, t, steps[0]);
      DiffAll(Diff(l, t, steps[0]), Take(t, steps[0]), steps[1..])
  }

  /** Over any run, with branches: a line recorded only where it differs reads everywhere as if always recorded. */
  lemma {:induction false} DiffRunIsWhole<L>(l: Log<L>, t: Timeline<L>, steps: seq<Step<L>>)
    requires SameRuns(l, t) && Possible(t, steps)
    ensures SameRuns(DiffAll(l, t, steps), Run(t, steps))
    decreases |steps|
  {
    if steps != [] {
      DiffFollows(l, t, steps[0]);
      DiffRunIsWhole(Diff(l, t, steps[0]), Take(t, steps[0]), steps[1..]);
    }
  }

  /** A line of the array: the lists of a log whose newest run is the active one, which may have no list yet. */
  ghost predicate LineOk<L>(l: Log<L>, active: nat, next: nat) {
    && OriginsBelow(l.origins)
    && (forall r :: r in l.origins ==> r <= active)
    && (forall r: nat :: Sorted(At(l, r)) && (At(l, r) != [] ==> r <= active))
    && (forall e :: e in At(l, active) ==> e.runSeq < next)
  }

  ghost function Opened<L>(l: Log<L>, active: nat): Log<L> {
    l.(entries := (map r | r in l.entries && r <= active :: l.entries[r])[active := At(l, active)])
  }

  lemma OpenedWf<L>(l: Log<L>, active: nat, next: nat)
    requires LineOk(l, active, next)
    ensures Wf(Opened(l, active), active, next) && SameLists(l, Opened(l, active))
  {
    var o := Opened(l, active);
    forall r | r in o.entries ensures r <= active && Sorted(o.entries[r]) {
      assert o.entries[r] == At(l, r);
    }
    forall r: nat ensures At(l, r) == At(o, r) {
    }
  }

  lemma LineOfWf<L>(l: Log<L>, o: Log<L>, active: nat, next: nat)
    requires Wf(o, active, next) && SameLists(l, o)
    ensures LineOk(l, active, next)
  {
    forall r: nat ensures Sorted(At(l, r)) && (At(l, r) != [] ==> r <= active) {
      assert At(l, r) == At(o, r);
    }
    assert At(l, active) == At(o, active);
  }

  lemma LineOfSame<L>(l: Log<L>, l': Log<L>, active: nat, next: nat, next': nat)
    requires LineOk(l, active, next) && SameLists(l', l) && next <= next'
    ensures LineOk(l', active, next')
  {
    forall r: nat ensures Sorted(At(l', r)) && (At(l', r) != [] ==> r <= active) {
      assert At(l', r) == At(l, r);
    }
    assert At(l', active) == At(l, active);
  }

  /** The mirror of a line agrees with what the active run reads. */
  ghost predicate Mirrors<L>(l: Log<L>, active: nat, next: nat, latest: L)
    requires OriginsBelow(l.origins)
  {
    Read(l, active, next) == Some(latest)
  }

  /** Reads at the tip before and after one more entry. */
  lemma OpenedTip<L>(l: Log<L>, o: Log<L>, active: nat, next: nat, s: nat, line: L)
    requires Wf(o, active, next) && SameLists(l, o) && next <= s
    ensures OriginsBelow(l.origins) && LineOk(Append(l, active, s, line), active, s + 1)
    ensures Read(l, active, next) == Read(l, active, s) == Read(l, active, s + 1)
    ensures Read(Append(l, active, s, line), active, s) == Read(Append(l, active, s, line), active, s + 1) == Some(line)
  {
    hide Read, Locate;
    var a := Append(o, active, s, line);
    AppendWf(o, active, next, s, line);
    SameListsAppend(l, o, active, s, line);
    LineOfWf(Append(l, active, s, line), a, active, s + 1);
    SameListsRead(Append(l, active, s, line), a, active, s);
    SameListsRead(Append(l, active, s, line), a, active, s + 1);
    AppendReads(o, active, next, s, line, active, s);
    AppendReads(o, active, next, s, line, active, s + 1);
    TipIs(o, active, next, s);
    SameListsRead(l, o, active, next);
    SameListsRead(l, o, active, s);
    SameListsRead(l, o, active, s + 1);
  }

  lemma TipIs<L>(o: Log<L>, active: nat, next: nat, s: nat)
    requires Wf(o, active, next) && next <= s
    ensures Read(o, active, next) == Read(o, active, s) == Read(o, active, s + 1)
  {
    TipReads(o, active, next, next);
    TipReads(o, active, next, s);
    TipReads(o, active, next, s + 1);
  }

  /** Branching does not refresh the mirror: in the new run it is right iff the origin shows the mirrored line. */
  lemma MirrorAfterBranch<L>(l: Log<L>, active: nat, next: nat, from: Point, latest: L)
    requires LineOk(l, active, next) && from.run <= active
    ensures var l' := Log(l.entries, l.origins[active + 1 := from]);
      LineOk(l', active + 1, 0) && (Mirrors(l', active + 1, 0, latest) <==> Read(l, from.run, from.runSeq) == Some(latest))
  {
    var o, l' := Opened(l, active), Log(l.entries, l.origins[active + 1 := from]);
    OpenedWf(l, active, next);
    hide LineOk, SameLists, Wf, Read, Opened;
    BranchWf(o, active, next, from, active + 1);
    SameAfterRegister(l, o, active, next, from, active + 1);
    LineOfWf(l', Branch(o, from, active + 1), active + 1, 0);
    SameListsRead(l', Branch(o, from, active + 1), active + 1, 0);
    BranchReads(o, active, next, from, active + 1, active + 1, 0);
    SameListsRead(l, o, from.run, from.runSeq);
  }

  lemma SameAfterRegister<L>(l: Log<L>, o: Log<L>, active: nat, next: nat, from: Point, to: nat)
    requires Wf(o, active, next) && SameLists(l, o) && from.run <= active < to
    ensures OriginsBelow(l.origins) && SameLists(Log(l.entries, l.origins[to := from]), Branch(o, from, to))
    ensures OriginsBelow(l.origins[to := from])
  {
    forall r: nat ensures At(Log(l.entries, l.origins[to := from]), r) == At(Branch(o, from, to), r) {
      assert At(l, r) == At(o, r);
    }
  }

  function UpdatedRuns<L>(runs: map<nat, Lists<L>>, r: nat, s: nat, i: nat, line: L, n: nat): (runs': map<nat, Lists<L>>)
    requires i < n && forall q :: q in runs ==> |runs[q]| == n
    ensures forall q :: q in runs' ==> |runs'[q]| == n
  {
    var history := if r in runs then runs[r] else seq(n, _ => []);
    runs[r := history[i := history[i] + [Entry(s, line)]]]
  }

  lemma LinesUpdated<L>(runs: map<nat, Lists<L>>, lineage: map<nat, Point>, r: nat, s: nat, i: nat, line: L, n: nat)
    requires i < n && forall q :: q in runs ==> |runs[q]| == n
    ensures var runs' := UpdatedRuns(runs, r, s, i, line, n);
      && SameLists(LineLog(runs', lineage, i), Append(LineLog(runs, lineage, i), r, s, line))
      && forall j: nat :: j != i ==> SameLists(LineLog(runs', lineage, j), LineLog(runs, lineage, j))
  {
  }

  lemma LineAppended<L>(l: Log<L>, l': Log<L>, active: nat, s: nat, line: L)
    requires LineOk(l, active, s) && SameLists(l', Append(l, active, s, line))
    ensures LineOk(l', active, s + 1)
  {
    hide LineOk, Wf, SameLists;
    OpenedWf(l, active, s);
    OpenedTip(l, Opened(l, active), active, s, s, line);
    LineOfSame(Append(l, active, s, line), l', active, s + 1, s + 1);
  }

  class FullyPersistentCacheArray<L(==)> {
    const lineCount: nat
    var runs: map<nat, Lists<L>>
    var lineage: map<nat, Point>
    var latest: seq<L>

    ghost var active: nat
    ghost var next: nat

    ghost function Line(i: nat): Log<L>
      reads this
    {
      LineLog(runs, lineage, i)
    }

    /** Each line's lists are those of a log whose newest run is the active one. */
    ghost predicate Valid()
      reads this
    {
      && |latest| == lineCount && OriginsBelow(lineage) && (forall r :: r in runs ==> |runs[r]| == lineCount)
      && (forall i :: 0 <= i < lineCount ==> LineOk(Line(i), active, next))
    }

    /** The mirror is the page that a read at the tip of the active run gives. */
    ghost predicate InStep()
      requires Valid()
      reads this
    {
      forall i :: 0 <= i < lineCount ==> Mirrors(Line(i), active, next, latest[i])
    }

    constructor (r: nat, s: nat, page: seq<L>)
      ensures Valid() && active == r && next == s + 1 && InStep()
      ensures lineCount == |page| && latest == page && lineage == map[]
      ensures forall i :: 0 <= i < |page| ==> Line(i) == Log(map[r := [Entry(s, page[i])]], map[])
    {
      lineCount, lineage, latest := |page|, map[], page;
      runs := map[r := seq(|page|, i requires 0 <= i < |page| => [Entry(s, page[i])])];
      active, next := r, s + 1;
      new;
      forall i | 0 <= i < |page| ensures Line(i) == Log(map[r := [Entry(s, page[i])]], map[]) && LineOk(Line(i), r, s + 1) {
      }
    }

    /** The new run reads as its origin; the mirror is right in it iff the origin shows the mirrored page. */
    method RegisterBranch(run: nat, parent: nat, parentSeq: nat)
      requires Valid() && run == active + 1 && parent <= active
      modifies this
      ensures Valid() && active == run && next == 0 && latest == old(latest)
      ensures forall i :: Line(i) == Log(old(Line(i)).entries, old(lineage)[run := Point(parent, parentSeq)])
      ensures InStep() <==> forall i :: 0 <= i < lineCount ==> Read(old(Line(i)), parent, parentSeq) == Some(latest[i])
    {
      hide Mirrors, Read, LineOk;
      ghost var before := LineLogs(runs, lineage, lineCount);
      forall i | 0 <= i < lineCount
        ensures var l' := Log(before[i].entries, before[i].origins[run := Point(parent, parentSeq)]);
          LineOk(l', run, 0) && (Mirrors(l', run, 0, latest[i]) <==> Read(before[i], parent, parentSeq) == Some(latest[i]))
      {
        assert before[i] == Line(i);
        MirrorAfterBranch(before[i], active, next, Point(parent, parentSeq), latest[i]);
      }
      lineage := lineage[run := Point(parent, parentSeq)];
      active, next := run, 0;
      forall i | 0 <= i < lineCount ensures LineOk(Line(i), active, next) {
        assert Line(i) == Log(before[i].entries, before[i].origins[run := Point(parent, parentSeq)]);
      }
    }

    /** One line; a page's lines are recorded at the same sequence number, each once. */
    method UpdateLine(r: nat, s: nat, i: nat, line: L)
      requires Valid() && i < lineCount && r == active && next <= s + 1 && LineOk(Line(i), active, s)
      modifies this
      ensures Valid() && latest == old(latest)[i := line] && lineage == old(lineage) && active == old(active) && next == s + 1
      ensures SameLists(Line(i), Append(old(Line(i)), r, s, line))
      ensures forall j: nat :: j != i ==> SameLists(Line(j), old(Line(j)))
    {
      hide SameLists, LineLog, Append;
      ghost var was := runs;
      forall j | 0 <= j < lineCount ensures LineOk(LineLog(was, lineage, j), active, next) {
        assert LineOk(Line(j), active, next);
      }
      runs := UpdatedRuns(runs, r, s, i, line, lineCount);
      LinesUpdated(was, lineage, r, s, i, line, lineCount);
      forall j | 0 <= j < lineCount ensures LineOk(LineLog(runs, lineage, j), active, s + 1) {
        if j == i {
          LineAppended(LineLog(was, lineage, i), LineLog(runs, lineage, i), active, s, line);
        } else {
          LineOfSame(LineLog(was, lineage, j), LineLog(runs, lineage, j), active, next, s + 1);
        }
      }
      latest := latest[i := line];
      next := s + 1;
    }

    /**
     Diff two pages and record the lines that differ. A read at the new tip gives the page if and only if the lines that
     did not differ were current; the mirror stays in step, and is the page when it was compared with.
     */
    method Update(r: nat, s: nat, page: seq<L>, previous: seq<L>)
      requires Valid() && |page| == |previous| == lineCount && r == active && next <= s
      modifies this
      ensures Valid() && lineage == old(lineage) && active == old(active) && next == (if page == previous then old(next) else s + 1)
      ensures forall i :: 0 <= i < lineCount ==> SameLists(Line(i), Changed(old(Line(i)), r, s, page[i], previous[i]))
      ensures forall i :: 0 <= i < lineCount ==> latest[i] == if page[i] == previous[i] then old(latest)[i] else page[i]
      ensures (forall i :: 0 <= i < lineCount ==> Read(Line(i), r, s) == Some(page[i])) <==>
              (forall i :: 0 <= i < lineCount && page[i] == previous[i] ==> Read(old(Line(i)), r, s) == Some(previous[i]))
      ensures old(InStep()) ==> InStep()
      ensures previous == old(latest) ==> latest == page
    {
      hide SameLists, LineOk, LineLog, Read, Changed, Mirrors;
      ghost var before := LineLogs(runs, lineage, lineCount);
      ghost var mirror, floor := latest, next;
      forall k | 0 <= k < lineCount ensures SameLists(Line(k), before[k]) && LineOk(before[k], active, next) {
        assert before[k] == Line(k);
        SameListsSelf(Line(k));
      }
      for i := 0 to lineCount
        invariant Valid() && lineage == old(lineage) && active == old(active)
        invariant next == if page[..i] == previous[..i] then floor else s + 1
        invariant forall k :: 0 <= k < i ==> SameLists(Line(k), Changed(before[k], r, s, page[k], previous[k]))
        invariant forall k :: 0 <= k < i ==> latest[k] == if page[k] == previous[k] then mirror[k] else page[k]
        invariant forall k :: i <= k < lineCount ==> SameLists(Line(k), before[k]) && latest[k] == mirror[k]
      {
        if page[i] == previous[i] {
          UnchangedLine(before[i], r, s, page[i]);
          continue;
        }
        label Before:
        LineOfSame(before[i], Line(i), active, floor, s);
        UpdateLine(r, s, i, page[i]);
        forall k | 0 <= k < lineCount && k != i ensures forall l :: SameLists(old@Before(Line(k)), l) ==> SameLists(Line(k), l) {
          SameListsTrans(Line(k), old@Before(Line(k)));
        }
        SameListsAppend(old@Before(Line(i)), before[i], r, s, page[i]);
        SameListsTrans(Line(i), Append(old@Before(Line(i)), r, s, page[i]));
        ChangedLine(before[i], r, s, page[i], previous[i]);
      }
      assert page[..lineCount] == page && previous[..lineCount] == previous;
      forall i | 0 <= i < lineCount
        ensures Read(Line(i), r, s) == Some(page[i]) <==> (page[i] == previous[i] ==> Read(before[i], r, s) == Some(previous[i]))
        ensures Mirrors(before[i], r, floor, mirror[i]) ==> Mirrors(Line(i), r, next, latest[i])
      {
        MirrorKeeps(before[i], Line(i), active, floor, s, page[i], previous[i], mirror[i], next);
      }
    }

    /** Rebuild the page visible at (run, s), line by line; a line never recorded there keeps the blank. */
    method Get(run: nat, s: nat, blank: L) returns (page: seq<L>)
      requires Valid()
      ensures |page| == lineCount
      ensures forall i :: 0 <= i < lineCount ==>
        page[i] == match Read(Line(i), run, s) case None => blank case Some(line) => line
      ensures InStep() && run == active && s == next ==> page == latest
    {
      page := seq(lineCount, _ => blank);
      for i := 0 to lineCount
        invariant |page| == lineCount
        invariant forall k :: 0 <= k < i ==> page[k] == match Read(Line(k), run, s) case None => blank case Some(line) => line
        invariant forall k :: i <= k < lineCount ==> page[k] == blank
      {
        var line := FindLine(i, run, s);
        if line.None? {
          continue;
        }
        page := page[i := line.value];
      }
    }

    /** find_fat_node for one line. */
    method FindLine(i: nat, run: nat, s: nat) returns (line: Option<L>)
      requires Valid() && i < lineCount
      ensures line == Read(Line(i), run, s)
    {
      var searchRun, bound := run, s;
      while true
        invariant Locate(Line(i), searchRun, bound) == Locate(Line(i), run, s)
        decreases searchRun
      {
        if searchRun in runs {
          var idx := UpperBound(runs[searchRun][i], bound);
          if idx > 0 {
            return Some(runs[searchRun][i][idx - 1].data);
          }
        }
        if searchRun !in lineage {
          return None;
        }
        searchRun, bound := lineage[searchRun].run, lineage[searchRun].runSeq;
      }
    }
  }

  /**
   A line after a page is recorded at s: a read shows the page's line iff an unchanged one was current, and the mirror
   stays right along the run, a changed line being written to both and an unchanged one to neither.
   */
  lemma MirrorKeeps<L>(l: Log<L>, l': Log<L>, active: nat, next: nat, s: nat, line: L, previous: L, latest: L, next': nat)
    requires LineOk(l, active, next) && next <= s && SameLists(l', Changed(l, active, s, line, previous))
    requires next' == s + 1 || (next' == next && line == previous)
    ensures OriginsBelow(l.origins) && OriginsBelow(l'.origins)
    ensures Read(l', active, s) == Some(line) <==> (line == previous ==> Read(l, active, s) == Some(previous))
    ensures Mirrors(l, active, next, latest) ==> Mirrors(l', active, next', if line == previous then latest else line)
  {
    hide Read, SameLists;
    var c := Changed(l, active, s, line, previous);
    OpenedWf(l, active, next);
    OpenedTip(l, Opened(l, active), active, next, s, line);
    SameOrigins(l', c);
    SameListsSym(l', c);
    SameListsRead(c, l', active, s);
    SameListsRead(c, l', active, next');
  }

  lemma SameOrigins<L>(a: Log<L>, b: Log<L>)
    requires SameLists(a, b)
    ensures a.origins == b.origins
  {
  }

  lemma SameListsSym<L>(a: Log<L>, b: Log<L>)
    requires SameLists(a, b)
    ensures SameLists(b, a)
  {
  }

  lemma UnchangedLine<L>(l: Log<L>, r: nat, s: nat, line: L)
    ensures Changed(l, r, s, line, line) == l
  {
  }

  lemma ChangedLine<L>(l: Log<L>, r: nat, s: nat, line: L, previous: L)
    requires line != previous
    ensures Changed(l, r, s, line, previous) == Append(l, r, s, line)
  {
  }

  /** A page compared with one that is not current: the line that has changed since is not recorded. */
  lemma StaleDiffIsNotWhole()
    ensures var l := Log(map[0 := [Entry(0, 1)]], map[]);
      Wf(l, 0, 1) && !SameReads(Changed(l, 0, 1, 2, 2), Append(l, 0, 1, 2))
  {
    var l := Log(map[0 := [Entry(0, 1)]], map[]);
    assert Read(l, 0, 1) == Some(1);
    DiffIsWhole(l, 0, 1, 1, 2, 2);
  }

  /** After going back to before the last write the mirror is stale. */
  lemma StaleMirror()
    ensures var l := Log(map[0 := [Entry(0, 1), Entry(1, 2)]], map[]);
      && LineOk(l, 0, 2) && Mirrors(l, 0, 2, 2)
      && !Mirrors(Log(l.entries, l.origins[1 := Point(0, 0)]), 1, 0, 2)
  {
    var es := [Entry(0, 1), Entry(1, 2)];
    var l := Log(map[0 := es], map[]);
    assert es[..1] == [Entry(0, 1)];
    assert UpperBound(es, 0) == UpperBound(es[..1], 0) == 1;
    assert Read(l, 0, 0) == Some(1);
    MirrorAfterBranch(l, 0, 2, Point(0, 0), 2);
  }
}
