/**
 The per-page log with a deduplicating cursor (FatNodeHistory), as a value and as the mutable class.

 A write equal to the page under the cursor is dropped. The ghost counterpart is the full log of every write;
 `PageInv` says the two read the same from every point.
 */
module PageHistory {
  import opened Options
  import opened Lineage

  datatype History<P(==)> = History(
    branches: map<nat, seq<Entry<P>>>,
    parents: map<nat, Option<Point>>,
    created: Point,
    cursor: Option<Place>)

  /** The history is itself a lineage log, with an origin for each run that branched from something visible. */
  function AsLog<P>(h: History<P>): Log<P> {
    Log(h.branches, Origins(h.parents))
  }

  predicate Before(p: Point, q: Point) {
    p.run < q.run || (p.run == q.run && p.runSeq < q.runSeq)
  }

  /** What the climb relies on: parents are older runs that have a list, and every other run has a parent entry. */
  ghost predicate Climbable<P>(h: History<P>) {
    && (forall r :: r in h.parents && h.parents[r].Some? ==>
          && h.parents[r].value.run < r
          && h.parents[r].value.run in h.branches
          && !Before(h.parents[r].value, h.created))
    && (forall r :: r in h.branches ==> r == h.created.run || r in h.parents)
    && h.created.run in h.branches
    && h.branches[h.created.run] != []
    && h.branches[h.created.run][0].runSeq == h.created.runSeq
    && (forall r :: r in h.branches ==> Sorted(h.branches[r]))
  }

  /** The node nearest at or before (r, s), climbing to the parent run when the run has none. */
  function Climb<P>(h: History<P>, r: nat, s: nat): (p: Option<Place>)
    requires forall q :: q in h.parents && h.parents[q].Some? ==> h.parents[q].value.run < q
    ensures p.Some? ==> p.value.run in h.branches && p.value.idx < |h.branches[p.value.run]|
  {
    if r !in h.branches then None
    else if UpperBound(h.branches[r], s) > 0 then Some(Place(r, UpperBound(h.branches[r], s) - 1))
    else if r in h.parents && h.parents[r].Some? then Climb(h, h.parents[r].value.run, h.parents[r].value.runSeq)
    else None
  }

  function Nearest<P>(h: History<P>, r: nat, s: nat): (p: Option<Place>)
    requires forall q :: q in h.parents && h.parents[q].Some? ==> h.parents[q].value.run < q
    ensures p.Some? ==> p.value.run in h.branches && p.value.idx < |h.branches[p.value.run]|
  {
    if Before(Point(r, s), h.created) then None else Climb(h, r, s)
  }

  predicate CursorInRange<P>(h: History<P>) {
    h.cursor.Some? ==> h.cursor.value.run in h.branches && h.cursor.value.idx < |h.branches[h.cursor.value.run]|
  }

  function NewHistory<P>(r: nat, s: nat): History<P> {
    History(map[], map[], Point(r, s), None)
  }

  /** Append the page unless it equals the page under the cursor. */
  function Update<P>(h: History<P>, r: nat, s: nat, page: P): (h': History<P>)
    requires CursorInRange(h)
    ensures CursorInRange(h')
  {
    if h.cursor.Some? && h.branches[h.cursor.value.run][h.cursor.value.idx].data == page then h
    else
      h.(cursor := Some(Place(r, if h.cursor.Some? && h.cursor.value.run == r then h.cursor.value.idx + 1 else 0)),
         branches := h.branches[r := At(Log(h.branches, map[]), r) + [Entry(s, page)]])
  }

  function Insert<K, V>(m: map<K, V>, k: K, v: V): map<K, V> {
    if k in m then m else m[k := v]
  }

  function MakeBranch<P>(h: History<P>, from: Point, to: nat): History<P>
    requires forall q :: q in h.parents && h.parents[q].Some? ==> h.parents[q].value.run < q
  {
    var node := Nearest(h, from.run, from.runSeq);
    h.(cursor := node,
       parents := Insert(h.parents, to, if node.Some? then Some(from) else None),
       branches := Insert(h.branches, to, []))
  }

  // ---- the history reads as the log of every write --------------------------------------------------------

  /** Every run since the page's creation has a list; every later run has a parent entry. */
  ghost predicate Complete<P>(h: History<P>, active: nat) {
    && h.created.run <= active
    && (forall r :: r in h.branches <==> h.created.run <= r <= active)
    && (forall r :: r in h.parents <==> h.created.run < r <= active)
  }

  ghost predicate PageInv<P>(h: History<P>, log: Log<P>, active: nat, next: nat) {
    && Complete(h, active)
    && Climbable(h)
    && Wf(AsLog(h), active, next)
    && Wf(log, active, next)
    && SameReads(AsLog(h), log)
  }

  /** The cursor names what the active run reads at infinity. */
  ghost predicate CursorAtTip<P>(h: History<P>, active: nat)
    requires OriginsBelow(AsLog(h).origins)
  {
    h.cursor == Tip(AsLog(h), active)
  }

  lemma {:induction false} ClimbIsLocate<P>(h: History<P>, r: nat, s: nat)
    requires Climbable(h)
    ensures Climb(h, r, s) == if r in h.branches then Locate(AsLog(h), r, s) else None
  {
    if r in h.branches && UpperBound(h.branches[r], s) == 0 && r in h.parents && h.parents[r].Some? {
      ClimbIsLocate(h, h.parents[r].value.run, h.parents[r].value.runSeq);
    }
  }

  /** The early exits of the lookup are exact: it finds what the plain lineage walk finds, from every point. */
  lemma NearestIsLocate<P>(h: History<P>, active: nat, r: nat, s: nat)
    requires Complete(h, active) && Climbable(h)
    ensures Nearest(h, r, s) == Locate(AsLog(h), r, s)
  {
    ClimbIsLocate(h, r, s);
    if r == h.created.run && s < h.created.runSeq {
      UpperBoundSplits(h.branches[r], s);
    }
  }

  lemma NearestReads<P>(h: History<P>, log: Log<P>, active: nat, next: nat, r: nat, s: nat)
    requires PageInv(h, log, active, next)
    ensures Found(AsLog(h), Nearest(h, r, s)) == Read(log, r, s)
  {
    NearestIsLocate(h, active, r, s);
    assert Read(AsLog(h), r, s) == Read(log, r, s);
  }

  lemma UpdateAppends<P>(h: History<P>, active: nat, s: nat, page: P)
    requires CursorInRange(h) && active in h.branches
    requires OriginsBelow(AsLog(h).origins) && CursorAtTip(h, active)
    ensures Update(h, active, s, page) != h ==> AsLog(Update(h, active, s, page)) == Append(AsLog(h), active, s, page)
    ensures Update(h, active, s, page) == h <==> Found(AsLog(h), h.cursor) == Some(page)
  {
    var h' := Update(h, active, s, page);
    if Found(AsLog(h), h.cursor) != Some(page) {
      assert |h'.branches[active]| == |h.branches[active]| + 1;
    }
  }

  lemma AppendedStructure<P>(h: History<P>, active: nat, next: nat, s: nat, page: P)
    requires Complete(h, active) && Climbable(h) && Wf(AsLog(h), active, next) && next <= s
    requires CursorInRange(h) && CursorAtTip(h, active) && Update(h, active, s, page) != h
    ensures var h' := Update(h, active, s, page);
      Complete(h', active) && Climbable(h') && Wf(AsLog(h'), active, s + 1) && CursorInRange(h') && CursorAtTip(h', active)
  {
    hide Wf, Sorted;
    var l, h' := AsLog(h), Update(h, active, s, page);
    UpdateAppends(h, active, s, page);
    AppendWf(l, active, next, s, page);
    assert h'.branches == h.branches[active := h.branches[active] + [Entry(s, page)]];
    assert h'.parents == h.parents && h'.created == h.created;
  }

  /** A write with the cursor at the tip is read as if it had been recorded, dropped or not. */
  lemma UpdateKeeps<P>(h: History<P>, log: Log<P>, active: nat, next: nat, s: nat, page: P)
    requires PageInv(h, log, active, next) && CursorInRange(h) && CursorAtTip(h, active) && next <= s
    ensures PageInv(Update(h, active, s, page), Append(log, active, s, page), active, s + 1)
    ensures CursorInRange(Update(h, active, s, page)) && CursorAtTip(Update(h, active, s, page), active)
  {
    var l, h' := AsLog(h), Update(h, active, s, page);
    UpdateAppends(h, active, s, page);
    AppendWf(log, active, next, s, page);
    if h' == h {
      TipReads(l, active, next, s);
      SameAfterSkip(l, log, active, next, s, page);
    } else {
      AppendedStructure(h, active, next, s, page);
      SameAfterAppend(l, log, active, next, s, page);
    }
  }

  /** A new run reads as its origin, and the cursor is at the new run's tip wherever reads had left it. */
  lemma MakeBranchKeeps<P>(h: History<P>, log: Log<P>, active: nat, next: nat, from: Point)
    requires PageInv(h, log, active, next) && from.run <= active
    ensures PageInv(MakeBranch(h, from, active + 1), Branch(log, from, active + 1), active + 1, 0)
    ensures CursorInRange(MakeBranch(h, from, active + 1)) && CursorAtTip(MakeBranch(h, from, active + 1), active + 1)
  {
    var to, h' := active + 1, MakeBranch(h, from, active + 1);
    BranchedStructure(h, active, next, from);
    BranchWf(log, active, next, from, to);
    forall r: nat, q: nat ensures Read(AsLog(h'), r, q) == Read(Branch(log, from, to), r, q) {
      BranchedReads(h, active, next, from, r, q);
      BranchReads(log, active, next, from, to, r, q);
      assert Read(AsLog(h), r, q) == Read(log, r, q);
      assert Read(AsLog(h), from.run, from.runSeq) == Read(log, from.run, from.runSeq);
    }
  }

  lemma BranchedStructure<P>(h: History<P>, active: nat, next: nat, from: Point)
    requires Complete(h, active) && Climbable(h) && Wf(AsLog(h), active, next) && from.run <= active
    ensures var h' := MakeBranch(h, from, active + 1);
      Complete(h', active + 1) && Climbable(h') && Wf(AsLog(h'), active + 1, 0)
    ensures CursorInRange(MakeBranch(h, from, active + 1)) && CursorAtTip(MakeBranch(h, from, active + 1), active + 1)
  {
    var to, l, h' := active + 1, AsLog(h), MakeBranch(h, from, active + 1);
    NearestIsLocate(h, active, from.run, from.runSeq);
    BranchedComplete(h, active, from);
    BranchedLog(h, active, from);
    BranchWf(l, active, next, from, to);
    if h'.cursor.Some? {
      BranchLocatesElsewhere(l, active, next, from, to, from.run, from.runSeq);
    }
  }

  lemma BranchedComplete<P>(h: History<P>, active: nat, from: Point)
    requires Complete(h, active) && Climbable(h) && from.run <= active
    ensures Complete(MakeBranch(h, from, active + 1), active + 1) && Climbable(MakeBranch(h, from, active + 1))
  {
    hide Locate, UpperBound, Climb;
    var to, h' := active + 1, MakeBranch(h, from, active + 1);
    assert h'.branches == h.branches[to := []] && h'.created == h.created;
    assert h'.parents == h.parents[to := if h'.cursor.Some? then Some(from) else None];
    NearestIsLocate(h, active, from.run, from.runSeq);
    if h'.cursor.Some? {
      assert from.run in h.branches && !Before(from, h.created);
    }
  }

  /** The branched history as a log: an origin is recorded only when something is visible there. */
  lemma BranchedLog<P>(h: History<P>, active: nat, from: Point)
    requires Complete(h, active) && Climbable(h) && from.run <= active
    ensures var h' := MakeBranch(h, from, active + 1);
      var bl := Branch(AsLog(h), from, active + 1);
      AsLog(h') == if h'.cursor.Some? then bl else Log(bl.entries, AsLog(h).origins)
  {
    var to, h' := active + 1, MakeBranch(h, from, active + 1);
    assert to !in h.parents && to !in h.branches;
    OriginsInsert(h.parents, to, if h'.cursor.Some? then Some(from) else None);
  }

  function Origins(parents: map<nat, Option<Point>>): map<nat, Point> {
    map r | r in parents && parents[r].Some? :: parents[r].value
  }

  lemma OriginsInsert(parents: map<nat, Option<Point>>, to: nat, from: Option<Point>)
    requires to !in parents
    ensures Origins(parents[to := from]) == if from.Some? then Origins(parents)[to := from.value] else Origins(parents)
  {
  }

  lemma BranchedReads<P>(h: History<P>, active: nat, next: nat, from: Point, r: nat, q: nat)
    requires Complete(h, active) && Climbable(h) && Wf(AsLog(h), active, next) && from.run <= active
    requires OriginsBelow(AsLog(MakeBranch(h, from, active + 1)).origins)
    ensures Read(AsLog(MakeBranch(h, from, active + 1)), r, q)
         == if r == active + 1 then Read(AsLog(h), from.run, from.runSeq) else Read(AsLog(h), r, q)
  {
    var to, l, h' := active + 1, AsLog(h), MakeBranch(h, from, active + 1);
    var bl := Branch(l, from, to);
    NearestIsLocate(h, active, from.run, from.runSeq);
    BranchedLog(h, active, from);
    if h'.cursor.Some? {
      BranchReads(l, active, next, from, to, r, q);
    } else if r != to {
      CutReads(l, bl, to, r, q);
    }
  }

  /** Leaving out the origin of a run that sees nothing there changes no read. */
  lemma {:induction false} CutReads<P>(l: Log<P>, bl: Log<P>, to: nat, r: nat, q: nat)
    requires OriginsBelow(l.origins) && OriginsBelow(bl.origins)
    requires to !in l.origins && to in bl.origins && bl.origins == l.origins[to := bl.origins[to]]
    requires bl.entries == l.entries[to := []] && (forall x :: x in l.origins ==> x < to)
    requires Locate(l, bl.origins[to].run, bl.origins[to].runSeq) == None
    requires r != to
    ensures Locate(Log(bl.entries, l.origins), r, q) == Locate(l, r, q)
  {
    if UpperBound(At(l, r), q) == 0 && r in l.origins {
      CutReads(l, bl, to, l.origins[r].run, l.origins[r].runSeq);
    }
  }

  /** A page first written now reads as a log whose only entry is that write. */
  lemma NewKeeps<P>(log: Log<P>, active: nat, s: nat, page: P)
    requires Wf(log, active, s + 1) && At(log, active) == [Entry(s, page)]
    requires forall r: nat :: r != active ==> At(log, r) == []
    ensures var h := Update(NewHistory(active, s), active, s, page);
      PageInv(h, log, active, s + 1) && CursorInRange(h) && CursorAtTip(h, active)
  {
    var h := Update(NewHistory(active, s), active, s, page);
    assert h.branches[active] == [Entry(s, page)];
    NewReads(log, active, s, page);
  }

  lemma NewReads<P>(log: Log<P>, active: nat, s: nat, page: P)
    requires Wf(log, active, s + 1) && At(log, active) == [Entry(s, page)]
    requires forall r: nat :: r != active ==> At(log, r) == []
    ensures var h := Update(NewHistory(active, s), active, s, page); Climbable(h) && SameReads(AsLog(h), log)
  {
    var h := Update(NewHistory(active, s), active, s, page);
    assert h.branches[active] == [Entry(s, page)];
    forall r: nat, q: nat ensures Read(AsLog(h), r, q) == Read(log, r, q) {
      if r == active && q < s && r in log.origins {
        NothingBelow(log, active, log.origins[r].run, log.origins[r].runSeq);
      } else if r < active {
        NothingBelow(log, active, r, q);
      }
    }
  }

  // ---- a cursor left behind by a read ------------------------------------------------------------------

  /**
   Reads move the cursor. A write with the cursor anywhere is read correctly if and only if the page under the
   cursor differs from the write, or the write is what the active run reads already.
   */
  lemma DisturbedUpdate<P>(h: History<P>, log: Log<P>, active: nat, next: nat, s: nat, page: P, c: Option<Place>)
    requires PageInv(h, log, active, next) && CursorInRange(h.(cursor := c)) && next <= s
    requires OriginsBelow(AsLog(Update(h.(cursor := c), active, s, page)).origins)
    ensures SameReads(AsLog(Update(h.(cursor := c), active, s, page)), Append(log, active, s, page))
       <==> (Found(AsLog(h), c) == Some(page) ==> Read(log, active, s) == Some(page))
  {
    var l := AsLog(h);
    assert AsLog(h.(cursor := c)) == l;
    assert Read(l, active, s) == Read(log, active, s);
    if Found(l, c) == Some(page) {
      SameAfterSkip(l, log, active, next, s, page);
    } else {
      assert AsLog(Update(h.(cursor := c), active, s, page)) == Append(l, active, s, page);
      SameAfterAppend(l, log, active, next, s, page);
    }
  }

  /** A read of an older point followed, with no branch between, by writing that older page back: the write is lost. */
  lemma ReadWithoutBranchLosesAWrite()
    ensures var h := Update(Update(Update(NewHistory(0, 0), 0, 0, 'a'), 0, 1, 'b'), 0, 2, 'b');
      var read := h.(cursor := Nearest(h, 0, 0));
      var after := Update(read, 0, 3, 'a');
      OriginsBelow(AsLog(after).origins) && Read(AsLog(after), 0, 3) == Some('b')
  {
    var h0 := Update(NewHistory(0, 0), 0, 0, 'a');
    assert h0.branches[0] == [Entry(0, 'a')];
    var h1 := Update(h0, 0, 1, 'b');
    assert h1.branches[0] == [Entry(0, 'a'), Entry(1, 'b')];
    UpperBoundAppend([], Entry(0, 'a'), 0);
    UpperBoundAppend([Entry(0, 'a')], Entry(1, 'b'), 0);
    UpperBoundAppend([Entry(0, 'a')], Entry(1, 'b'), 3);
    assert [Entry(0, 'a')] + [Entry(1, 'b')] == h1.branches[0];
    assert [] + [Entry(0, 'a')] == h0.branches[0];
    assert Nearest(h1, 0, 0) == Some(Place(0, 0));
  }
}

/** The mutable class, with the climbing loop of its lookup. */
module FatNodes {
  import opened Options
  import opened Lineage
  import opened PageHistory

  /** The history reads as the log, with the cursor at the active run's tip. */
  ghost predicate StandsFor<P>(h: History<P>, log: Log<P>, active: nat, next: nat) {
    PageInv(h, log, active, next) && CursorAtTip(h, active)
  }

  lemma WriteStands<P>(h: History<P>, log: Log<P>, active: nat, next: nat, s: nat, page: P)
    requires StandsFor(h, log, active, next) && next <= s && CursorInRange(h)
    ensures StandsFor(Update(h, active, s, page), Append(log, active, s, page), active, s + 1)
  {
    UpdateKeeps(h, log, active, next, s, page);
  }

  lemma BranchStands<P>(h: History<P>, log: Log<P>, active: nat, next: nat, from: Point)
    requires PageInv(h, log, active, next) && from.run <= active && Climbable(h)
    ensures StandsFor(MakeBranch(h, from, active + 1), Lineage.Branch(log, from, active + 1), active + 1, 0)
  {
    MakeBranchKeeps(h, log, active, next, from);
  }

  class FatNodeHistory<P(==)> {
    var branches: map<nat, seq<Entry<P>>>
    var parents: map<nat, Option<Point>>
    const created: Point
    var cursor: Option<Place>

    ghost function Value(): History<P>
      reads this
    {
      History(branches, parents, created, cursor)
    }

    constructor (r: nat, s: nat)
      ensures Value() == NewHistory(r, s)
    {
      branches, parents, created, cursor := map[], map[], Point(r, s), None;
    }

    method GetNodeNearest(r: nat, s: nat) returns (node: Option<Entry<P>>)
      requires Climbable(Value())
      modifies this`cursor
      ensures Value() == old(Value()).(cursor := Nearest(old(Value()), r, s))
      ensures node == match Nearest(old(Value()), r, s)
                      case None => None
                      case Some(p) => Some(old(branches)[p.run][p.idx])
    {
      if r < created.run || (r == created.run && s < created.runSeq) {
        cursor := None;
        return None;
      }
      if r !in branches {
        cursor := None;
        return None;
      }
      var run, runSeq := r, s;
      while true
        invariant run in branches && !Before(Point(run, runSeq), created)
        invariant Climb(old(Value()), run, runSeq) == Nearest(old(Value()), r, s)
        invariant Value() == old(Value())
        decreases run
      {
        var branch := branches[run];
        if |branch| == 0 {
          if parents[run].None? {
            cursor := None;
            return None;
          }
          run, runSeq := parents[run].value.run, parents[run].value.runSeq;
          continue;
        }
        var bound := UpperBound(branch, runSeq);
        if bound == 0 {
          UpperBoundSplits(branch, runSeq);
          if parents[run].None? {
            cursor := None;
            return None;
          }
          run, runSeq := parents[run].value.run, parents[run].value.runSeq;
          continue;
        }
        cursor := Some(Place(run, bound - 1));
        return Some(branch[bound - 1]);
      }
    }

    /** The log that the object stands for, whichever it is, is extended. */
    method Write(r: nat, s: nat, page: P, ghost log: Log<P>, ghost next: nat)
      requires CursorInRange(Value())
      modifies this
      ensures Value() == Update(old(Value()), r, s, page)
      ensures StandsFor(old(Value()), log, r, next) && next <= s ==> StandsFor(Value(), Append(log, r, s, page), r, s + 1)
    {
      hide StandsFor;
      ghost var h := Value();
      if StandsFor(h, log, r, next) && next <= s {
        WriteStands(h, log, r, next, s, page);
      }
      if cursor.Some? {
        var previous := branches[cursor.value.run][cursor.value.idx];
        if previous.data == page {
          assert Value() == Update(h, r, s, page);
          return;
        }
        cursor := Some(Place(r, if cursor.value.run == r then cursor.value.idx + 1 else 0));
      } else {
        cursor := Some(Place(r, 0));
      }
      branches := branches[r := (if r in branches then branches[r] else []) + [Entry(s, page)]];
      assert Value() == Update(h, r, s, page);
    }

    method Branch(from: Point, to: nat, ghost log: Log<P>, ghost active: nat, ghost next: nat)
      requires Climbable(Value())
      modifies this
      ensures Value() == MakeBranch(old(Value()), from, to)
      ensures PageInv(old(Value()), log, active, next) && from.run <= active && to == active + 1 ==>
        StandsFor(Value(), Lineage.Branch(log, from, to), to, 0)
    {
      hide StandsFor, PageInv;
      ghost var h := Value();
      if PageInv(h, log, active, next) && from.run <= active && to == active + 1 {
        BranchStands(h, log, active, next, from);
      }
      var node := GetNodeNearest(from.run, from.runSeq);
      if to !in parents {
        parents := parents[to := if node.None? then None else Some(from)];
      }
      if to !in branches {
        branches := branches[to := []];
      }
      assert Value() == MakeBranch(h, from, to);
    }
  }
}
