/**
 A region's bytes as a growing list of page histories (FullyPersistentRegion).

 Region buffers of different sizes may be written in any order; page i has a history only of the writes that
 reached it. A read takes the size to rebuild from elsewhere.
 */
module PagedMemory {
  import opened Options
  import opened Lineage
  import opened PageHistory

  type Memory<P(==)> = seq<History<P>>

  ghost predicate Readable<P>(m: Memory<P>) {
    forall i :: 0 <= i < |m| ==> Climbable(m[i])
  }

  ghost predicate CursorsInRange<P>(m: Memory<P>) {
    forall i :: 0 <= i < |m| ==> CursorInRange(m[i])
  }

  function FirstWrite<P(==)>(r: nat, s: nat, page: P): History<P> {
    Update(NewHistory(r, s), r, s, page)
  }

  /** What one write makes of page i: pages it reaches are updated or created, further ones are left alone. */
  function WritePage<P(==)>(m: Memory<P>, r: nat, s: nat, pages: seq<P>, i: nat): History<P>
    requires i < |m| || i < |pages|
    requires i < |m| ==> CursorInRange(m[i])
  {
    if i >= |m| then FirstWrite(r, s, pages[i])
    else if i < |pages| then Update(m[i], r, s, pages[i])
    else m[i]
  }

  function Max(a: nat, b: nat): nat {
    if a < b then b else a
  }

  function Write<P(==)>(m: Memory<P>, r: nat, s: nat, pages: seq<P>): (m': Memory<P>)
    requires CursorsInRange(m)
    ensures |m'| == Max(|m|, |pages|) && CursorsInRange(m')
    ensures forall i :: 0 <= i < |m'| ==> m'[i] == WritePage(m, r, s, pages, i)
  {
    seq(Max(|m|, |pages|), i requires 0 <= i < Max(|m|, |pages|) && CursorsInRange(m) => WritePage(m, r, s, pages, i))
  }

  function Branches<P>(m: Memory<P>, from: Point, to: nat): (m': Memory<P>)
    requires Readable(m)
    ensures |m'| == |m|
    ensures forall i :: 0 <= i < |m| ==> m'[i] == MakeBranch(m[i], from, to)
  {
    seq(|m|, i requires 0 <= i < |m| && Readable(m) => MakeBranch(m[i], from, to))
  }

  /** The page visible at (r, s), or the blank page when there is none. */
  function VisiblePage<P>(h: History<P>, r: nat, s: nat, blank: P): P
    requires forall q :: q in h.parents && h.parents[q].Some? ==> h.parents[q].value.run < q
  {
    var p := Nearest(h, r, s);
    if p.Some? then h.branches[p.value.run][p.value.idx].data else blank
  }

  /** The first n pages, each as visible at (r, s). */
  function PagesAt<P>(m: Memory<P>, r: nat, s: nat, n: nat, blank: P): (pages: seq<P>)
    requires Readable(m) && n <= |m|
    ensures |pages| == n
    ensures forall i :: 0 <= i < n ==> pages[i] == VisiblePage(m[i], r, s, blank)
  {
    seq(n, i requires 0 <= i < n && n <= |m| && Readable(m) => VisiblePage(m[i], r, s, blank))
  }

  /** The state a read leaves behind: the cursors of the pages it visited have moved. */
  function Touched<P>(m: Memory<P>, r: nat, s: nat, n: nat): (m': Memory<P>)
    requires Readable(m) && n <= |m|
    ensures |m'| == |m|
    ensures forall i :: 0 <= i < n ==> m'[i] == m[i].(cursor := Nearest(m[i], r, s))
    ensures forall i :: n <= i < |m| ==> m'[i] == m[i]
  {
    seq(|m|, i requires 0 <= i < |m| && Readable(m) =>
      if i < n then m[i].(cursor := Nearest(m[i], r, s)) else m[i])
  }

  // ---- every page reads as its share of the log of whole buffers ------------------------------------------

  function Share<P>(es: seq<Entry<seq<P>>>, i: nat): seq<Entry<P>> {
    if es == [] then []
    else
      var e, f := es[|es| - 1], Share(es[..|es| - 1], i);
      if i < |e.data| then f + [Entry(e.runSeq, e.data[i])] else f
  }

  /** The writes of a log that reached page i. */
  ghost function PageLog<P>(l: Log<seq<P>>, i: nat): Log<P> {
    Log(map r | r in l.entries :: Share(l.entries[r], i), l.origins)
  }

  ghost predicate Covers<P>(l: Log<seq<P>>, n: nat) {
    forall r, k :: r in l.entries && 0 <= k < |l.entries[r]| ==> |l.entries[r][k].data| <= n
  }

  ghost predicate MemoryInv<P>(m: Memory<P>, l: Log<seq<P>>, active: nat, next: nat) {
    && Wf(l, active, next)
    && Covers(l, |m|)
    && forall i :: 0 <= i < |m| ==> PageInv(m[i], PageLog(l, i), active, next)
  }

  ghost predicate CursorsAtTip<P>(m: Memory<P>, active: nat) {
    forall i :: 0 <= i < |m| ==> OriginsBelow(AsLog(m[i]).origins) && CursorInRange(m[i]) && CursorAtTip(m[i], active)
  }

  lemma {:induction false} ShareFacts<P>(es: seq<Entry<seq<P>>>, i: nat, next: nat)
    requires Sorted(es) && forall k :: 0 <= k < |es| ==> es[k].runSeq < next
    ensures Sorted(Share(es, i)) && forall e :: e in Share(es, i) ==> e.runSeq < next
    ensures (forall k :: 0 <= k < |es| ==> |es[k].data| <= i) ==> Share(es, i) == []
  {
    if es != [] {
      var e, front := es[|es| - 1], es[..|es| - 1];
      ShareFacts(front, i, e.runSeq);
      var f := Share(front, i);
      assert forall k :: 0 <= k < |f| ==> f[k] in f;
    }
  }

  lemma PageLogWf<P>(l: Log<seq<P>>, i: nat, active: nat, next: nat)
    requires Wf(l, active, next)
    ensures Wf(PageLog(l, i), active, next)
  {
    forall r | r in l.entries ensures Sorted(Share(l.entries[r], i)) {
      var es := l.entries[r];
      ShareFacts(es, i, if es == [] then 0 else es[|es| - 1].runSeq + 1);
    }
    var es := l.entries[active];
    assert forall k :: 0 <= k < |es| ==> es[k] in es;
    ShareFacts(es, i, next);
  }

  lemma PageLogAppend<P>(l: Log<seq<P>>, i: nat, active: nat, s: nat, pages: seq<P>)
    requires active in l.entries
    ensures PageLog(Append(l, active, s, pages), i)
         == if i < |pages| then Append(PageLog(l, i), active, s, pages[i]) else PageLog(l, i)
  {
    var es := l.entries[active];
    assert (es + [Entry(s, pages)])[..|es|] == es;
    var pl := if i < |pages| then Append(PageLog(l, i), active, s, pages[i]) else PageLog(l, i);
    assert PageLog(Append(l, active, s, pages), i).entries == pl.entries;
  }

  lemma PageLogBranch<P>(l: Log<seq<P>>, i: nat, from: Point, to: nat)
    ensures PageLog(Branch(l, from, to), i) == Branch(PageLog(l, i), from, to)
  {
    assert PageLog(Branch(l, from, to), i).entries == Branch(PageLog(l, i), from, to).entries;
  }

  lemma PageWriteKeeps<P>(m: Memory<P>, l: Log<seq<P>>, active: nat, next: nat, s: nat, pages: seq<P>, i: nat)
    requires MemoryInv(m, l, active, next) && CursorsAtTip(m, active) && next <= s
    requires i < |m| || i < |pages|
    ensures var h := WritePage(m, active, s, pages, i);
      PageInv(h, PageLog(Append(l, active, s, pages), i), active, s + 1) && CursorInRange(h) && CursorAtTip(h, active)
  {
    PageLogAppend(l, i, active, s, pages);
    if i >= |m| {
      FirstPageKeeps(l, |m|, active, next, s, pages[i], i);
    } else if i < |pages| {
      UpdateKeeps(m[i], PageLog(l, i), active, next, s, pages[i]);
    }
  }

  lemma FirstPageKeeps<P>(l: Log<seq<P>>, n: nat, active: nat, next: nat, s: nat, page: P, i: nat)
    requires Wf(l, active, next) && Covers(l, n) && n <= i && next <= s
    ensures var h := FirstWrite(active, s, page);
      PageInv(h, Append(PageLog(l, i), active, s, page), active, s + 1) && CursorInRange(h) && CursorAtTip(h, active)
  {
    var pl := PageLog(l, i);
    PageLogWf(l, i, active, next);
    AppendWf(pl, active, next, s, page);
    forall r: nat | r in l.entries ensures At(pl, r) == [] {
      var es := l.entries[r];
      ShareFacts(es, i, if es == [] then 0 else es[|es| - 1].runSeq + 1);
    }
    NewKeeps(Append(pl, active, s, page), active, s, page);
  }

  /** Whatever sizes were written before, one write keeps every page equal to its share of the log. */
  lemma WriteKeeps<P>(m: Memory<P>, l: Log<seq<P>>, active: nat, next: nat, s: nat, pages: seq<P>)
    requires MemoryInv(m, l, active, next) && CursorsAtTip(m, active) && next <= s
    ensures MemoryInv(Write(m, active, s, pages), Append(l, active, s, pages), active, s + 1)
    ensures CursorsAtTip(Write(m, active, s, pages), active)
  {
    AppendWf(l, active, next, s, pages);
    forall i | 0 <= i < Max(|m|, |pages|) {
      PageWriteKeeps(m, l, active, next, s, pages, i);
    }
  }

  lemma BranchesKeep<P>(m: Memory<P>, l: Log<seq<P>>, active: nat, next: nat, from: Point)
    requires MemoryInv(m, l, active, next) && from.run <= active
    ensures MemoryInv(Branches(m, from, active + 1), Branch(l, from, active + 1), active + 1, 0)
    ensures CursorsAtTip(Branches(m, from, active + 1), active + 1)
  {
    BranchWf(l, active, next, from, active + 1);
    var m', l' := Branches(m, from, active + 1), Branch(l, from, active + 1);
    assert Covers(l', |m|);
    forall i | 0 <= i < |m| ensures PageInv(m'[i], PageLog(l', i), active + 1, 0) && CursorAtTip(m'[i], active + 1) {
      PageLogBranch(l, i, from, active + 1);
      MakeBranchKeeps(m[i], PageLog(l, i), active, next, from);
    }
  }

  /** The first write of a region, over any lineage of earlier runs that recorded nothing for it. */
  lemma FirstKeeps<P>(l: Log<seq<P>>, active: nat, s: nat, pages: seq<P>)
    requires Wf(l, active, s + 1) && At(l, active) == [Entry(s, pages)]
    requires forall r: nat :: r != active ==> At(l, r) == []
    ensures MemoryInv(Write([], active, s, pages), l, active, s + 1)
    ensures CursorsAtTip(Write([], active, s, pages), active)
  {
    var l0 := l.(entries := l.entries[active := []]);
    assert l == Append(l0, active, s, pages) by {
      assert [] + [Entry(s, pages)] == At(l, active);
      assert l.entries == Append(l0, active, s, pages).entries;
    }
    assert forall r :: r in l0.entries ==> l0.entries[r] == [] by {
      assert forall r :: r in l0.entries && r != active ==> At(l, r) == [];
    }
    WriteKeeps([], l0, active, 0, s, pages);
  }

  // ---- the pages read back --------------------------------------------------------------------------------

  lemma {:induction false} ShareLocates<P>(es: seq<Entry<seq<P>>>, i: nat, s: nat)
    requires UpperBound(es, s) > 0 && i < |es[UpperBound(es, s) - 1].data|
    ensures UpperBound(Share(es, i), s) > 0
    ensures Share(es, i)[UpperBound(Share(es, i), s) - 1].data == es[UpperBound(es, s) - 1].data[i]
  {
    var e, front := es[|es| - 1], es[..|es| - 1];
    if e.runSeq > s {
      ShareLocates(front, i, s);
    }
    if i < |e.data| {
      UpperBoundAppend(Share(front, i), Entry(e.runSeq, e.data[i]), s);
    }
  }

  lemma {:induction false} ShareEmptyBefore<P>(es: seq<Entry<seq<P>>>, i: nat, s: nat)
    requires UpperBound(es, s) == 0
    ensures UpperBound(Share(es, i), s) == 0
  {
    if es != [] {
      var e, front := es[|es| - 1], es[..|es| - 1];
      ShareEmptyBefore(front, i, s);
      if i < |e.data| {
        UpperBoundAppend(Share(front, i), Entry(e.runSeq, e.data[i]), s);
      }
    }
  }

  /** A page inside the visible buffer comes from the very same write as the buffer. */
  lemma {:induction false} PageReads<P>(l: Log<seq<P>>, i: nat, r: nat, s: nat)
    requires OriginsBelow(l.origins)
    requires Read(l, r, s).Some? && i < |Read(l, r, s).value|
    ensures Read(PageLog(l, i), r, s) == Some(Read(l, r, s).value[i])
    decreases r
  {
    if UpperBound(At(l, r), s) > 0 {
      ShareLocates(At(l, r), i, s);
    } else {
      ShareEmptyBefore(At(l, r), i, s);
      PageReads(l, i, l.origins[r].run, l.origins[r].runSeq);
    }
  }

  /**
   Reading as many pages as the buffer visible at (r, s) has never indexes past the page list, however the
   region grew or shrank before, and gives back exactly that buffer.
   */
  lemma ReadsBack<P>(m: Memory<P>, l: Log<seq<P>>, active: nat, next: nat, r: nat, s: nat, blank: P)
    requires MemoryInv(m, l, active, next) && Read(l, r, s).Some?
    ensures var pages := Read(l, r, s).value;
      |pages| <= |m| && PagesAt(m, r, s, |pages|, blank) == pages
  {
    var pages, p := Read(l, r, s).value, Locate(l, r, s);
    assert |l.entries[p.value.run][p.value.idx].data| <= |m|;
    forall i | 0 <= i < |pages| ensures VisiblePage(m[i], r, s, blank) == pages[i] {
      PageReads(l, i, r, s);
      NearestReads(m[i], PageLog(l, i), active, next, r, s);
    }
  }

  // ---- reads between a restore and its branch ---------------------------------------------------------------

  lemma {:induction false} ClimbIgnoresCursor<P>(h: History<P>, c: Option<Place>, r: nat, s: nat)
    requires Climbable(h)
    ensures Climb(h.(cursor := c), r, s) == Climb(h, r, s)
  {
    if r in h.branches && UpperBound(h.branches[r], s) == 0 && r in h.parents && h.parents[r].Some? {
      ClimbIgnoresCursor(h, c, h.parents[r].value.run, h.parents[r].value.runSeq);
    }
  }

  lemma BranchIgnoresCursor<P>(h: History<P>, c: Option<Place>, from: Point, to: nat)
    requires Climbable(h)
    ensures MakeBranch(h.(cursor := c), from, to) == MakeBranch(h, from, to)
  {
    ClimbIgnoresCursor(h, c, from.run, from.runSeq);
  }

  /** Reads disturb cursors and nothing else, and the branch that follows sets every cursor afresh. */
  lemma BranchAfterReads<P>(m: Memory<P>, r: nat, s: nat, n: nat, from: Point, to: nat)
    requires Readable(m) && n <= |m|
    ensures Readable(Touched(m, r, s, n))
    ensures Branches(Touched(m, r, s, n), from, to) == Branches(m, from, to)
  {
    forall i | 0 <= i < n {
      BranchIgnoresCursor(m[i], Nearest(m[i], r, s), from, to);
    }
  }
}

/** Bytes and pages. */
module PageBytes {
  const PAGE_SIZE := 4096

  newtype PageByte = x: int | 0 <= x < 256

  type Page = p: seq<PageByte> | |p| == PAGE_SIZE witness seq(PAGE_SIZE, _ => 0)

  function Zeros(n: nat): (z: seq<PageByte>)
    ensures |z| == n
  {
    seq(n, _ => 0)
  }

  function Blank(): Page {
    Zeros(PAGE_SIZE)
  }

  /** The whole pages of a buffer, in order (the reinterpreted span; a partial last page is not part of it). */
  function Pages(buf: seq<PageByte>): (pages: seq<Page>)
    ensures |pages| == |buf| / PAGE_SIZE
    decreases |buf|
  {
    if |buf| < PAGE_SIZE then [] else [buf[..PAGE_SIZE]] + Pages(buf[PAGE_SIZE..])
  }

  function Join(pages: seq<Page>): (buf: seq<PageByte>)
    ensures |buf| == |pages| * PAGE_SIZE
  {
    if pages == [] then [] else pages[0] + Join(pages[1..])
  }

  /** Splitting and joining is the identity exactly on buffers of whole pages. */
  lemma {:induction false} JoinPages(buf: seq<PageByte>)
    ensures Join(Pages(buf)) == buf[..|buf| / PAGE_SIZE * PAGE_SIZE]
    ensures Join(Pages(buf)) == buf <==> |buf| % PAGE_SIZE == 0
    decreases |buf|
  {
    if |buf| >= PAGE_SIZE {
      var rest := buf[PAGE_SIZE..];
      JoinPages(rest);
      assert Pages(buf)[1..] == Pages(rest);
      var n := |rest| / PAGE_SIZE * PAGE_SIZE;
      assert |buf| / PAGE_SIZE * PAGE_SIZE == PAGE_SIZE + n;
      assert buf[..PAGE_SIZE + n] == buf[..PAGE_SIZE] + rest[..n];
    }
    if |buf| % PAGE_SIZE == 0 {
      assert buf[..|buf| / PAGE_SIZE * PAGE_SIZE] == buf;
    }
  }
}

/** The mutable class; its vector holds page histories by value. */
module PersistentRegions {
  import opened Lineage
  import opened PageHistory
  import opened PagedMemory
  import opened PageBytes

  lemma JoinNext(done: seq<PageByte>, all: seq<Page>, i: nat)
    requires i < |all| && done + Join(all[i..]) == Join(all)
    ensures (done + all[i]) + Join(all[i + 1..]) == Join(all)
  {
    var rest := all[i..];
    assert rest[0] == all[i] && rest[1..] == all[i + 1..];
    Associative(done, rest[0], Join(rest[1..]));
  }

  lemma JoinDone(done: seq<PageByte>, all: seq<Page>)
    ensures [] + Join(all[0..]) == Join(all)
    ensures done + Join(all[|all|..]) == done
  {
    assert all[0..] == all && all[|all|..] == [];
  }

  lemma Associative<T>(a: seq<T>, b: seq<T>, c: seq<T>)
    ensures (a + b) + c == a + (b + c)
  {
  }

  class FullyPersistentRegion {
    var regionHistory: seq<History<Page>>

    constructor ()
      ensures regionHistory == []
    {
      regionHistory := [];
    }

    method Write(r: nat, s: nat, buf: seq<PageByte>)
      requires CursorsInRange(regionHistory)
      modifies this
      ensures regionHistory == PagedMemory.Write(old(regionHistory), r, s, Pages(buf))
    {
      var pages := Pages(buf);
      var i := 0;
      var minSize := if |regionHistory| < |pages| then |regionHistory| else |pages|;
      while i < minSize
        invariant 0 <= i <= minSize && |regionHistory| == |old(regionHistory)|
        invariant forall k :: 0 <= k < i ==> regionHistory[k] == WritePage(old(regionHistory), r, s, pages, k)
        invariant forall k :: i <= k < |regionHistory| ==> regionHistory[k] == old(regionHistory)[k]
      {
        regionHistory := regionHistory[i := Update(regionHistory[i], r, s, pages[i])];
        i := i + 1;
      }
      if |pages| > |regionHistory| {
        while i < |pages|
          invariant |old(regionHistory)| <= i == |regionHistory| <= |pages|
          invariant forall k :: 0 <= k < i ==> regionHistory[k] == WritePage(old(regionHistory), r, s, pages, k)
        {
          var newHistory := Update(NewHistory(r, s), r, s, pages[i]);
          regionHistory := regionHistory + [newHistory];
          i := i + 1;
        }
      }
    }

    method MakeBranch(from: Point, to: nat)
      requires Readable(regionHistory)
      modifies this
      ensures regionHistory == Branches(old(regionHistory), from, to)
    {
      for i := 0 to |regionHistory|
        invariant |regionHistory| == |old(regionHistory)|
        invariant forall k :: 0 <= k < i ==> regionHistory[k] == PageHistory.MakeBranch(old(regionHistory)[k], from, to)
        invariant forall k :: i <= k < |regionHistory| ==> regionHistory[k] == old(regionHistory)[k]
      {
        regionHistory := regionHistory[i := PageHistory.MakeBranch(regionHistory[i], from, to)];
      }
    }

    /** The caller's size must fit the page list; the lookup would otherwise run off its end. */
    method RegionAt(r: nat, s: nat, size: nat) returns (region: seq<PageByte>)
      requires Readable(regionHistory) && size / PAGE_SIZE <= |regionHistory|
      modifies this
      ensures regionHistory == Touched(old(regionHistory), r, s, size / PAGE_SIZE)
      ensures region == Join(PagesAt(old(regionHistory), r, s, size / PAGE_SIZE, Blank())) + Zeros(size % PAGE_SIZE)
    {
      hide Join, Zeros;
      var maxIdx := size / PAGE_SIZE;
      region := [];
      ghost var all := PagesAt(old(regionHistory), r, s, maxIdx, Blank());
      JoinDone(region, all);
      for i := 0 to maxIdx
        invariant |regionHistory| == |old(regionHistory)|
        invariant region + Join(all[i..]) == Join(all)
        invariant forall k :: 0 <= k < i ==>
          regionHistory[k] == old(regionHistory)[k].(cursor := Nearest(old(regionHistory)[k], r, s))
        invariant forall k :: i <= k < |regionHistory| ==> regionHistory[k] == old(regionHistory)[k]
      {
        var page := VisiblePage(regionHistory[i], r, s, Blank());
        regionHistory := regionHistory[i := regionHistory[i].(cursor := Nearest(regionHistory[i], r, s))];
        JoinNext(region, all, i);
        region := region + page;
      }
      JoinDone(region, all);
      region := region + Zeros(size % PAGE_SIZE);
    }
  }
}
