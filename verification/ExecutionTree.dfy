/**
 The execution tree as a value. Nodes live in an arena and a node pointer is an index: 0 is the hidden root that
 no search visits, 1 is the first recorded node. A node is its immutable record and its mutable child lists.
 */
module TreeHistory {
  import opened Options
  import opened Lineage

  datatype Rec<+T> = Rec(state: T, run: nat, runSeq: nat, parent: nat)

  /** branch_children: the children of a node, by the run they belong to. */
  type Kids = map<nat, seq<nat>>

  datatype Tree<T> = Tree(recs: seq<Rec<T>>, kids: seq<Kids>, cursor: nat)

  predicate Sized<T>(t: Tree<T>) {
    |t.recs| == |t.kids| >= 2 && t.cursor < |t.recs|
  }

  function NewTree<T>(blank: T, state: T, r: nat, s: nat): (t: Tree<T>)
    ensures Sized(t)
  {
    Tree([Rec(blank, 0, 0, 0), Rec(state, r, s, 0)], [map[r := [1]], map[]], 1)
  }

  function SetKids(kids: Kids, r: nat, l: seq<nat>): Kids {
    kids[r := l]
  }

  function KidList(kids: Kids, r: nat): seq<nat> {
    if r in kids then kids[r] else []
  }

  function AddChild<T>(t: Tree<T>, state: T, r: nat, s: nat): (t': Tree<T>)
    requires Sized(t)
    ensures Sized(t')
  {
    var c := t.cursor;
    Tree(t.recs + [Rec(state, r, s, c)],
         t.kids[c := SetKids(t.kids[c], r, KidList(t.kids[c], r) + [|t.recs|])] + [map[]],
         c)
  }

  /** The node of run r with the highest sequence number at or before s; the first such node in creation order. */
  function Best<T>(recs: seq<Rec<T>>, r: nat, s: nat): (n: Option<nat>)
    ensures n.Some? ==> 0 < n.value < |recs| && recs[n.value].run == r && recs[n.value].runSeq <= s
  {
    if |recs| <= 1 then None
    else
      var last, b := recs[|recs| - 1], Best(recs[..|recs| - 1], r, s);
      if last.run == r && last.runSeq <= s && (b.None? || last.runSeq > recs[b.value].runSeq) then Some(|recs| - 1)
      else b
  }

  predicate Carries<T>(t: Tree<T>, n: nat, r: nat)
    requires Sized(t)
  {
    0 < n < |t.recs| && r in t.kids[n] && t.recs[n].run != r
  }

  /** The node, below k, that run r branched from. */
  function Carrier<T>(t: Tree<T>, r: nat, k: nat): (n: Option<nat>)
    requires Sized(t) && k <= |t.recs|
    ensures n.Some? ==> Carries(t, n.value, r)
    ensures n.None? ==> forall m :: 0 <= m < k ==> !Carries(t, m, r)
  {
    if k == 0 then None
    else if Carries(t, k - 1, r) then Some(k - 1)
    else Carrier(t, r, k - 1)
  }

  function Find<T>(t: Tree<T>, r: nat, s: nat): (n: Option<nat>)
    requires Sized(t)
    ensures n.Some? ==> 0 < n.value < |t.recs|
  {
    var b := Best(t.recs, r, s);
    if b.Some? then b else Carrier(t, r, |t.recs|)
  }

  function StateAt<T>(t: Tree<T>, n: Option<nat>): Option<T>
    requires Sized(t) && (n.Some? ==> n.value < |t.recs|)
  {
    if n.Some? then Some(t.recs[n.value].state) else None
  }

  function GetState<T>(t: Tree<T>, r: nat, s: nat): Option<T>
    requires Sized(t)
  {
    StateAt(t, Find(t, r, s))
  }

  /** The cursor moves to the node found, or to the hidden root, and the new run gets an empty child list there. */
  function Revert<T>(t: Tree<T>, from: Point, to: nat): (t': Tree<T>)
    requires Sized(t)
    ensures Sized(t')
  {
    var n := Find(t, from.run, from.runSeq);
    var c := if n.Some? then n.value else 0;
    t.(kids := t.kids[c := SetKids(t.kids[c], to, KidList(t.kids[c], to))], cursor := c)
  }

  // ---- the tree and the log ------------------------------------------------------------------------------

  /** A later node with the first node's key. */
  predicate Shadow<T>(recs: seq<Rec<T>>, n: nat)
    requires n < |recs|
  {
    n > 1 && recs[n].run == recs[1].run && recs[n].runSeq == recs[1].runSeq
  }

  /** The entries of run r, in creation order, without the shadows. */
  function Mine<T>(recs: seq<Rec<T>>, r: nat): seq<Entry<T>> {
    if |recs| <= 1 then []
    else
      var last, rest := recs[|recs| - 1], Mine(recs[..|recs| - 1], r);
      if last.run == r && !Shadow(recs, |recs| - 1) then rest + [Entry(last.runSeq, last.state)] else rest
  }

  /** A node sits below its parent, in the list of its run; runs never decrease downwards. */
  ghost predicate Placed<T>(t: Tree<T>, n: nat)
    requires Sized(t) && 0 < n < |t.recs|
  {
    var p := t.recs[n].parent;
    && p < n
    && n in KidList(t.kids[p], t.recs[n].run)
    && (p != 0 ==> t.recs[p].run <= t.recs[n].run)
    && (n == 1 ==> p == 0)
    && (Shadow(t.recs, n) ==> p == 1)
  }

  /** What the searches rely on: a tree by parent and child lists. */
  ghost predicate Shaped<T>(t: Tree<T>) {
    && Sized(t)
    && (forall n :: 0 < n < |t.recs| ==> Placed(t, n))
    && (forall p, k :: 0 <= p < |t.recs| && k in t.kids[p] ==> KidsOf(t, p, k))
  }

  ghost predicate KidsOf<T>(t: Tree<T>, p: nat, k: nat)
    requires Sized(t) && p < |t.recs| && k in t.kids[p]
  {
    && (forall j :: 0 <= j < |t.kids[p][k]| ==>
          0 < t.kids[p][k][j] < |t.recs| && t.recs[t.kids[p][k][j]].parent == p && t.recs[t.kids[p][k][j]].run == k)
    && (forall i, j :: 0 <= i < j < |t.kids[p][k]| ==> t.kids[p][k][i] != t.kids[p][k][j])
    && (p != 0 ==> t.recs[p].run <= k)
  }

  /** Apart from shadows, no two nodes share a key. */
  ghost predicate UniqueKeys<T>(recs: seq<Rec<T>>) {
    forall i, j :: 0 < i < j < |recs| && !Shadow(recs, j) ==> recs[i].run != recs[j].run || recs[i].runSeq != recs[j].runSeq
  }

  ghost predicate Recorded<T>(t: Tree<T>, log: Log<T>, active: nat)
    requires Sized(t)
  {
    && (forall r :: r in log.entries ==> log.entries[r] == Mine(t.recs, r))
    && (forall n :: 0 < n < |t.recs| ==> t.recs[1].run <= t.recs[n].run <= active && t.recs[n].run in log.entries)
  }

  /** A run later than the tree's creation hangs off the node its origin reads, when there is one. */
  ghost predicate HungAt<T>(t: Tree<T>, log: Log<T>, r: nat)
    requires Sized(t)
  {
    r in log.origins && Carrier(t, r, |t.recs|) == Find(t, log.origins[r].run, log.origins[r].runSeq)
  }

  ghost predicate Hung<T>(t: Tree<T>, log: Log<T>, active: nat)
    requires Sized(t)
  {
    && (forall r :: t.recs[1].run < r <= active ==> HungAt(t, log, r))
    && (forall n: nat, r: nat :: Carries(t, n, r) ==> t.recs[1].run < r <= active && Carrier(t, r, |t.recs|) == Some(n))
  }

  ghost predicate CursorPlaced<T>(t: Tree<T>, active: nat)
    requires Sized(t)
  {
    t.cursor == if active == t.recs[1].run then 1
                else if Carrier(t, active, |t.recs|).Some? then Carrier(t, active, |t.recs|).value
                else 0
  }

  ghost predicate TreeInv<T>(t: Tree<T>, log: Log<T>, active: nat, next: nat) {
    && Shaped(t)
    && UniqueKeys(t.recs)
    && t.recs[1].run <= active
    && Wf(log, active, next)
    && Recorded(t, log, active)
    && Hung(t, log, active)
    && CursorPlaced(t, active)
  }

  lemma ShapedIsSized<T>(t: Tree<T>)
    requires Shaped(t)
    ensures Sized(t)
  {
  }

  lemma Laid<T>(t: Tree<T>, log: Log<T>, active: nat, next: nat)
    requires TreeInv(t, log, active, next)
    ensures Sized(t)
  {
  }

  // ---- searching agrees with reading the log ---------------------------------------------------------------

  lemma {:induction false} MineFirst<T>(recs: seq<Rec<T>>)
    requires |recs| >= 2
    ensures Mine(recs, recs[1].run) != [] && Mine(recs, recs[1].run)[0] == Entry(recs[1].runSeq, recs[1].state)
  {
    if |recs| > 2 {
      MineFirst(recs[..|recs| - 1]);
    } else {
      assert Mine(recs[..1], recs[1].run) == [];
    }
  }

  lemma {:induction false} BestIsUpperBound<T>(recs: seq<Rec<T>>, r: nat, s: nat)
    requires Sorted(Mine(recs, r))
    ensures Best(recs, r, s).Some? <==> UpperBound(Mine(recs, r), s) > 0
    ensures var b, es := Best(recs, r, s), Mine(recs, r);
      b.Some? ==> Entry(recs[b.value].runSeq, recs[b.value].state) == es[UpperBound(es, s) - 1]
  {
    hide Sorted, UpperBound;
    if |recs| <= 1 {
      assert UpperBound<T>([], s) == 0 by { NoUpperBound<T>(s); }
    } else {
      var front, e := recs[..|recs| - 1], Entry(recs[|recs| - 1].runSeq, recs[|recs| - 1].state);
      var es := Mine(front, r);
      if recs[|recs| - 1].run == r && !Shadow(recs, |recs| - 1) {
        assert Mine(recs, r) == es + [e];
        SortedFront(es, e);
        BestIsUpperBound(front, r, s);
        UpperBoundAppend(es, e, s);
        UpperBoundInside(es, e, s);
      } else {
        BestIsUpperBound(front, r, s);
        if recs[|recs| - 1].run == r {
          ShadowNeverBest(recs, s);
        }
      }
    }
  }

  lemma NoUpperBound<D>(s: nat)
    ensures UpperBound<D>([], s) == 0
  {
  }

  /** The bound of the front is below an entry that is appended. */
  lemma UpperBoundInside<D>(es: seq<Entry<D>>, e: Entry<D>, s: nat)
    requires forall i :: 0 <= i < |es| ==> es[i].runSeq < e.runSeq
    ensures UpperBound(es, s) > 0 ==> es[UpperBound(es, s) - 1].runSeq < e.runSeq && (es + [e])[UpperBound(es, s) - 1] == es[UpperBound(es, s) - 1]
  {
  }

  /** A shadow of the first node is never the best: the first node is at least as good. */
  lemma ShadowNeverBest<T>(recs: seq<Rec<T>>, s: nat)
    requires |recs| > 1 && Shadow(recs, |recs| - 1) && Sorted(Mine(recs[..|recs| - 1], recs[1].run))
    requires var b, es := Best(recs[..|recs| - 1], recs[1].run, s), Mine(recs[..|recs| - 1], recs[1].run);
      && (b.Some? <==> UpperBound(es, s) > 0)
      && (b.Some? ==> recs[b.value].runSeq == es[UpperBound(es, s) - 1].runSeq)
    ensures Best(recs, recs[1].run, s) == Best(recs[..|recs| - 1], recs[1].run, s)
    ensures Mine(recs, recs[1].run) == Mine(recs[..|recs| - 1], recs[1].run)
  {
    var front := recs[..|recs| - 1];
    var es := Mine(front, recs[1].run);
    MineFirst(front);
    UpperBoundSplits(es, s);
    hide UpperBound;
    if recs[|recs| - 1].runSeq <= s {
      assert es[0].runSeq <= es[UpperBound(es, s) - 1].runSeq;
    }
  }

  lemma SortedFront<D>(es: seq<Entry<D>>, e: Entry<D>)
    requires Sorted(es + [e])
    ensures Sorted(es) && forall i :: 0 <= i < |es| ==> es[i].runSeq < e.runSeq
  {
    var all := es + [e];
    forall i, j | 0 <= i < j < |es| ensures es[i].runSeq < es[j].runSeq {
      assert all[i].runSeq < all[j].runSeq;
    }
    forall i | 0 <= i < |es| ensures es[i].runSeq < e.runSeq {
      assert all[i].runSeq < all[|es|].runSeq;
    }
  }

  /** The pruned one-hop search of the tree reads what the full climb of the lineage log reads, from every point. */
  lemma {:induction false} TreeReads<T>(t: Tree<T>, log: Log<T>, active: nat, next: nat, r: nat, s: nat)
    requires TreeInv(t, log, active, next)
    ensures GetState(t, r, s) == Read(log, r, s)
    decreases r
  {
    if r in log.entries {
      BestIsUpperBound(t.recs, r, s);
    }
    if Best(t.recs, r, s).None? {
      if t.recs[1].run < r <= active {
        assert HungAt(t, log, r);
        TreeReads(t, log, active, next, log.origins[r].run, log.origins[r].runSeq);
      } else {
        assert Carrier(t, r, |t.recs|) == None;
        if r in log.origins {
          BelowFirst(t, log, active, next, log.origins[r].run, log.origins[r].runSeq);
        }
      }
    }
  }

  lemma BelowFirst<T>(t: Tree<T>, log: Log<T>, active: nat, next: nat, r: nat, s: nat)
    requires TreeInv(t, log, active, next) && r < t.recs[1].run
    ensures Locate(log, r, s) == None
  {
    forall q: nat | q < t.recs[1].run ensures At(log, q) == [] {
      MineBelowFirst(t.recs, q);
    }
    NothingBelow(log, t.recs[1].run, r, s);
  }

  lemma {:induction false} MineBelowFirst<T>(recs: seq<Rec<T>>, q: nat)
    requires forall n :: 0 < n < |recs| ==> recs[n].run != q
    ensures Mine(recs, q) == []
  {
    if |recs| > 1 {
      MineBelowFirst(recs[..|recs| - 1], q);
    }
  }

  // ---- every step keeps the invariant --------------------------------------------------------------------

  lemma NewTreeKeeps<T>(blank: T, state: T, log: Log<T>, active: nat, s: nat)
    requires Wf(log, active, s + 1) && At(log, active) == [Entry(s, state)]
    requires forall r: nat :: r != active ==> At(log, r) == []
    ensures TreeInv(NewTree(blank, state, active, s), log, active, s + 1)
  {
    var t := NewTree(blank, state, active, s);
    NewTreeRecorded(blank, state, log, active, s);
    assert Carrier(t, active, 2) == Carrier(t, active, 1) == None;
  }

  lemma NewTreeRecorded<T>(blank: T, state: T, log: Log<T>, active: nat, s: nat)
    requires Wf(log, active, s + 1) && At(log, active) == [Entry(s, state)]
    requires forall r: nat :: r != active ==> At(log, r) == []
    ensures Recorded(NewTree(blank, state, active, s), log, active)
  {
    var t := NewTree(blank, state, active, s);
    assert t.recs[..1] == [t.recs[0]];
    assert Mine(t.recs[..1], active) == [];
    assert Mine(t.recs, active) == [] + [Entry(s, state)];
    forall r | r in log.entries && r != active ensures log.entries[r] == Mine(t.recs, r) {
      MineBelowFirst(t.recs, r);
      assert log.entries[r] == At(log, r);
    }
  }

  lemma AddShaped<T>(t: Tree<T>, state: T, r: nat, s: nat)
    requires Shaped(t) && (t.cursor != 0 ==> t.recs[t.cursor].run <= r)
    requires r == t.recs[1].run && s == t.recs[1].runSeq ==> t.cursor == 1
    ensures Shaped(AddChild(t, state, r, s))
  {
    var t', n := AddChild(t, state, r, s), |t.recs|;
    forall p, k | 0 <= p < |t'.recs| && k in t'.kids[p] ensures KidsOf(t', p, k) {
      assert p < n && k in t.kids[p] ==> KidsOf(t, p, k);
      AddKidsOf(t, state, r, s, p, k);
    }
    forall m | 0 < m < |t'.recs| ensures Placed(t', m) {
      if m < n {
        assert Placed(t, m);
      } else {
        var l := t'.kids[t.cursor][r];
        assert l[|l| - 1] == n;
      }
    }
  }

  lemma AddKidsOf<T>(t: Tree<T>, state: T, r: nat, s: nat, p: nat, k: nat)
    requires Sized(t) && (t.cursor != 0 ==> t.recs[t.cursor].run <= r)
    requires p < |t.recs| && k in t.kids[p] ==> KidsOf(t, p, k)
    requires p < |AddChild(t, state, r, s).recs| && k in AddChild(t, state, r, s).kids[p]
    ensures KidsOf(AddChild(t, state, r, s), p, k)
  {
    var t', c, n := AddChild(t, state, r, s), t.cursor, |t.recs|;
    assert p < n;
    if p == c && k == r {
      var l := KidList(t.kids[c], r);
      assert t'.kids[c][r] == l + [n];
    } else {
      assert t'.kids[p][k] == t.kids[p][k];
    }
  }

  lemma AddFinds<T>(t: Tree<T>, state: T, r: nat, s: nat, q: nat, x: nat)
    requires Sized(t) && q != r
    ensures Find(AddChild(t, state, r, s), q, x) == Find(t, q, x)
    ensures Carrier(AddChild(t, state, r, s), q, |t.recs| + 1) == Carrier(t, q, |t.recs|)
  {
    var t' := AddChild(t, state, r, s);
    assert t'.recs[..|t.recs|] == t.recs;
    AddCarries(t, state, r, s, q, |t.recs|);
  }

  lemma {:induction false} AddCarries<T>(t: Tree<T>, state: T, r: nat, s: nat, q: nat, k: nat)
    requires Sized(t) && k <= |t.recs| && (q != r || t.cursor == 0 || Carries(t, t.cursor, r) || t.recs[t.cursor].run == r)
    ensures Carrier(AddChild(t, state, r, s), q, k) == Carrier(t, q, k)
  {
    if k > 0 {
      AddCarries(t, state, r, s, q, k - 1);
    }
  }

  /** Recording a node in the active run appends to the log. */
  lemma AddKeeps<T>(t: Tree<T>, log: Log<T>, active: nat, next: nat, s: nat, state: T)
    requires TreeInv(t, log, active, next) && next <= s
    ensures TreeInv(AddChild(t, state, active, s), Append(log, active, s, state), active, s + 1)
  {
    AppendWf(log, active, next, s, state);
    CursorRun(t, log, active, next);
    NewKeyIsNew(t, log, active, next, s);
    AddShaped(t, state, active, s);
    AddRecorded(t, log, active, s, state);
    AddUnique(t.recs, AddChild(t, state, active, s).recs);
    AddHung(t, log, Append(log, active, s, state), active, s, state);
  }

  lemma CursorRun<T>(t: Tree<T>, log: Log<T>, active: nat, next: nat)
    requires TreeInv(t, log, active, next)
    ensures t.cursor != 0 ==> t.recs[t.cursor].run <= active
    ensures t.cursor == 0 ==> active != t.recs[1].run
    ensures active == t.recs[1].run ==> t.cursor == 1
  {
  }

  lemma AddRecorded<T>(t: Tree<T>, log: Log<T>, active: nat, s: nat, state: T)
    requires Sized(t) && Recorded(t, log, active) && active in log.entries && t.recs[1].run <= active
    requires active != t.recs[1].run || s != t.recs[1].runSeq
    ensures Recorded(AddChild(t, state, active, s), Append(log, active, s, state), active)
  {
    var t', log', n := AddChild(t, state, active, s), Append(log, active, s, state), |t.recs|;
    assert t'.recs[..n] == t.recs && !Shadow(t'.recs, n);
    forall r | r in log'.entries ensures log'.entries[r] == Mine(t'.recs, r) {
      assert r in log.entries && log.entries[r] == Mine(t.recs, r);
    }
  }

  lemma AddUnique<T>(recs: seq<Rec<T>>, recs': seq<Rec<T>>)
    requires UniqueKeys(recs) && |recs| >= 2 && |recs'| == |recs| + 1 && recs'[..|recs|] == recs
    requires Shadow(recs', |recs|) || forall i :: 0 < i < |recs| ==>
      recs[i].run != recs'[|recs|].run || recs[i].runSeq != recs'[|recs|].runSeq
    ensures UniqueKeys(recs')
  {
    forall i, j | 0 < i < j < |recs'| && !Shadow(recs', j)
      ensures recs'[i].run != recs'[j].run || recs'[i].runSeq != recs'[j].runSeq
    {
      assert recs'[i] == recs[i];
      if j < |recs| {
        assert recs'[j] == recs[j] && !Shadow(recs, j);
      }
    }
  }

  lemma NewKeyIsNew<T>(t: Tree<T>, log: Log<T>, active: nat, next: nat, s: nat)
    requires TreeInv(t, log, active, next) && next <= s
    ensures forall i :: 0 < i < |t.recs| ==> t.recs[i].run != active || t.recs[i].runSeq != s
  {
    forall i | 0 < i < |t.recs| && t.recs[i].run == active ensures t.recs[i].runSeq < next {
      InMine(t.recs, i);
    }
  }

  lemma FirstKeyIsOld<T>(t: Tree<T>, log: Log<T>, active: nat, next: nat)
    requires TreeInv(t, log, active, next)
    ensures t.recs[1].run < active || (t.recs[1].run == active && t.recs[1].runSeq < next)
  {
    if t.recs[1].run == active {
      InMine(t.recs, 1);
    }
  }

  lemma {:induction false} InMine<T>(recs: seq<Rec<T>>, i: nat)
    requires 0 < i < |recs|
    ensures exists e :: e in Mine(recs, recs[i].run) && e.runSeq == recs[i].runSeq
  {
    if Shadow(recs, i) {
      MineFirst(recs);
      assert Mine(recs, recs[1].run)[0] in Mine(recs, recs[1].run);
    } else if i == |recs| - 1 {
      var es := Mine(recs, recs[i].run);
      assert es[|es| - 1] in es;
    } else {
      InMine(recs[..|recs| - 1], i);
    }
  }

  lemma AddHung<T>(t: Tree<T>, log: Log<T>, log': Log<T>, active: nat, s: nat, state: T)
    requires Sized(t) && Hung(t, log, active) && CursorPlaced(t, active) && log'.origins == log.origins
    requires OriginsBelow(log.origins)
    requires t.cursor != 0 && active == t.recs[1].run ==> t.recs[t.cursor].run == active
    ensures Hung(AddChild(t, state, active, s), log', active) && CursorPlaced(AddChild(t, state, active, s), active)
  {
    var t' := AddChild(t, state, active, s);
    forall r | t.recs[1].run < r <= active ensures HungAt(t', log', r) {
      assert HungAt(t, log, r);
      AddFinds(t, state, active, s, log.origins[r].run, log.origins[r].runSeq);
      AddCarries(t, state, active, s, r, |t.recs|);
    }
    forall n: nat, r: nat | Carries(t', n, r) ensures t.recs[1].run < r <= active && Carrier(t', r, |t'.recs|) == Some(n) {
      assert Carries(t, n, r);
      AddCarries(t, state, active, s, r, |t.recs|);
    }
    AddCarries(t, state, active, s, active, |t.recs|);
  }

  /**
   A node added at the first node's own key, while the first node is the cursor, changes nothing that any search
   can return: the first node is visited before it and ties keep the earlier node.
   */
  lemma ShadowKeeps<T>(t: Tree<T>, log: Log<T>, active: nat, next: nat, state: T)
    requires TreeInv(t, log, active, next) && active == t.recs[1].run
    ensures TreeInv(AddChild(t, state, active, t.recs[1].runSeq), log, active, next)
  {
    var s := t.recs[1].runSeq;
    var t', n := AddChild(t, state, active, s), |t.recs|;
    CursorRun(t, log, active, next);
    AddShaped(t, state, active, s);
    assert t'.recs[..n] == t.recs && Shadow(t'.recs, n);
    forall r | r in log.entries ensures log.entries[r] == Mine(t'.recs, r) {
      assert log.entries[r] == Mine(t.recs, r);
    }
    AddUnique(t.recs, t'.recs);
    AddHung(t, log, log, active, s, state);
  }

  lemma AddedInv<T>(t: Tree<T>, log: Log<T>, active: nat, next: nat, s: nat, state: T)
    requires TreeInv(t, log, active, next) && (next <= s || (active == t.recs[1].run && s == t.recs[1].runSeq))
    ensures TreeInv(AddChild(t, state, active, s), if next <= s then Append(log, active, s, state) else log,
                    active, if next <= s then s + 1 else next)
  {
    if next <= s {
      AddKeeps(t, log, active, next, s, state);
    } else {
      ShadowKeeps(t, log, active, next, state);
    }
  }

  lemma {:induction false} RevertCarries<T>(t: Tree<T>, c: nat, to: nat, q: nat, k: nat)
    requires Sized(t) && c < |t.recs| && k <= |t.recs| && q != to
    ensures Carrier(t.(kids := t.kids[c := SetKids(t.kids[c], to, KidList(t.kids[c], to))], cursor := c), q, k) == Carrier(t, q, k)
  {
    if k > 0 {
      RevertCarries(t, c, to, q, k - 1);
    }
  }

  lemma RevertShaped<T>(t: Tree<T>, from: Point, to: nat)
    requires Shaped(t) && (forall n :: 0 < n < |t.recs| ==> t.recs[n].run <= to)
    ensures Shaped(Revert(t, from, to))
  {
    var t' := Revert(t, from, to);
    forall n | 0 < n < |t'.recs| ensures Placed(t', n) {
      assert Placed(t, n);
    }
    forall p, k | 0 <= p < |t'.recs| && k in t'.kids[p] ensures KidsOf(t', p, k) {
      if k in t.kids[p] {
        assert KidsOf(t, p, k);
      }
    }
  }

  /** Reverting branches the log, whether the target exists in this tree or not. */
  lemma RevertKeeps<T>(t: Tree<T>, log: Log<T>, active: nat, next: nat, from: Point)
    requires TreeInv(t, log, active, next) && from.run <= active
    ensures TreeInv(Revert(t, from, active + 1), Branch(log, from, active + 1), active + 1, 0)
  {
    var t', log' := Revert(t, from, active + 1), Branch(log, from, active + 1);
    BranchWf(log, active, next, from, active + 1);
    RevertShaped(t, from, active + 1);
    RevertRecorded(t, log, active, from);
    RevertHung(t, log, active, from);
  }

  lemma RevertRecorded<T>(t: Tree<T>, log: Log<T>, active: nat, from: Point)
    requires Sized(t) && Recorded(t, log, active)
    ensures Recorded(Revert(t, from, active + 1), Branch(log, from, active + 1), active + 1)
  {
    var log' := Branch(log, from, active + 1);
    MineBelowFirst(t.recs, active + 1);
    forall r | r in log'.entries ensures log'.entries[r] == Mine(t.recs, r) {
      assert r == active + 1 || log.entries[r] == Mine(t.recs, r);
    }
  }

  lemma RevertHung<T>(t: Tree<T>, log: Log<T>, active: nat, from: Point)
    requires Sized(t) && Hung(t, log, active) && OriginsBelow(log.origins) && from.run <= active
    requires t.recs[1].run <= active && (forall n :: 0 < n < |t.recs| ==> t.recs[n].run <= active)
    ensures Hung(Revert(t, from, active + 1), Branch(log, from, active + 1), active + 1)
    ensures CursorPlaced(Revert(t, from, active + 1), active + 1)
  {
    var to, t', log' := active + 1, Revert(t, from, active + 1), Branch(log, from, active + 1);
    forall r | t.recs[1].run < r <= active ensures HungAt(t', log', r) {
      assert HungAt(t, log, r);
      RevertFinds(t, from, to, r, 0);
      RevertFinds(t, from, to, log.origins[r].run, log.origins[r].runSeq);
    }
    RevertFinds(t, from, to, from.run, from.runSeq);
    RevertCarrier(t, log, active, from);
    assert HungAt(t', log', to);
    forall n: nat, r: nat | Carries(t', n, r) ensures t.recs[1].run < r <= to && Carrier(t', r, |t'.recs|) == Some(n) {
      if r != to {
        assert Carries(t, n, r);
        RevertFinds(t, from, to, r, 0);
      }
    }
  }

  lemma RevertFinds<T>(t: Tree<T>, from: Point, to: nat, q: nat, x: nat)
    requires Sized(t) && q != to
    ensures Find(Revert(t, from, to), q, x) == Find(t, q, x)
    ensures Carrier(Revert(t, from, to), q, |t.recs|) == Carrier(t, q, |t.recs|)
  {
    RevertCarries(t, Revert(t, from, to).cursor, to, q, |t.recs|);
  }

  /** The fresh run hangs off exactly the node found, if any. */
  lemma RevertCarrier<T>(t: Tree<T>, log: Log<T>, active: nat, from: Point)
    requires Sized(t) && Hung(t, log, active)
    requires forall n :: 0 < n < |t.recs| ==> t.recs[n].run <= active
    ensures var t' := Revert(t, from, active + 1);
      && Carrier(t', active + 1, |t'.recs|) == Find(t, from.run, from.runSeq)
      && forall n: nat :: Carries(t', n, active + 1) ==> Some(n) == Find(t, from.run, from.runSeq)
  {
    var to, t' := active + 1, Revert(t, from, active + 1);
    var c := t'.cursor;
    forall n: nat | Carries(t', n, to) ensures n == c && c != 0 {
      assert n != c ==> Carries(t, n, to);
    }
    if c != 0 {
      assert Carries(t', c, to);
    }
  }
}

/** The mutable class: depth-first searches over an explicit stack, pruned by run id. */
module ExecutionTrees {
  import opened Options
  import opened Lineage
  import opened TreeHistory

  predicate Matches<T>(recs: seq<Rec<T>>, n: nat, r: nat, s: nat) {
    0 < n < |recs| && recs[n].run == r && recs[n].runSeq <= s
  }

  lemma {:induction false} BestIsHighest<T>(recs: seq<Rec<T>>, r: nat, s: nat)
    ensures Best(recs, r, s).None? ==> forall m :: 0 <= m < |recs| ==> !Matches(recs, m, r, s)
    ensures var b := Best(recs, r, s);
      b.Some? ==> forall m :: 0 <= m < |recs| && Matches(recs, m, r, s) ==>
        recs[m].runSeq < recs[b.value].runSeq || (recs[m].runSeq == recs[b.value].runSeq && b.value <= m)
  {
    if |recs| > 1 {
      var front := recs[..|recs| - 1];
      BestIsHighest(front, r, s);
      forall m | 0 <= m < |recs| - 1 ensures Matches(recs, m, r, s) == Matches(front, m, r, s) {}
    }
  }

  /** The highest match that is not a shadow is the one the tree's specification picks, whatever the visiting order. */
  lemma HighestIsBest<T>(recs: seq<Rec<T>>, r: nat, s: nat, n: nat)
    requires UniqueKeys(recs) && Matches(recs, n, r, s) && !Shadow(recs, n)
    requires forall m :: 0 <= m < |recs| && Matches(recs, m, r, s) ==> recs[m].runSeq <= recs[n].runSeq
    ensures Best(recs, r, s) == Some(n)
  {
    BestIsHighest(recs, r, s);
    var b := Best(recs, r, s).value;
    assert Matches(recs, b, r, s);
    assert Shadow(recs, b) ==> Matches(recs, 1, r, s);
  }

  /** Every node is done, waiting, or below a waiting or pruned one. */
  ghost predicate Searching<T>(t: Tree<T>, r: nat, stack: seq<nat>, done: set<nat>)
    requires Sized(t)
  {
    && (forall i :: 0 <= i < |stack| ==> 0 < stack[i] < |t.recs| && stack[i] !in done)
    && (forall i, j :: 0 <= i < j < |stack| ==> stack[i] != stack[j])
    && (forall m :: m in done ==> 0 < m < |t.recs|)
    && (forall m :: 0 < m < |t.recs| && t.recs[m].parent == 0 ==> m in done || m in stack)
    && (forall m :: 0 < m < |t.recs| && t.recs[m].parent in done && t.recs[m].run <= r ==> m in done || m in stack)
    && (forall m :: m in done || m in stack ==> t.recs[m].parent == 0 || t.recs[m].parent in done)
  }

  ghost predicate BestSoFar<T>(t: Tree<T>, r: nat, s: nat, done: set<nat>, best: Option<nat>)
    requires Sized(t)
  {
    match best
    case None => forall m :: m in done ==> !Matches(t.recs, m, r, s)
    case Some(b) =>
      && b in done && Matches(t.recs, b, r, s) && !Shadow(t.recs, b)
      && forall m :: m in done && Matches(t.recs, m, r, s) ==> t.recs[m].runSeq <= t.recs[b].runSeq
  }

  ghost predicate OriginSoFar<T>(t: Tree<T>, r: nat, done: set<nat>, origin: Option<nat>)
    requires Sized(t)
  {
    match origin
    case None => forall m :: m in done ==> !Carries(t, m, r)
    case Some(n) => Carries(t, n, r)
  }

  ghost predicate NoExact<T>(t: Tree<T>, r: nat, s: nat, done: set<nat>)
    requires Sized(t)
  {
    forall m :: m in done && 0 < m < |t.recs| ==> t.recs[m].run != r || t.recs[m].runSeq != s
  }

  /** The pruning loses nothing: when the stack is empty every node of a run at or before the target is done. */
  lemma {:induction false} AllDone<T>(t: Tree<T>, r: nat, done: set<nat>, m: nat)
    requires Shaped(t) && Searching(t, r, [], done) && 0 < m < |t.recs| && t.recs[m].run <= r
    ensures m in done
  {
    assert Placed(t, m);
    if t.recs[m].parent != 0 {
      AllDone(t, r, done, t.recs[m].parent);
    }
  }

  lemma SearchResult<T>(t: Tree<T>, log: Log<T>, active: nat, next: nat, r: nat, s: nat, done: set<nat>,
                        best: Option<nat>, origin: Option<nat>)
    requires TreeInv(t, log, active, next) && Searching(t, r, [], done)
    requires BestSoFar(t, r, s, done, best) && OriginSoFar(t, r, done, origin)
    ensures Find(t, r, s) == if best.Some? then best else origin
  {
    forall m | 0 < m < |t.recs| && t.recs[m].run <= r ensures m in done {
      AllDone(t, r, done, m);
    }
    if best.Some? {
      HighestIsBest(t.recs, r, s, best.value);
    } else {
      BestIsHighest(t.recs, r, s);
      if Carrier(t, r, |t.recs|).Some? {
        var c := Carrier(t, r, |t.recs|).value;
        assert KidsOf(t, c, r);
      }
    }
  }

  /** Replacing a visited node by its children on the stack keeps the search invariant. */
  lemma VisitStack<T>(t: Tree<T>, r: nat, stack: seq<nat>, done: set<nat>, node: nat, stack': seq<nat>)
    requires Shaped(t) && Searching(t, r, stack + [node], done)
    requires forall i, j :: 0 <= i < j < |stack'| ==> stack'[i] != stack'[j]
    requires forall m :: m in stack' <==> m in stack || (0 < m < |t.recs| && t.recs[m].parent == node && t.recs[m].run <= r)
    ensures Searching(t, r, stack', done + {node})
  {
    var all := stack + [node];
    assert all[|stack|] == node && node in all;
    assert node !in stack by {
      assert forall i :: 0 <= i < |stack| ==> all[i] == stack[i];
    }
    assert forall m :: m in all <==> m in stack || m == node;
    NotDone(t, r, stack, done, node);
    forall i | 0 <= i < |stack'| ensures 0 < stack'[i] < |t.recs| && stack'[i] !in done + {node} {
      assert stack'[i] in stack';
      if stack'[i] in stack {
        assert stack'[i] in all;
      }
    }
  }

  /** No child of the node about to be visited is done or waiting. */
  lemma NotDone<T>(t: Tree<T>, r: nat, stack: seq<nat>, done: set<nat>, node: nat)
    requires Shaped(t) && Searching(t, r, stack + [node], done)
    ensures 0 < node < |t.recs| && node !in done
    ensures forall m :: 0 < m < |t.recs| && t.recs[m].parent == node ==> m !in done && m !in stack && m != node
  {
    var all := stack + [node];
    assert all[|stack|] == node;
    forall m | 0 < m < |t.recs| && t.recs[m].parent == node ensures m !in done && m !in stack && m != node {
      assert Placed(t, m);
      assert m in stack ==> m in all;
    }
  }

  ghost function Below(n: nat): (nodes: set<nat>)
    ensures forall i: nat :: i in nodes <==> 0 <= i < n
  {
    if n == 0 then {} else Below(n - 1) + {n - 1}
  }

  /** Visiting a node keeps what is known of the best match; a shadow never displaces the first node. */
  lemma VisitBest<T>(t: Tree<T>, r: nat, s: nat, stack: seq<nat>, done: set<nat>, best: Option<nat>, node: nat)
    requires Shaped(t) && Searching(t, r, stack + [node], done) && BestSoFar(t, r, s, done, best)
    ensures BestSoFar(t, r, s, done + {node},
      if Matches(t.recs, node, r, s) && (best.None? || t.recs[node].runSeq > t.recs[best.value].runSeq) then Some(node) else best)
  {
    assert (stack + [node])[|stack|] == node;
    assert Placed(t, node);
    if Shadow(t.recs, node) {
      assert 1 in done;
      assert Matches(t.recs, node, r, s) ==> Matches(t.recs, 1, r, s);
    }
  }

  // The search that has no exact exit visits the first node's shadows as well, which never win.
  ghost predicate NearestProgress<T>(t: Tree<T>, r: nat, s: nat, stack: seq<nat>, done: set<nat>, best: Option<nat>, origin: Option<nat>)
    requires Sized(t)
  {
    Searching(t, r, stack, done) && BestSoFar(t, r, s, done, best) && OriginSoFar(t, r, done, origin)
  }

  ghost predicate Progress<T>(t: Tree<T>, r: nat, s: nat, stack: seq<nat>, done: set<nat>, best: Option<nat>, origin: Option<nat>)
    requires Sized(t)
  {
    NearestProgress(t, r, s, stack, done, best, origin) && NoExact(t, r, s, done)
  }

  function Better<T>(recs: seq<Rec<T>>, r: nat, s: nat, best: Option<nat>, node: nat): Option<nat>
    requires node < |recs| && (best.Some? ==> best.value < |recs|)
  {
    if recs[node].run == r && recs[node].runSeq <= s && (best.None? || recs[node].runSeq > recs[best.value].runSeq) then Some(node)
    else best
  }

  lemma FirstNearest<T>(t: Tree<T>, r: nat, s: nat, stack: seq<nat>)
    requires Shaped(t)
    requires forall i, j :: 0 <= i < j < |stack| ==> stack[i] != stack[j]
    requires forall m :: m in stack <==> 0 < m < |t.recs| && t.recs[m].parent == 0
    ensures NearestProgress(t, r, s, stack, {}, None, None)
  {
    forall i | 0 <= i < |stack| ensures 0 < stack[i] < |t.recs| {
      assert stack[i] in stack;
    }
  }

  lemma NearestTop<T>(t: Tree<T>, r: nat, s: nat, stack: seq<nat>, done: set<nat>, best: Option<nat>, origin: Option<nat>)
    requires Shaped(t) && stack != [] && NearestProgress(t, r, s, stack, done, best, origin)
    ensures var rest, node := stack[..|stack| - 1], stack[|stack| - 1];
      && stack == rest + [node] && 0 < node < |t.recs|
      && (forall i, j :: 0 <= i < j < |rest| ==> rest[i] != rest[j])
      && (forall m :: 0 < m < |t.recs| && t.recs[m].parent == node ==> m !in rest)
  {
    var rest, node := stack[..|stack| - 1], stack[|stack| - 1];
    assert stack == rest + [node];
    NotDone(t, r, rest, done, node);
  }

  lemma NearestVisit<T>(t: Tree<T>, r: nat, s: nat, stack: seq<nat>, done: set<nat>, best: Option<nat>, origin: Option<nat>,
                        node: nat, stack': seq<nat>)
    requires Shaped(t) && NearestProgress(t, r, s, stack + [node], done, best, origin) && 0 < node < |t.recs|
    requires forall i, j :: 0 <= i < j < |stack'| ==> stack'[i] != stack'[j]
    requires forall m :: m in stack' <==> m in stack || (0 < m < |t.recs| && t.recs[m].parent == node && t.recs[m].run <= r)
    ensures NearestProgress(t, r, s, stack', done + {node}, Better(t.recs, r, s, best, node),
                            if r in t.kids[node] && t.recs[node].run != r then Some(node) else origin)
    ensures Below(|t.recs|) - (done + {node}) < Below(|t.recs|) - done
  {
    NotDone(t, r, stack, done, node);
    VisitBest(t, r, s, stack, done, best, node);
    VisitStack(t, r, stack, done, node, stack');
    assert node in Below(|t.recs|) - done;
  }

  lemma VisitKeeps<T>(t: Tree<T>, r: nat, s: nat, stack: seq<nat>, done: set<nat>, best: Option<nat>, origin: Option<nat>,
                      node: nat, stack': seq<nat>)
    requires Shaped(t) && Progress(t, r, s, stack + [node], done, best, origin)
    requires 0 < node < |t.recs| && !(t.recs[node].run == r && t.recs[node].runSeq == s)
    requires forall i, j :: 0 <= i < j < |stack'| ==> stack'[i] != stack'[j]
    requires forall m :: m in stack' <==> m in stack || (0 < m < |t.recs| && t.recs[m].parent == node && t.recs[m].run <= r)
    ensures Progress(t, r, s, stack', done + {node}, Better(t.recs, r, s, best, node),
                     if r in t.kids[node] && t.recs[node].run != r then Some(node) else origin)
    ensures Below(|t.recs|) - (done + {node}) < Below(|t.recs|) - done
  {
    NearestVisit(t, r, s, stack, done, best, origin, node, stack');
  }

  lemma ExactIsBest<T>(t: Tree<T>, r: nat, s: nat, stack: seq<nat>, done: set<nat>, node: nat)
    requires Shaped(t) && UniqueKeys(t.recs) && Searching(t, r, stack + [node], done) && NoExact(t, r, s, done)
    requires 0 < node < |t.recs| && t.recs[node].run == r && t.recs[node].runSeq == s
    ensures Best(t.recs, r, s) == Some(node)
  {
    assert (stack + [node])[|stack|] == node && node in stack + [node];
    assert Placed(t, node);
    HighestIsBest(t.recs, r, s, node);
  }

  /** What popping the top of the stack may rely on. */
  lemma TopFacts<T>(t: Tree<T>, r: nat, s: nat, stack: seq<nat>, done: set<nat>, best: Option<nat>, origin: Option<nat>)
    requires Shaped(t) && UniqueKeys(t.recs) && stack != [] && Progress(t, r, s, stack, done, best, origin)
    ensures var rest, node := stack[..|stack| - 1], stack[|stack| - 1];
      && stack == rest + [node] && 0 < node < |t.recs|
      && (forall i, j :: 0 <= i < j < |rest| ==> rest[i] != rest[j])
      && (forall m :: 0 < m < |t.recs| && t.recs[m].parent == node ==> m !in rest)
      && (t.recs[node].run == r && t.recs[node].runSeq == s ==> Best(t.recs, r, s) == Some(node))
  {
    hide BestSoFar, OriginSoFar, UniqueKeys, Best, Shaped;
    var rest, node := stack[..|stack| - 1], stack[|stack| - 1];
    assert stack == rest + [node];
    NotDone(t, r, rest, done, node);
    if t.recs[node].run == r && t.recs[node].runSeq == s {
      ExactIsBest(t, r, s, rest, done, node);
    }
  }

  lemma AppendDistinct(a: seq<nat>, b: seq<nat>)
    requires forall i, j :: 0 <= i < j < |a| ==> a[i] != a[j]
    requires forall i, j :: 0 <= i < j < |b| ==> b[i] != b[j]
    requires forall i :: 0 <= i < |b| ==> b[i] !in a
    ensures forall i, j :: 0 <= i < j < |a + b| ==> (a + b)[i] != (a + b)[j]
  {
    forall i, j | 0 <= i < j < |a + b| ensures (a + b)[i] != (a + b)[j] {
      if i < |a| <= j {
        assert a[i] in a;
      }
    }
  }

  class ExecutionTree<T> {
    var recs: seq<Rec<T>>
    var kids: seq<Kids>
    var cursor: nat

    ghost var log: Log<T>
    ghost var active: nat
    ghost var next: nat

    function Value(): Tree<T>
      reads this
    {
      Tree(recs, kids, cursor)
    }

    ghost predicate Valid()
      reads this
    {
      TreeInv(Value(), log, active, next)
    }

    constructor (blank: T, state: T, r: nat, s: nat, ghost origins: map<nat, Point>)
      requires OriginsBelow(origins) && forall q :: q in origins ==> q <= r
      ensures Valid() && Value() == NewTree(blank, state, r, s)
      ensures log == Log(map[r := [Entry(s, state)]], origins) && active == r && next == s + 1
    {
      var t := NewTree(blank, state, r, s);
      recs, kids, cursor := t.recs, t.kids, t.cursor;
      log, active, next := Log(map[r := [Entry(s, state)]], origins), r, s + 1;
      new;
      NewTreeKeeps(blank, state, log, r, s);
    }

    /** A record in the active run; one at the first node's own key is never seen by any search. */
    method AddChild(state: T, r: nat, s: nat)
      requires Valid() && r == active && (next <= s || (r == recs[1].run && s == recs[1].runSeq))
      modifies this
      ensures Valid() && Value() == TreeHistory.AddChild(old(Value()), state, r, s)
      ensures active == r && log == if old(next) <= s then Append(old(log), r, s, state) else old(log)
      ensures next == if old(next) <= s then s + 1 else old(next)
    {
      ghost var t, l, floor := Value(), log, next;
      var n := |recs|;
      kids := kids[cursor := SetKids(kids[cursor], r, KidList(kids[cursor], r) + [n])] + [map[]];
      recs := recs + [Rec(state, r, s, cursor)];
      log, next := if floor <= s then Append(log, r, s, state) else log, if floor <= s then s + 1 else next;
      assert Value() == TreeHistory.AddChild(t, state, r, s);
      assert Valid() by {
        AddedInv(t, l, r, floor, s, state);
      }
    }

    /** Push the children of a node whose run passes the bound. */
    method Expand(node: nat, bound: Option<nat>, stack: seq<nat>) returns (stack': seq<nat>)
      requires Shaped(Value()) && node < |recs|
      requires forall i, j :: 0 <= i < j < |stack| ==> stack[i] != stack[j]
      requires forall m :: 0 < m < |recs| && recs[m].parent == node ==> m !in stack
      ensures forall i, j :: 0 <= i < j < |stack'| ==> stack'[i] != stack'[j]
      ensures forall m :: m in stack' <==>
        m in stack || (0 < m < |recs| && recs[m].parent == node && (bound.Some? ==> recs[m].run <= bound.value))
    {
      stack' := stack;
      var keys := kids[node].Keys;
      ghost var t := Value();
      forall m | 0 < m < |recs| && recs[m].parent == node
        ensures recs[m].run in kids[node] && m in kids[node][recs[m].run]
      {
        assert Placed(t, m);
      }
      while keys != {}
        invariant keys <= kids[node].Keys
        invariant forall i, j :: 0 <= i < j < |stack'| ==> stack'[i] != stack'[j]
        invariant forall m :: m in stack' <==>
          m in stack || (0 < m < |recs| && recs[m].parent == node && recs[m].run !in keys && (bound.Some? ==> recs[m].run <= bound.value))
        decreases keys
      {
        var k :| k in keys;
        assert KidsOf(t, node, k);
        if bound.None? || k <= bound.value {
          AppendDistinct(stack', kids[node][k]);
          stack' := stack' + kids[node][k];
        }
        keys := keys - {k};
      }
    }

    method FindNode(r: nat, s: nat) returns (found: Option<nat>)
      requires Valid()
      ensures found == Find(Value(), r, s)
      ensures TreeHistory.StateAt(Value(), found) == Read(log, r, s)
    {
      ghost var t := Value();
      TreeReads(t, log, active, next, r, s);
      var exact, best, origin;
      ghost var done;
      exact, best, origin, done := Search(r, s);
      if exact.None? {
        SearchResult(t, log, active, next, r, s, done, best, origin);
      }
      found := if exact.Some? then exact else if best.Some? then best else origin;
    }

    method Search(r: nat, s: nat) returns (exact: Option<nat>, best: Option<nat>, origin: Option<nat>, ghost done: set<nat>)
      requires Shaped(Value()) && UniqueKeys(recs)
      ensures exact.Some? ==>
        && Best(recs, r, s) == exact && 0 < exact.value < |recs|
        && recs[exact.value].run == r && recs[exact.value].runSeq == s
      ensures exact.None? ==> Progress(Value(), r, s, [], done, best, origin)
    {
      ghost var t := Value();
      var stack := Expand(0, None, []);
      exact, best, origin, done := None, None, None, {};
      FirstNearest(t, r, s, stack);
      while stack != []
        invariant Progress(t, r, s, stack, done, best, origin)
        decreases Below(|recs|) - done
      {
        TopFacts(t, r, s, stack, done, best, origin);
        var node := stack[|stack| - 1];
        stack := stack[..|stack| - 1];
        if recs[node].run == r && recs[node].runSeq == s {
          exact := Some(node);
          return;
        }
        ghost var before := stack;
        stack := Expand(node, Some(r), stack);
        VisitKeeps(t, r, s, before, done, best, origin, node, stack);
        best := Better(recs, r, s, best, node);
        if r in kids[node] && recs[node].run != r {
          origin := Some(node);
        }
        done := done + {node};
      }
    }

    method GetState(r: nat, s: nat) returns (state: Option<T>)
      requires Valid()
      ensures state == Read(log, r, s)
    {
      var found := FindNode(r, s);
      TreeReads(Value(), log, active, next, r, s);
      state := if found.Some? then Some(recs[found.value].state) else None;
    }

    /** The same search without the exact exit gives the same answer. */
    method NearestState(r: nat, s: nat) returns (state: Option<T>)
      requires Valid()
      ensures state == TreeHistory.GetState(Value(), r, s) == Read(log, r, s)
    {
      TreeReads(Value(), log, active, next, r, s);
      var best, origin;
      ghost var done;
      best, origin, done := SearchNearest(r, s);
      SearchResult(Value(), log, active, next, r, s, done, best, origin);
      var found := if best.Some? then best else origin;
      state := if found.Some? then Some(recs[found.value].state) else None;
    }

    method SearchNearest(r: nat, s: nat) returns (best: Option<nat>, origin: Option<nat>, ghost done: set<nat>)
      requires Shaped(Value())
      ensures NearestProgress(Value(), r, s, [], done, best, origin)
    {
      hide Searching, OriginSoFar, Shaped;
      ghost var t := Value();
      assert Sized(t) by { ShapedIsSized(t); }
      var stack := Expand(0, None, []);
      best, origin, done := None, None, {};
      FirstNearest(t, r, s, stack);
      while stack != []
        invariant NearestProgress(t, r, s, stack, done, best, origin)
        decreases Below(|recs|) - done
      {
        NearestTop(t, r, s, stack, done, best, origin);
        var node := stack[|stack| - 1];
        stack := stack[..|stack| - 1];
        ghost var before := stack;
        stack := Expand(node, Some(r), stack);
        NearestVisit(t, r, s, before, done, best, origin, node, stack);
        best := Better(recs, r, s, best, node);
        if r in kids[node] && recs[node].run != r {
          origin := Some(node);
        }
        done := done + {node};
      }
    }

    /** A node with exactly this key is found exactly when there is one, pruning notwithstanding. */
    method GetExactNode(r: nat, s: nat) returns (found: Option<nat>)
      requires Valid()
      ensures found.Some? <==> exists n :: 0 < n < |recs| && recs[n].run == r && recs[n].runSeq == s
      ensures found.Some? ==> found == Find(Value(), r, s)
    {
      var best, origin;
      ghost var done;
      found, best, origin, done := Search(r, s);
      if found.None? {
        forall n | 0 < n < |recs| ensures !(recs[n].run == r && recs[n].runSeq == s) {
          if recs[n].run <= r {
            AllDone(Value(), r, done, n);
          }
        }
      }
    }

    /** The cursor moves to the node found, or to the hidden root, and the new run starts there with no node of its own. */
    method RevertToState(from: Point, to: nat)
      requires Valid() && from.run <= active && to == active + 1
      modifies this
      ensures Valid() && Value() == TreeHistory.Revert(old(Value()), from, to)
      ensures log == Branch(old(log), from, to) && active == to && next == 0
    {
      hide TreeInv, Branch;
      ghost var t := Value();
      assert Sized(t) by { Laid(t, log, active, next); }
      var node := FindNode(from.run, from.runSeq);
      cursor := if node.Some? then node.value else 0;
      kids := kids[cursor := SetKids(kids[cursor], to, KidList(kids[cursor], to))];
      RevertKeeps(t, log, active, next, from);
      log, active, next := Branch(log, from, to), to, 0;
      assert Value() == TreeHistory.Revert(t, from, to);
    }
  }
}
