/** Execution trees over whole runs: later records and restores leave every earlier point alone. */
module TreeTimelines {
  import opened Options
  import opened Lineage
  import opened TreeHistory

  /** A tree and the timeline it stands for. */
  datatype Versioned<T> = Versioned(tree: Tree<T>, time: Timeline<T>)

  datatype Edit<T> = Added(runSeq: nat, state: T) | Reverted(target: Point)

  ghost predicate Ok<T>(v: Versioned<T>) {
    TreeInv(v.tree, v.time.log, v.time.active, v.time.next)
  }

  /** A new key, or the very key of the first node. */
  predicate CanAdd<T>(v: Versioned<T>, s: nat) {
    v.time.next <= s || (|v.tree.recs| > 1 && v.time.active == v.tree.recs[1].run && s == v.tree.recs[1].runSeq)
  }

  predicate CanEdit<T>(v: Versioned<T>, edit: Edit<T>) {
    match edit
    case Added(s, _) => CanAdd(v, s)
    case Reverted(p) => p.run <= v.time.active
  }

  function Add<T>(v: Versioned<T>, s: nat, state: T): Versioned<T>
    requires Sized(v.tree)
  {
    Versioned(AddChild(v.tree, state, v.time.active, s),
              if v.time.next <= s then Take(v.time, Record(s, state)) else v.time)
  }

  function Undo<T>(v: Versioned<T>, p: Point): Versioned<T>
    requires Sized(v.tree)
  {
    Versioned(Revert(v.tree, p, v.time.active + 1), Take(v.time, Restore(p)))
  }

  function Apply<T>(v: Versioned<T>, edit: Edit<T>): (v': Versioned<T>)
    requires Sized(v.tree)
    ensures Sized(v'.tree)
  {
    match edit
    case Added(s, state) => Add(v, s, state)
    case Reverted(p) => Undo(v, p)
  }

  lemma OkFacts<T>(v: Versioned<T>)
    requires Ok(v)
    ensures Sized(v.tree) && Wf(v.time.log, v.time.active, v.time.next)
  {
  }

  /** A record is read from its key on in its own run, unless it is at the first node's key; no other read changes. */
  lemma AddReads<T>(v: Versioned<T>, s: nat, state: T, r: nat, q: nat)
    requires Ok(v) && CanAdd(v, s)
    ensures Sized(v.tree) && Ok(Add(v, s, state))
    ensures GetState(Add(v, s, state).tree, r, q)
         == if v.time.next <= s && r == v.time.active && s <= q then Some(state) else GetState(v.tree, r, q)
  {
    hide TreeInv, Wf, GetState, AddChild, Revert, Read;
    OkFacts(v);
    var time := v.time;
    AddedInv(v.tree, time.log, time.active, time.next, s, state);
    TreeReads(v.tree, time.log, time.active, time.next, r, q);
    var v' := Add(v, s, state);
    TreeReads(v'.tree, v'.time.log, v'.time.active, v'.time.next, r, q);
    if time.next <= s {
      AppendReads(time.log, time.active, time.next, s, state, r, q);
    }
  }

  /** A fresh run of a tree reads as the target at every sequence number, and no other run reads differently. */
  lemma RevertReads<T>(v: Versioned<T>, from: Point, r: nat, q: nat)
    requires Ok(v) && from.run <= v.time.active
    ensures Sized(v.tree) && Ok(Undo(v, from))
    ensures GetState(Undo(v, from).tree, r, q)
         == if r == v.time.active + 1 then GetState(v.tree, from.run, from.runSeq) else GetState(v.tree, r, q)
  {
    hide TreeInv, Wf, GetState, AddChild, Revert, Read;
    OkFacts(v);
    var time := v.time;
    RevertKeeps(v.tree, time.log, time.active, time.next, from);
    TreeReads(v.tree, time.log, time.active, time.next, from.run, from.runSeq);
    TreeReads(v.tree, time.log, time.active, time.next, r, q);
    TreeReads(Undo(v, from).tree, Branch(time.log, from, time.active + 1), time.active + 1, 0, r, q);
    BranchReads(time.log, time.active, time.next, from, time.active + 1, r, q);
  }

  ghost predicate CanRun<T>(v: Versioned<T>, edits: seq<Edit<T>>)
    requires Sized(v.tree)
    decreases |edits|
  {
    edits == [] || (CanEdit(v, edits[0]) && CanRun(Apply(v, edits[0]), edits[1..]))
  }

  ghost function After<T>(v: Versioned<T>, edits: seq<Edit<T>>): Versioned<T>
    requires Sized(v.tree) && CanRun(v, edits)
    decreases |edits|
  {
    if edits == [] then v else After(Apply(v, edits[0]), edits[1..])
  }

  /** Full persistence of trees: whatever is recorded or restored later, a settled point reads the same for ever. */
  lemma {:induction false} TreePersistence<T>(v: Versioned<T>, edits: seq<Edit<T>>, p: Point)
    requires Ok(v) && Sized(v.tree) && CanRun(v, edits) && Settled(v.time, p)
    ensures Ok(After(v, edits)) && Settled(After(v, edits).time, p)
    ensures Sized(After(v, edits).tree)
    ensures GetState(After(v, edits).tree, p.run, p.runSeq) == GetState(v.tree, p.run, p.runSeq)
    decreases |edits|
  {
    hide Ok;
    if edits != [] {
      match edits[0] {
        case Added(s, state) => AddReads(v, s, state, p.run, p.runSeq);
        case Reverted(q) => RevertReads(v, q, p.run, p.runSeq);
      }
      TreePersistence(Apply(v, edits[0]), edits[1..], p);
    }
  }

  // ---- two records at one key -------------------------------------------------------------------------------------------

  /** At the first node's key the first node's state is read. */
  lemma FirstIsRead<T>(v: Versioned<T>)
    requires Ok(v) && v.time.active == v.tree.recs[1].run
    ensures Sized(v.tree) && GetState(v.tree, v.time.active, v.tree.recs[1].runSeq) == Some(v.tree.recs[1].state)
  {
    var log, r, s := v.time.log, v.time.active, v.tree.recs[1].runSeq;
    TreeReads(v.tree, log, r, v.time.next, r, s);
    MineFirst(v.tree.recs);
    var es := log.entries[r];
    assert es == Mine(v.tree.recs, r) && Sorted(es);
    UpperBoundSplits(es, s);
    assert UpperBound(es, s) == 1;
  }

  /** A record is read at its own point if and only if its key is new or the first node holds the same state. */
  lemma RecordIsRead<T>(v: Versioned<T>, s: nat, state: T)
    requires Ok(v) && CanAdd(v, s)
    ensures Sized(v.tree) && Sized(Add(v, s, state).tree)
    ensures GetState(Add(v, s, state).tree, v.time.active, s) == Some(state)
       <==> v.time.next <= s || v.tree.recs[1].state == state
  {
    OkFacts(v);
    AddReads(v, s, state, v.time.active, s);
    if s < v.time.next {
      FirstIsRead(v);
    }
  }
}
