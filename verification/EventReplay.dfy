/** Replaying the logged events of each function and thread in order, and rewinding by sequence number. */
module Replaying {
  import opened Options
  import opened Events

  /** ends holds, per thread, the indices of the replayed calls that have not come back. */
  datatype Replayer = Replayer(log: seq<Event>, ends: map<nat, seq<nat>>)

  datatype Action = Replay(thread: nat, rip: nat) | End(thread: nat) | Reset(globalSeq: nat)

  predicate HasKey(e: Event, rip: nat, thread: nat) {
    e.rip == rip && e.thread == thread
  }

  /** The first event of a key that has not been replayed. */
  function NextOf(log: seq<Event>, rip: nat, thread: nat): (i: Option<nat>)
    ensures i.Some? ==> i.value < |log| && HasKey(log[i.value], rip, thread) && !log[i.value].replayed
  {
    if log == [] then None
    else
      var i := NextOf(log[..|log| - 1], rip, thread);
      if i.Some? then i
      else if HasKey(log[|log| - 1], rip, thread) && !log[|log| - 1].replayed then Some(|log| - 1)
      else None
  }

  lemma {:induction false} NextIsFirst(log: seq<Event>, rip: nat, thread: nat)
    ensures var i := NextOf(log, rip, thread);
      forall k :: 0 <= k < (if i.Some? then i.value else |log|) ==> !HasKey(log[k], rip, thread) || log[k].replayed
  {
    if log != [] {
      NextIsFirst(log[..|log| - 1], rip, thread);
    }
  }

  function Ends(p: Replayer, thread: nat): seq<nat> {
    if thread in p.ends then p.ends[thread] else []
  }

  function OnReplay(p: Replayer, rip: nat, thread: nat): Replayer {
    var i := NextOf(p.log, rip, thread);
    if i.None? then p
    else
      Replayer(p.log[i.value := p.log[i.value].(replayed := true)],
               if p.log[i.value].execute then p.ends[thread := Ends(p, thread) + [i.value]] else p.ends)
  }

  function OnEnd(p: Replayer, thread: nat): Replayer {
    var stack := Ends(p, thread);
    if stack == [] then p else p.(ends := p.ends[thread := stack[..|stack| - 1]])
  }

  /** Every event from index n on is to be replayed again. */
  function Cleared(log: seq<Event>, n: nat): (l: seq<Event>)
    ensures |l| == |log|
    ensures forall i :: 0 <= i < |l| ==> l[i] == if i < n then log[i] else log[i].(replayed := false)
  {
    if log == [] then []
    else Cleared(log[..|log| - 1], n) + [if |log| - 1 < n then log[|log| - 1] else log[|log| - 1].(replayed := false)]
  }

  function OnReset(p: Replayer, g: nat): Replayer {
    p.(log := Cleared(p.log, UpperBound(p.log, g)))
  }

  function Act(p: Replayer, a: Action): Replayer {
    match a
    case Replay(t, rip) => OnReplay(p, rip, t)
    case End(t) => OnEnd(p, t)
    case Reset(g) => OnReset(p, g)
  }

  function After(p: Replayer, actions: seq<Action>): Replayer {
    if actions == [] then p else Act(After(p, actions[..|actions| - 1]), actions[|actions| - 1])
  }

  // ---- a counter for each key -------------------------------------------------------------------------------------

  /** The events of a key among the first n. */
  function Rank(log: seq<Event>, rip: nat, thread: nat, n: nat): nat
    requires n <= |log|
  {
    if n == 0 then 0 else Rank(log, rip, thread, n - 1) + if HasKey(log[n - 1], rip, thread) then 1 else 0
  }

  function Min(a: nat, b: nat): nat {
    if a < b then a else b
  }

  /**
   How many events of a key have been replayed: each replay of the key advances by one until they run out, and
   a reset falls back to the events up to its sequence number. Other keys and ends do not matter.
   */
  function Count(log: seq<Event>, actions: seq<Action>, rip: nat, thread: nat): nat {
    if actions == [] then 0
    else
      var c := Count(log, actions[..|actions| - 1], rip, thread);
      match actions[|actions| - 1]
      case Replay(t, a) => if t == thread && a == rip then Min(c + 1, Rank(log, rip, thread, |log|)) else c
      case End(_) => c
      case Reset(g) => Min(c, Rank(log, rip, thread, UpperBound(log, g)))
  }

  lemma {:induction false} RankGrows(log: seq<Event>, rip: nat, thread: nat, m: nat, n: nat)
    requires m <= n <= |log|
    ensures Rank(log, rip, thread, m) <= Rank(log, rip, thread, n)
    ensures m < n && HasKey(log[m], rip, thread) ==> Rank(log, rip, thread, m) < Rank(log, rip, thread, n)
    decreases n
  {
    if m < n {
      RankGrows(log, rip, thread, m, n - 1);
    }
  }

  /** Every smaller rank is taken by an earlier event of the key. */
  lemma {:induction false} RankReached(log: seq<Event>, rip: nat, thread: nat, n: nat, c: nat) returns (k: nat)
    requires n <= |log| && c < Rank(log, rip, thread, n)
    ensures k < n && HasKey(log[k], rip, thread) && Rank(log, rip, thread, k) == c
  {
    if Rank(log, rip, thread, n - 1) == c {
      k := n - 1;
    } else {
      k := RankReached(log, rip, thread, n - 1, c);
    }
  }

  /** The replayed events of the key are its first c. */
  ghost predicate FirstReplayed(log: seq<Event>, was: seq<Event>, rip: nat, thread: nat, c: nat) {
    && SameEvents(log, was)
    && c <= Rank(log, rip, thread, |log|)
    && forall i: nat :: i < |log| && HasKey(log[i], rip, thread) ==> (was[i].replayed <==> Rank(log, rip, thread, i) < c)
  }

  ghost predicate SameEvents(log: seq<Event>, was: seq<Event>) {
    |log| == |was| && forall i :: 0 <= i < |log| ==> was[i].(replayed := false) == log[i].(replayed := false)
  }

  /** A replay of a key takes the event whose rank is the number replayed, and none when they have run out. */
  lemma ReplayTakesNext(log: seq<Event>, was: seq<Event>, rip: nat, thread: nat, c: nat)
    requires FirstReplayed(log, was, rip, thread, c)
    ensures var i := NextOf(was, rip, thread);
      && (i.Some? <==> c < Rank(log, rip, thread, |log|))
      && (i.Some? ==> Rank(log, rip, thread, i.value) == c)
  {
    var i := NextOf(was, rip, thread);
    NextIsFirst(was, rip, thread);
    if c < Rank(log, rip, thread, |log|) {
      var k := RankReached(log, rip, thread, |log|, c);
      assert HasKey(was[k], rip, thread) && !was[k].replayed;
    }
    if i.Some? {
      RankGrows(log, rip, thread, i.value, |log|);
      if Rank(log, rip, thread, i.value) > c {
        var k := RankReached(log, rip, thread, i.value, c);
      }
    }
  }

  lemma ReplayKeeps(log: seq<Event>, p: Replayer, rip: nat, thread: nat, c: nat, a: nat, t: nat)
    requires FirstReplayed(log, p.log, rip, thread, c)
    ensures FirstReplayed(log, OnReplay(p, a, t).log, rip, thread,
                          if t == thread && a == rip then Min(c + 1, Rank(log, rip, thread, |log|)) else c)
  {
    var i, was := NextOf(p.log, a, t), OnReplay(p, a, t).log;
    if t == thread && a == rip {
      ReplayTakesNext(log, p.log, rip, thread, c);
      forall k: nat | k < |log| && HasKey(log[k], rip, thread) && i.Some?
        ensures was[k].replayed <==> Rank(log, rip, thread, k) < c + 1
      {
        if k < i.value {
          RankGrows(log, rip, thread, k, i.value);
        } else if i.value < k {
          RankGrows(log, rip, thread, i.value, k);
        }
      }
      forall k: nat | k < |log| && HasKey(log[k], rip, thread) && i.None?
        ensures Rank(log, rip, thread, k) < c
      {
        RankGrows(log, rip, thread, k, |log|);
      }
    }
  }

  lemma SameUpperBound(log: seq<Event>, was: seq<Event>, g: nat)
    requires SameEvents(log, was) && Ordered(log)
    ensures UpperBound(log, g) == UpperBound(was, g)
  {
    var m, n := UpperBound(log, g), UpperBound(was, g);
    assert forall i :: 0 <= i < |log| ==> log[i].globalSeq == was[i].globalSeq;
  }

  lemma ResetKeeps(log: seq<Event>, p: Replayer, rip: nat, thread: nat, c: nat, g: nat)
    requires FirstReplayed(log, p.log, rip, thread, c) && Ordered(log)
    ensures FirstReplayed(log, OnReset(p, g).log, rip, thread, Min(c, Rank(log, rip, thread, UpperBound(log, g))))
  {
    var n, was := UpperBound(log, g), OnReset(p, g).log;
    SameUpperBound(log, p.log, g);
    forall k: nat | k < |log| && HasKey(log[k], rip, thread)
      ensures was[k].replayed <==> Rank(log, rip, thread, k) < Min(c, Rank(log, rip, thread, n))
    {
      if k < n {
        RankGrows(log, rip, thread, k, n);
      } else {
        RankGrows(log, rip, thread, n, k);
      }
    }
  }

  /**
   Whatever the interleaving of replays, ends and resets over all keys, the replayed events of each key are exactly
   its first ones, as many as its counter says.
   */
  lemma {:induction false} ReplayedIsPrefix(log: seq<Event>, actions: seq<Action>, rip: nat, thread: nat)
    requires Ordered(log) && forall i :: 0 <= i < |log| ==> !log[i].replayed
    ensures FirstReplayed(log, After(Replayer(log, map[]), actions).log, rip, thread, Count(log, actions, rip, thread))
  {
    if actions != [] {
      var front := actions[..|actions| - 1];
      ReplayedIsPrefix(log, front, rip, thread);
      var p, c := After(Replayer(log, map[]), front), Count(log, front, rip, thread);
      match actions[|actions| - 1] {
        case Replay(t, a) => ReplayKeeps(log, p, rip, thread, c, a, t);
        case End(_) =>
        case Reset(g) => ResetKeeps(log, p, rip, thread, c, g);
      }
    }
  }

  ghost predicate PrefixReplayed(log: seq<Event>) {
    forall i, j :: 0 <= i < j < |log| && HasKey(log[i], log[j].rip, log[j].thread) && log[j].replayed ==> log[i].replayed
  }

  /**
   About the list alone, as nothing is recorded after a replay: a new event keeps the replayed events of its key a prefix
   exactly when none of them comes after it.
   */
  lemma InsertKeepsPrefix(log: seq<Event>, e: Event)
    requires PrefixReplayed(log) && !e.replayed
    ensures PrefixReplayed(Insert(log, e)) <==>
      forall i :: 0 <= i < |log| && HasKey(log[i], e.rip, e.thread) && log[i].replayed ==> i < UpperBound(log, e.globalSeq)
  {
    var n, l := UpperBound(log, e.globalSeq), Insert(log, e);
    InsertPlaces(log, e);
    if PrefixReplayed(l) {
      forall i | 0 <= i < |log| && HasKey(log[i], e.rip, e.thread) && log[i].replayed ensures i < n {
        var j := if i < n then i else i + 1;
        assert l[j] == log[i];
      }
    }
    if forall i :: 0 <= i < |log| && HasKey(log[i], e.rip, e.thread) && log[i].replayed ==> i < n {
      forall i, j | 0 <= i < j < |l| && HasKey(l[i], l[j].rip, l[j].thread) && l[j].replayed ensures l[i].replayed {
        assert l[j] == log[if j < n then j else j - 1];
        if i != n {
          assert l[i] == log[if i < n then i else i - 1];
        }
      }
    }
  }

  class EventLog {
    var log: seq<Event>
    var pending: map<nat, seq<Event>>
    var next: nat
    var ends: map<nat, seq<nat>>

    function Recording(): Recorder
      reads this
    {
      Recorder(log, pending, next)
    }

    function Replayed(): Replayer
      reads this
    {
      Replayer(log, ends)
    }

    constructor ()
      ensures Recording() == Recorder([], map[], 0) && Replayed() == Replayer([], map[])
    {
      log, pending, next, ends := [], map[], 0, map[];
    }

    method AddEvent(e: Event)
      modifies this`log
      ensures log == Insert(old(log), e)
    {
      var n := UpperBound(log, e.globalSeq);
      log := log[..n] + [e] + log[n..];
    }

    method OnBreakpointEnter(tracked: set<nat>, rip: nat, thread: nat)
      modifies this`pending, this`next
      ensures Recording() == OnEnter(old(Recording()), tracked, thread, rip)
    {
      if rip !in tracked {
        return;
      }
      var e := Event(next, thread, rip, true, false, None);
      next := next + 1;
      pending := pending[thread := (if thread in pending then pending[thread] else []) + [e]];
    }

    method OnBreakpointReturn(thread: nat, context: nat)
      modifies this`log, this`pending
      ensures Recording() == OnReturn(old(Recording()), thread, context)
    {
      if thread !in pending || pending[thread] == [] {
        return;
      }
      var stack := pending[thread];
      AddEvent(stack[|stack| - 1].(finishedBy := Some(context)));
      pending := pending[thread := stack[..|stack| - 1]];
    }

    /** Replay the first event of the key that has not been replayed; nothing happens when there is none. */
    method ReplayEvent(rip: nat, thread: nat) returns (i: nat)
      modifies this`log, this`ends
      ensures Replayed() == OnReplay(old(Replayed()), rip, thread)
      ensures i == if NextOf(old(log), rip, thread).Some? then NextOf(old(log), rip, thread).value else |old(log)|
    {
      i := 0;
      while i < |log| && !(HasKey(log[i], rip, thread) && !log[i].replayed)
        invariant i <= |log|
        invariant forall k :: 0 <= k < i ==> !HasKey(log[k], rip, thread) || log[k].replayed
      {
        i := i + 1;
      }
      NextIsFirst(log, rip, thread);
      if i == |log| {
        return;
      }
      assert NextOf(log, rip, thread) == Some(i);
      log := log[i := log[i].(replayed := true)];
      if log[i].execute {
        ends := ends[thread := (if thread in ends then ends[thread] else []) + [i]];
      }
    }

    /** The newest replayed call of the thread that has not come back is ended. */
    method ReplayEventEnd(thread: nat) returns (ended: Option<nat>)
      modifies this`ends
      ensures Replayed() == OnEnd(old(Replayed()), thread)
      ensures var stack := Ends(old(Replayed()), thread); ended == if stack == [] then None else Some(stack[|stack| - 1])
    {
      if thread !in ends || ends[thread] == [] {
        return None;
      }
      var stack := ends[thread];
      ended := Some(stack[|stack| - 1]);
      ends := ends[thread := stack[..|stack| - 1]];
    }

    method ResetEventReplay(g: nat)
      modifies this`log
      ensures Replayed() == OnReset(old(Replayed()), g)
    {
      var i := UpperBound(log, g);
      ghost var n := i;
      while i < |log|
        invariant n <= i <= |log| == |old(log)|
        invariant forall k :: 0 <= k < |log| ==> log[k] == if n <= k < i then old(log)[k].(replayed := false) else old(log)[k]
      {
        log := log[i := log[i].(replayed := false)];
        i := i + 1;
      }
      assert log == Cleared(old(log), n);
    }
  }
}
