/** The log of recorded events: ordered insertion and the nesting of calls on each thread. */
module Events {
  import opened Options

  /** finishedBy names the return whose thread context completed the event. */
  datatype Event = Event(globalSeq: nat, thread: nat, rip: nat, execute: bool, replayed: bool, finishedBy: Option<nat>)

  ghost predicate Ordered(log: seq<Event>) {
    forall i, j :: 0 <= i < j < |log| ==> log[i].globalSeq < log[j].globalSeq
  }

  /** The first event after a sequence number. */
  function UpperBound(log: seq<Event>, g: nat): (n: nat)
    ensures n <= |log|
    ensures n > 0 ==> log[n - 1].globalSeq <= g
    ensures forall i :: n <= i < |log| ==> g < log[i].globalSeq
  {
    if log == [] then 0
    else if log[|log| - 1].globalSeq <= g then |log|
    else UpperBound(log[..|log| - 1], g)
  }

  function Insert(log: seq<Event>, e: Event): seq<Event> {
    var n := UpperBound(log, e.globalSeq);
    log[..n] + [e] + log[n..]
  }

  ghost function Numbers(events: seq<Event>): set<nat> {
    set e | e in events :: e.globalSeq
  }

  lemma NumberIn(events: seq<Event>, i: nat)
    requires i < |events|
    ensures events[i].globalSeq in Numbers(events)
  {
    assert events[i] in events;
  }

  lemma InsertPlaces(log: seq<Event>, e: Event)
    ensures var n, l := UpperBound(log, e.globalSeq), Insert(log, e);
      && |l| == |log| + 1 && l[n] == e
      && (forall i :: 0 <= i < n ==> l[i] == log[i])
      && (forall i :: n < i < |l| ==> l[i] == log[i - 1])
  {
  }

  lemma InsertAdds(log: seq<Event>, e: Event)
    ensures forall x :: x in Insert(log, e) <==> x == e || x in log
    ensures Numbers(Insert(log, e)) == Numbers(log) + {e.globalSeq}
  {
    var n := UpperBound(log, e.globalSeq);
    assert log == log[..n] + log[n..];
    assert forall x :: x in Insert(log, e) <==> x == e || x in log;
  }

  lemma InsertStrict(log: seq<Event>, e: Event, i: nat, j: nat)
    requires Ordered(log) && e.globalSeq !in Numbers(log) && i < j <= |log|
    ensures |Insert(log, e)| == |log| + 1 && Insert(log, e)[i].globalSeq < Insert(log, e)[j].globalSeq
  {
    hide Insert, Numbers;
    InsertPlaces(log, e);
    var n := UpperBound(log, e.globalSeq);
    if j == n {
      NumberIn(log, i);
      assert log[i].globalSeq <= log[n - 1].globalSeq;
    }
  }

  /** Insertion adds just that event, and keeps the order strict exactly when its sequence number is new. */
  lemma InsertOrdered(log: seq<Event>, e: Event)
    requires Ordered(log)
    ensures Ordered(Insert(log, e)) <==> e.globalSeq !in Numbers(log)
    ensures forall x :: x in Insert(log, e) <==> x == e || x in log
    ensures Numbers(Insert(log, e)) == Numbers(log) + {e.globalSeq}
  {
    InsertAdds(log, e);
    InsertPlaces(log, e);
    if e.globalSeq in Numbers(log) {
      var i :| 0 <= i < |log| && log[i].globalSeq == e.globalSeq;
      var n, l := UpperBound(log, e.globalSeq), Insert(log, e);
      assert l[i].globalSeq == l[n].globalSeq;
    } else {
      hide Insert, Numbers;
      forall i, j | 0 <= i < j < |Insert(log, e)| ensures Insert(log, e)[i].globalSeq < Insert(log, e)[j].globalSeq {
        InsertStrict(log, e, i, j);
      }
    }
  }

  lemma PushOrdered(events: seq<Event>, e: Event)
    requires Ordered(events) && forall g :: g in Numbers(events) ==> g < e.globalSeq
    ensures Ordered(events + [e]) && Numbers(events + [e]) == Numbers(events) + {e.globalSeq}
  {
    forall i | 0 <= i < |events| ensures events[i].globalSeq < e.globalSeq {
      NumberIn(events, i);
    }
    forall x ensures x in events + [e] <==> x in events || x == e {}
  }

  lemma PopOrdered(events: seq<Event>)
    requires Ordered(events) && events != []
    ensures var top, rest := events[|events| - 1], events[..|events| - 1];
      Ordered(rest) && top.globalSeq !in Numbers(rest) && Numbers(events) == Numbers(rest) + {top.globalSeq}
  {
    var top, rest := events[|events| - 1], events[..|events| - 1];
    assert events == rest + [top];
    forall x ensures x in events <==> x in rest || x == top {}
  }

  // ---- recording ---------------------------------------------------------------------------------------------------

  datatype Recorder = Recorder(log: seq<Event>, pending: map<nat, seq<Event>>, next: nat)

  /** The stops of a run: a thread enters a function that has a breakpoint, or comes back from one. */
  datatype Stop = Enter(thread: nat, rip: nat) | Return(thread: nat)

  function Pending(r: Recorder, thread: nat): seq<Event> {
    if thread in r.pending then r.pending[thread] else []
  }

  /** Only the functions that have an event class make an event, which takes the next global sequence number. */
  function OnEnter(r: Recorder, tracked: set<nat>, thread: nat, rip: nat): Recorder {
    if rip !in tracked then r
    else
      var e := Event(r.next, thread, rip, true, false, None);
      r.(pending := r.pending[thread := Pending(r, thread) + [e]], next := r.next + 1)
  }

  /** A return completes the newest pending event of its thread, whatever call it belongs to. */
  function OnReturn(r: Recorder, thread: nat, context: nat): Recorder {
    var stack := Pending(r, thread);
    if stack == [] then r
    else
      var e := stack[|stack| - 1].(finishedBy := Some(context));
      Recorder(Insert(r.log, e), r.pending[thread := stack[..|stack| - 1]], r.next)
  }

  function Process(stops: seq<Stop>, n: nat, tracked: set<nat>): Recorder
    requires n <= |stops|
  {
    if n == 0 then Recorder([], map[], 0)
    else
      var r := Process(stops, n - 1, tracked);
      match stops[n - 1]
      case Enter(t, rip) => OnEnter(r, tracked, t, rip)
      case Return(t) => OnReturn(r, t, n - 1)
  }

  // ---- the order of the log ------------------------------------------------------------------------------------------

  /** No sequence number is shared between the log and the pending stacks. */
  ghost predicate Fresh(r: Recorder) {
    && Ordered(r.log)
    && (forall g :: g in Numbers(r.log) ==> g < r.next)
    && (forall t :: t in r.pending ==> Waiting(r, t))
    && (forall t, u :: t in r.pending && u in r.pending && t != u ==> Numbers(r.pending[t]) !! Numbers(r.pending[u]))
  }

  ghost predicate Waiting(r: Recorder, t: nat)
    requires t in r.pending
  {
    && Ordered(r.pending[t])
    && Numbers(r.pending[t]) !! Numbers(r.log)
    && (forall g :: g in Numbers(r.pending[t]) ==> g < r.next)
  }

  lemma EnterFresh(r: Recorder, tracked: set<nat>, thread: nat, rip: nat)
    requires Fresh(r)
    ensures Fresh(OnEnter(r, tracked, thread, rip))
  {
    hide Ordered, Numbers;
    if rip in tracked {
      var r' := OnEnter(r, tracked, thread, rip);
      var e := Event(r.next, thread, rip, true, false, None);
      assert thread in r.pending ==> Waiting(r, thread);
      NoNumbers();
      PushOrdered(Pending(r, thread), e);
      forall t | t in r'.pending ensures Waiting(r', t) {
        assert t in r.pending ==> Waiting(r, t);
      }
    }
  }

  lemma NoNumbers()
    ensures Ordered([]) && Numbers([]) == {}
  {
  }

  lemma ReturnFresh(r: Recorder, thread: nat, context: nat)
    requires Fresh(r)
    ensures Fresh(OnReturn(r, thread, context))
    ensures forall e :: e in OnReturn(r, thread, context).log <==>
      e in r.log || (Pending(r, thread) != [] && e == Pending(r, thread)[|Pending(r, thread)| - 1].(finishedBy := Some(context)))
  {
    hide Ordered, Numbers, Insert;
    var stack := Pending(r, thread);
    if stack != [] {
      var r', e := OnReturn(r, thread, context), stack[|stack| - 1].(finishedBy := Some(context));
      assert Waiting(r, thread);
      PopOrdered(stack);
      InsertOrdered(r.log, e);
      forall t | t in r'.pending ensures Waiting(r', t) {
        assert Waiting(r, t);
      }
    }
  }

  /** The log is strictly increasing in the global sequence number, whatever the order the events finish in. */
  lemma {:induction false} LogIsOrdered(stops: seq<Stop>, n: nat, tracked: set<nat>)
    requires n <= |stops|
    ensures Fresh(Process(stops, n, tracked))
    ensures Ordered(Process(stops, n, tracked).log)
  {
    hide Fresh, OnEnter, OnReturn;
    if n == 0 {
      EmptyIsFresh();
    } else {
      LogIsOrdered(stops, n - 1, tracked);
      var r := Process(stops, n - 1, tracked);
      match stops[n - 1] {
        case Enter(t, rip) => EnterFresh(r, tracked, t, rip);
        case Return(t) => ReturnFresh(r, t, n - 1);
      }
      FreshIsOrdered(Process(stops, n, tracked));
    }
  }

  lemma EmptyIsFresh()
    ensures Fresh(Recorder([], map[], 0)) && Ordered([])
  {
  }

  lemma FreshIsOrdered(r: Recorder)
    requires Fresh(r)
    ensures Ordered(r.log)
  {
  }
}
