/** Which return finishes which event: the newest-first stack of a thread against the nesting of its calls. */
module Nesting {
  import opened Options
  import opened Events

  /** Calls minus returns of a thread over stops[i..j]. */
  function Depth(stops: seq<Stop>, t: nat, i: nat, j: nat): int
    requires i <= j <= |stops|
  {
    if i == j then 0
    else Depth(stops, t, i, j - 1) + (if stops[j - 1].thread != t then 0 else if stops[j - 1].Enter? then 1 else -1)
  }

  ghost predicate Inside(stops: seq<Stop>, i: nat, k: nat)
    requires i < k <= |stops|
  {
    Depth(stops, stops[i].thread, i + 1, k) >= 0
  }

  /** Call i has not come back before stop n. */
  ghost predicate Open(stops: seq<Stop>, i: nat, n: nat)
    requires i < n <= |stops|
  {
    stops[i].Enter? && forall k: nat :: i < k <= n ==> Inside(stops, i, k)
  }

  /** Return j comes back from call i: same thread, and every call made in between has come back. */
  ghost predicate Closes(stops: seq<Stop>, i: nat, j: nat)
    requires i < |stops| && j < |stops|
  {
    && i < j && stops[j].Return? && stops[i].thread == stops[j].thread
    && Open(stops, i, j) && Depth(stops, stops[i].thread, i + 1, j) == 0
  }

  // ---- the calls a thread has open ------------------------------------------------------------------------------------

  function Calls(stops: seq<Stop>, n: nat, t: nat): seq<nat>
    requires n <= |stops|
  {
    if n == 0 then []
    else
      var calls := Calls(stops, n - 1, t);
      if stops[n - 1].thread != t then calls
      else if stops[n - 1].Enter? then calls + [n - 1]
      else if calls == [] then [] else calls[..|calls| - 1]
  }

  ghost predicate CallAt(stops: seq<Stop>, n: nat, t: nat, calls: seq<nat>, k: nat)
    requires n <= |stops| && k < |calls|
  {
    && calls[k] < n && stops[calls[k]].thread == t && Open(stops, calls[k], n)
    && Depth(stops, t, calls[k] + 1, n) == |calls| - 1 - k
  }

  lemma {:induction false} CallsAreOpen(stops: seq<Stop>, n: nat, t: nat)
    requires n <= |stops|
    ensures forall k: nat :: k < |Calls(stops, n, t)| ==> CallAt(stops, n, t, Calls(stops, n, t), k)
  {
    if n > 0 {
      CallsAreOpen(stops, n - 1, t);
      var was, calls := Calls(stops, n - 1, t), Calls(stops, n, t);
      forall k: nat | k < |calls| ensures CallAt(stops, n, t, calls, k) {
        assert k < |was| ==> CallAt(stops, n - 1, t, was, k);
        assert Inside(stops, calls[k], n);
      }
    }
  }

  /** An open call is on the stack of its thread. */
  lemma {:induction false} OpenIsCalled(stops: seq<Stop>, i: nat, n: nat) returns (k: nat)
    requires i < n <= |stops| && Open(stops, i, n)
    ensures var calls := Calls(stops, n, stops[i].thread);
      k < |calls| && calls[k] == i && Depth(stops, stops[i].thread, i + 1, n) == |calls| - 1 - k
    decreases n
  {
    if i == n - 1 {
      k := |Calls(stops, n, stops[i].thread)| - 1;
    } else {
      k := OpenIsCalled(stops, i, n - 1);
      assert Inside(stops, i, n);
    }
  }

  /** A return comes back from the newest open call of its thread, and from none when there is none. */
  lemma ReturnCloses(stops: seq<Stop>, n: nat)
    requires n < |stops| && stops[n].Return?
    ensures var calls := Calls(stops, n, stops[n].thread);
      && (calls != [] ==> calls[|calls| - 1] < n && Closes(stops, calls[|calls| - 1], n))
      && forall i: nat :: i < |stops| && Closes(stops, i, n) ==> calls != [] && calls[|calls| - 1] == i
  {
    var calls := Calls(stops, n, stops[n].thread);
    CallsAreOpen(stops, n, stops[n].thread);
    assert calls != [] ==> CallAt(stops, n, stops[n].thread, calls, |calls| - 1);
    forall i: nat | i < |stops| && Closes(stops, i, n) ensures calls != [] && calls[|calls| - 1] == i {
      var k := OpenIsCalled(stops, i, n);
    }
  }

  // ---- the events of the calls ------------------------------------------------------------------------------------------

  predicate Tracked(stops: seq<Stop>, tracked: set<nat>, i: nat)
    requires i < |stops|
  {
    stops[i].Enter? && stops[i].rip in tracked
  }

  /** The sequence number of call i's event: the events made before it. */
  function Number(stops: seq<Stop>, tracked: set<nat>, i: nat): nat
    requires i <= |stops|
  {
    if i == 0 then 0 else Number(stops, tracked, i - 1) + if Tracked(stops, tracked, i - 1) then 1 else 0
  }

  lemma {:induction false} NumberGrows(stops: seq<Stop>, tracked: set<nat>, i: nat, j: nat)
    requires i < j <= |stops| && Tracked(stops, tracked, i)
    ensures Number(stops, tracked, i) < Number(stops, tracked, j)
    decreases j
  {
    if i < j - 1 {
      NumberGrows(stops, tracked, i, j - 1);
    }
  }

  function EventOf(stops: seq<Stop>, tracked: set<nat>, i: nat, finishedBy: Option<nat>): Event
    requires i < |stops| && Tracked(stops, tracked, i)
  {
    Event(Number(stops, tracked, i), stops[i].thread, stops[i].rip, true, false, finishedBy)
  }

  /** The pending events of the tracked calls among some open calls. */
  function EventsOf(stops: seq<Stop>, tracked: set<nat>, calls: seq<nat>): seq<Event>
    requires forall k :: 0 <= k < |calls| ==> calls[k] < |stops|
  {
    if calls == [] then []
    else
      var i, front := calls[|calls| - 1], EventsOf(stops, tracked, calls[..|calls| - 1]);
      if Tracked(stops, tracked, i) then front + [EventOf(stops, tracked, i, None)] else front
  }

  /** The event is finished by the return that comes back from the call that made it. */
  ghost predicate FinishedByOwn(stops: seq<Stop>, tracked: set<nat>, n: nat, e: Event)
    requires n <= |stops|
  {
    exists i: nat, j: nat :: i < n && j < n && Own(stops, tracked, i, j, e)
  }

  ghost predicate Own(stops: seq<Stop>, tracked: set<nat>, i: nat, j: nat, e: Event)
    requires i < |stops| && j < |stops|
  {
    Tracked(stops, tracked, i) && Closes(stops, i, j) && e == EventOf(stops, tracked, i, Some(j))
  }

  /** Return j comes back from a call that has no event while an older call of its thread that has one is open. */
  ghost predicate Steals(stops: seq<Stop>, tracked: set<nat>, j: nat)
    requires j < |stops|
  {
    exists i: nat, k: nat :: StealsFrom(stops, tracked, i, k, j)
  }

  ghost predicate StealsFrom(stops: seq<Stop>, tracked: set<nat>, i: nat, k: nat, j: nat)
    requires j < |stops|
  {
    && k < i < j && Closes(stops, i, j) && !Tracked(stops, tracked, i)
    && stops[k].thread == stops[i].thread && Tracked(stops, tracked, k) && Open(stops, k, j)
  }

  ghost predicate NoTheft(stops: seq<Stop>, tracked: set<nat>, n: nat)
    requires n <= |stops|
  {
    forall j: nat :: j < n ==> !Steals(stops, tracked, j)
  }

  lemma CallsInRange(stops: seq<Stop>, n: nat, t: nat)
    requires n <= |stops|
    ensures forall k :: 0 <= k < |Calls(stops, n, t)| ==> Calls(stops, n, t)[k] < n
  {
    CallsAreOpen(stops, n, t);
    forall k: nat | k < |Calls(stops, n, t)| ensures Calls(stops, n, t)[k] < n {
      assert CallAt(stops, n, t, Calls(stops, n, t), k);
    }
  }

  /** The newest pending event is that of the newest tracked call. */
  lemma {:induction false} NewestEvent(stops: seq<Stop>, tracked: set<nat>, calls: seq<nat>) returns (m: nat)
    requires forall k :: 0 <= k < |calls| ==> calls[k] < |stops|
    requires EventsOf(stops, tracked, calls) != []
    ensures m < |calls| && Tracked(stops, tracked, calls[m])
    ensures var events := EventsOf(stops, tracked, calls); events[|events| - 1] == EventOf(stops, tracked, calls[m], None)
    ensures m < |calls| - 1 ==> !Tracked(stops, tracked, calls[|calls| - 1])
  {
    if Tracked(stops, tracked, calls[|calls| - 1]) {
      m := |calls| - 1;
    } else {
      m := NewestEvent(stops, tracked, calls[..|calls| - 1]);
    }
  }

  lemma {:induction false} TrackedHasEvent(stops: seq<Stop>, tracked: set<nat>, calls: seq<nat>, k: nat)
    requires forall k :: 0 <= k < |calls| ==> calls[k] < |stops|
    requires k < |calls| && Tracked(stops, tracked, calls[k])
    ensures EventsOf(stops, tracked, calls) != []
  {
    if k < |calls| - 1 {
      TrackedHasEvent(stops, tracked, calls[..|calls| - 1], k);
    }
  }

  /** While nothing has been stolen the pending events of a thread are those of its open calls, oldest first. */
  ghost predicate PendingIsCalls(stops: seq<Stop>, tracked: set<nat>, n: nat, r: Recorder, t: nat)
    requires n <= |stops|
  {
    && (forall k :: 0 <= k < |Calls(stops, n, t)| ==> Calls(stops, n, t)[k] < |stops|)
    && Pending(r, t) == EventsOf(stops, tracked, Calls(stops, n, t))
  }

  ghost predicate InStep(stops: seq<Stop>, tracked: set<nat>, n: nat, r: Recorder)
    requires n <= |stops|
  {
    && r.next == Number(stops, tracked, n)
    && (forall t: nat :: PendingIsCalls(stops, tracked, n, r, t))
    && (forall e :: e in r.log ==> FinishedByOwn(stops, tracked, n, e))
    && (forall i: nat, j: nat :: i < n && j < n && Tracked(stops, tracked, i) && Closes(stops, i, j) ==>
          EventOf(stops, tracked, i, Some(j)) in r.log)
  }

  lemma EnterInStep(stops: seq<Stop>, tracked: set<nat>, n: nat, r: Recorder)
    requires n < |stops| && stops[n].Enter? && InStep(stops, tracked, n, r)
    ensures InStep(stops, tracked, n + 1, OnEnter(r, tracked, stops[n].thread, stops[n].rip))
  {
    var r' := OnEnter(r, tracked, stops[n].thread, stops[n].rip);
    hide Closes, Own;
    var m := n + 1;
    forall t: nat ensures PendingIsCalls(stops, tracked, m, r', t) {
      assert PendingIsCalls(stops, tracked, n, r, t);
      if t == stops[n].thread {
        assert Calls(stops, n + 1, t)[..|Calls(stops, n + 1, t)| - 1] == Calls(stops, n, t);
      }
    }
    forall e | e in r'.log ensures FinishedByOwn(stops, tracked, n + 1, e) {
      assert FinishedByOwn(stops, tracked, n, e);
    }
    forall i: nat, j: nat | i < n + 1 && j < n + 1 && Tracked(stops, tracked, i) && Closes(stops, i, j)
      ensures EventOf(stops, tracked, i, Some(j)) in r'.log
    {
      ClosesByReturn(stops, i, j);
    }
  }

  lemma ClosesByReturn(stops: seq<Stop>, i: nat, j: nat)
    requires i < |stops| && j < |stops| && Closes(stops, i, j)
    ensures i < j && stops[j].Return?
  {
  }

  /** What a return leaves pending, and that it takes the event of the call it comes back from unless it steals. */
  lemma ReturnPops(stops: seq<Stop>, tracked: set<nat>, n: nat, r: Recorder)
    requires n < |stops| && stops[n].Return? && InStep(stops, tracked, n, r)
    ensures var stack, calls := Pending(r, stops[n].thread), Calls(stops, n, stops[n].thread);
      && (stack == [] ==> forall i: nat :: i < n && Tracked(stops, tracked, i) ==> !Closes(stops, i, n))
      && (stack != [] ==> calls != [] && calls[|calls| - 1] < n)
      && (stack != [] && !Tracked(stops, tracked, calls[|calls| - 1]) ==> Steals(stops, tracked, n))
      && (stack != [] && Tracked(stops, tracked, calls[|calls| - 1]) ==>
            && !Steals(stops, tracked, n)
            && stack[|stack| - 1] == EventOf(stops, tracked, calls[|calls| - 1], None)
            && Closes(stops, calls[|calls| - 1], n))
      && (stack == [] ==> !Steals(stops, tracked, n))
  {
    var t := stops[n].thread;
    var stack, calls := Pending(r, t), Calls(stops, n, t);
    assert PendingIsCalls(stops, tracked, n, r, t);
    CallsInRange(stops, n, t);
    ReturnCloses(stops, n);
    CallsAreOpen(stops, n, t);
    hide Closes, Open;
    if stack != [] {
      var m := NewestEvent(stops, tracked, calls);
      assert CallAt(stops, n, t, calls, m) && CallAt(stops, n, t, calls, |calls| - 1);
      if m < |calls| - 1 {
        CallsIncrease(stops, n, t, m, |calls| - 1);
        assert StealsFrom(stops, tracked, calls[|calls| - 1], calls[m], n);
      }
    }
    forall i: nat, k: nat | StealsFrom(stops, tracked, i, k, n) ensures stack != [] && !Tracked(stops, tracked, calls[|calls| - 1]) {
      var m := OpenIsCalled(stops, k, n);
      TrackedHasEvent(stops, tracked, calls, m);
    }
    forall i: nat | i < n && Tracked(stops, tracked, i) && Closes(stops, i, n) ensures stack != [] {
      TrackedHasEvent(stops, tracked, calls, |calls| - 1);
    }
  }

  lemma {:induction false} CallsIncrease(stops: seq<Stop>, n: nat, t: nat, a: nat, b: nat)
    requires n <= |stops| && a < b < |Calls(stops, n, t)|
    ensures Calls(stops, n, t)[a] < Calls(stops, n, t)[b]
  {
    if n > 0 {
      CallsInRange(stops, n - 1, t);
      if b < |Calls(stops, n - 1, t)| {
        CallsIncrease(stops, n - 1, t, a, b);
      }
    }
  }

  lemma PendingAfterReturn(stops: seq<Stop>, tracked: set<nat>, n: nat, r: Recorder, u: nat)
    requires n < |stops| && stops[n].Return? && InStep(stops, tracked, n, r) && Fresh(r) && !Steals(stops, tracked, n)
    ensures PendingIsCalls(stops, tracked, n + 1, OnReturn(r, stops[n].thread, n), u)
  {
    var t := stops[n].thread;
    var calls := Calls(stops, n, t);
    ReturnPops(stops, tracked, n, r);
    hide Closes, Fresh, Insert, Steals;
    assert PendingIsCalls(stops, tracked, n, r, u);
    if u == t && calls != [] {
      assert Calls(stops, n + 1, t) == calls[..|calls| - 1];
    }
  }

  lemma ReturnInStep(stops: seq<Stop>, tracked: set<nat>, n: nat, r: Recorder)
    requires n < |stops| && stops[n].Return? && InStep(stops, tracked, n, r) && Fresh(r) && !Steals(stops, tracked, n)
    ensures InStep(stops, tracked, n + 1, OnReturn(r, stops[n].thread, n))
  {
    var t := stops[n].thread;
    var r', stack, calls := OnReturn(r, t, n), Pending(r, t), Calls(stops, n, t);
    ReturnPops(stops, tracked, n, r);
    ReturnFresh(r, t, n);
    ReturnCloses(stops, n);
    hide Closes, Fresh, Insert;
    var m := n + 1;
    forall u: nat ensures PendingIsCalls(stops, tracked, m, r', u) {
      PendingAfterReturn(stops, tracked, n, r, u);
    }
    hide Open, EventsOf, PendingIsCalls, OnReturn, Calls, Steals;
    forall e | e in r'.log ensures FinishedByOwn(stops, tracked, n + 1, e) {
      if e in r.log {
        assert FinishedByOwn(stops, tracked, n, e);
      } else {
        assert Own(stops, tracked, calls[|calls| - 1], n, e);
      }
    }
    forall i: nat, j: nat | i < n + 1 && j < n + 1 && Tracked(stops, tracked, i) && Closes(stops, i, j)
      ensures EventOf(stops, tracked, i, Some(j)) in r'.log
    {
      ClosesByReturn(stops, i, j);
    }
  }

  lemma EmptyInStep(stops: seq<Stop>, tracked: set<nat>)
    ensures InStep(stops, tracked, 0, Process(stops, 0, tracked))
  {
  }

  lemma {:induction false} NoTheftInStep(stops: seq<Stop>, tracked: set<nat>, n: nat)
    requires n <= |stops| && NoTheft(stops, tracked, n)
    ensures InStep(stops, tracked, n, Process(stops, n, tracked))
  {
    hide InStep, Fresh, Steals, OnEnter, OnReturn;
    if n == 0 {
      EmptyInStep(stops, tracked);
    } else {
      NoTheftInStep(stops, tracked, n - 1);
      var r := Process(stops, n - 1, tracked);
      LogIsOrdered(stops, n - 1, tracked);
      assert !Steals(stops, tracked, n - 1);
      match stops[n - 1] {
        case Enter(t, rip) => EnterInStep(stops, tracked, n - 1, r);
        case Return(t) => ReturnInStep(stops, tracked, n - 1, r);
      }
    }
  }

  lemma {:induction false} LogGrows(stops: seq<Stop>, m: nat, n: nat, tracked: set<nat>, e: Event)
    requires m <= n <= |stops| && e in Process(stops, m, tracked).log
    ensures e in Process(stops, n, tracked).log
  {
    hide Fresh, Insert, Ordered, Numbers;
    if m < n {
      LogGrows(stops, m, n - 1, tracked, e);
      LogIsOrdered(stops, n - 1, tracked);
      var r := Process(stops, n - 1, tracked);
      if stops[n - 1].Return? {
        hide OnReturn;
        ReturnFresh(r, stops[n - 1].thread, n - 1);
      }
    }
  }

  /** After the first theft the log holds an event finished by another call's return, for good. */
  lemma TheftShows(stops: seq<Stop>, tracked: set<nat>, j: nat, n: nat)
    requires j < n <= |stops| && NoTheft(stops, tracked, j) && Steals(stops, tracked, j)
    ensures exists e :: e in Process(stops, n, tracked).log && !FinishedByOwn(stops, tracked, n, e)
  {
    var c := StolenEvent(stops, tracked, j);
    var e := EventOf(stops, tracked, c, Some(j));
    LogGrows(stops, j + 1, n, tracked, e);
    hide Closes, EventOf, Process, Steals, NoTheft;
    forall i: nat, j': nat | i < n && j' < n ensures !Own(stops, tracked, i, j', e) {
      NotItsOwn(stops, tracked, c, j, i, j');
    }
  }

  /** A return that steals completes the event of a call it does not come back from. */
  lemma StolenEvent(stops: seq<Stop>, tracked: set<nat>, j: nat) returns (c: nat)
    requires j < |stops| && NoTheft(stops, tracked, j) && Steals(stops, tracked, j)
    ensures c < |stops| && Tracked(stops, tracked, c) && !Closes(stops, c, j)
    ensures EventOf(stops, tracked, c, Some(j)) in Process(stops, j + 1, tracked).log
  {
    hide Fresh, Closes, NoTheft, Insert;
    var t, r, calls := stops[j].thread, Process(stops, j, tracked), Calls(stops, j, stops[j].thread);
    NoTheftInStep(stops, tracked, j);
    LogIsOrdered(stops, j, tracked);
    StealsByReturn(stops, tracked, j);
    ReturnPops(stops, tracked, j, r);
    ReturnFresh(r, t, j);
    assert PendingIsCalls(stops, tracked, j, r, t);
    CallsInRange(stops, j, t);
    var m := NewestEvent(stops, tracked, calls);
    c := calls[m];
    ReturnCloses(stops, j);
  }

  lemma StealsByReturn(stops: seq<Stop>, tracked: set<nat>, j: nat)
    requires j < |stops| && Steals(stops, tracked, j)
    ensures stops[j].Return?
  {
  }

  lemma NotItsOwn(stops: seq<Stop>, tracked: set<nat>, k: nat, j: nat, i: nat, j': nat)
    requires k < |stops| && j < |stops| && Tracked(stops, tracked, k) && !Closes(stops, k, j) && i < |stops| && j' < |stops|
    ensures !Own(stops, tracked, i, j', EventOf(stops, tracked, k, Some(j)))
  {
    if Tracked(stops, tracked, i) {
      if i < k {
        NumberGrows(stops, tracked, i, k);
      } else if k < i {
        NumberGrows(stops, tracked, k, i);
      }
    }
  }

  /**
   Every finished event carries the context of its own call's return exactly when no call without an event comes back
   while an older call of its thread that has one is open; and then every call that came back is in the log.
   */
  lemma EachReturnFinishesItsOwn(stops: seq<Stop>, tracked: set<nat>, n: nat)
    requires n <= |stops|
    ensures NoTheft(stops, tracked, n) <==> forall e :: e in Process(stops, n, tracked).log ==> FinishedByOwn(stops, tracked, n, e)
    ensures NoTheft(stops, tracked, n) ==>
      forall i: nat, j: nat :: i < n && j < n && Tracked(stops, tracked, i) && Closes(stops, i, j) ==>
        EventOf(stops, tracked, i, Some(j)) in Process(stops, n, tracked).log
  {
    if NoTheft(stops, tracked, n) {
      NoTheftInStep(stops, tracked, n);
    } else {
      var j := FirstTheft(stops, tracked, n);
      TheftShows(stops, tracked, j, n);
    }
  }

  lemma {:induction false} FirstTheft(stops: seq<Stop>, tracked: set<nat>, n: nat) returns (j: nat)
    requires n <= |stops| && !NoTheft(stops, tracked, n)
    ensures j < n && NoTheft(stops, tracked, j) && Steals(stops, tracked, j)
  {
    if NoTheft(stops, tracked, n - 1) {
      j := n - 1;
    } else {
      j := FirstTheft(stops, tracked, n - 1);
    }
  }

  /** When every function that has a breakpoint also has an event class, nothing is ever stolen. */
  lemma AllTrackedIsSafe(stops: seq<Stop>, tracked: set<nat>, n: nat)
    requires n <= |stops| && forall i :: 0 <= i < n && stops[i].Enter? ==> stops[i].rip in tracked
    ensures NoTheft(stops, tracked, n)
  {
  }

  /** A call without an event made inside one that has an event takes over that event's completion. */
  lemma UntrackedCallSteals()
    ensures var stops := [Enter(1, 10), Enter(1, 20), Return(1), Return(1)];
      && Closes(stops, 0, 3) && Process(stops, 4, {10}).log == [Event(0, 1, 10, true, false, Some(2))]
  {
    var stops := [Enter(1, 10), Enter(1, 20), Return(1), Return(1)];
    assert Depth(stops, 1, 1, 1) == 0 && Depth(stops, 1, 1, 2) == 1 && Depth(stops, 1, 1, 3) == 0;
    forall k: nat | 0 < k <= 3 ensures Inside(stops, 0, k) {
      assert k == 1 || k == 2 || k == 3;
    }
    var r0 := Process(stops, 0, {10});
    var r1 := Process(stops, 1, {10});
    assert r1 == OnEnter(r0, {10}, 1, 10);
    assert Pending(r0, 1) + [Event(0, 1, 10, true, false, None)] == [Event(0, 1, 10, true, false, None)];
    assert r1 == Recorder([], map[1 := [Event(0, 1, 10, true, false, None)]], 1);
    var r2 := Process(stops, 2, {10});
    assert r2 == r1;
    var r3 := Process(stops, 3, {10});
    assert r3 == OnReturn(r2, 1, 2);
    assert r3.log == [Event(0, 1, 10, true, false, Some(2))] && Pending(r3, 1) == [];
  }
}
