/** Replaying what was recorded: which recorded call's event each entry of a function takes. */
module RecordedReplays {
  import opened Options
  import opened Events
  import opened Nesting
  import opened Replaying

  // ---- every call's event is in the log or still pending ---------------------------------------------------------------------

  /** The event is that of call i, not replayed. */
  ghost predicate EventAt(stops: seq<Stop>, tracked: set<nat>, e: Event, i: nat)
    requires i < |stops|
  {
    Tracked(stops, tracked, i) && e.globalSeq == Number(stops, tracked, i) && HasKey(e, stops[i].rip, stops[i].thread) && !e.replayed
  }

  ghost predicate OfCall(stops: seq<Stop>, tracked: set<nat>, n: nat, e: Event)
    requires n <= |stops|
  {
    exists i: nat :: i < n && EventAt(stops, tracked, e, i)
  }

  /** Call i's event has not reached the log. */
  ghost predicate Left(stops: seq<Stop>, tracked: set<nat>, r: Recorder, i: nat)
    requires i < |stops|
  {
    Number(stops, tracked, i) in Numbers(Pending(r, stops[i].thread))
  }

  ghost predicate Accounts(stops: seq<Stop>, tracked: set<nat>, n: nat, r: Recorder)
    requires n <= |stops|
  {
    && r.next == Number(stops, tracked, n)
    && (forall e :: e in r.log ==> OfCall(stops, tracked, n, e))
    && (forall t: nat, e :: e in Pending(r, t) ==> OfCall(stops, tracked, n, e) && e.thread == t)
    && (forall i: nat :: i < n && Tracked(stops, tracked, i) ==> Number(stops, tracked, i) in Numbers(r.log) || Left(stops, tracked, r, i))
  }

  lemma OfLater(stops: seq<Stop>, tracked: set<nat>, n: nat, e: Event)
    requires n < |stops| && OfCall(stops, tracked, n, e)
    ensures OfCall(stops, tracked, n + 1, e)
  {
    var i: nat :| i < n && EventAt(stops, tracked, e, i);
    assert i < n + 1 && EventAt(stops, tracked, e, i);
  }

  lemma NumberOf(events: seq<Event>, e: Event)
    requires e in events
    ensures e.globalSeq in Numbers(events)
  {
  }

  lemma NumbersSnoc(events: seq<Event>, e: Event)
    ensures Numbers(events + [e]) == Numbers(events) + {e.globalSeq}
  {
    assert forall x :: x in events + [e] <==> x in events || x == e;
  }

  lemma EnterAccounts(stops: seq<Stop>, tracked: set<nat>, n: nat, r: Recorder)
    requires n < |stops| && stops[n].Enter? && Accounts(stops, tracked, n, r)
    ensures Accounts(stops, tracked, n + 1, OnEnter(r, tracked, stops[n].thread, stops[n].rip))
  {
    hide OfCall, Numbers;
    var m, t, r' := n + 1, stops[n].thread, OnEnter(r, tracked, stops[n].thread, stops[n].rip);
    var e := Event(r.next, t, stops[n].rip, true, false, None);
    NumbersSnoc(Pending(r, t), e);
    if Tracked(stops, tracked, n) {
      CallOf(stops, tracked, n, e);
    }
    forall x | x in r'.log ensures OfCall(stops, tracked, m, x) {
      OfLater(stops, tracked, n, x);
    }
    forall u: nat, x | x in Pending(r', u) ensures OfCall(stops, tracked, m, x) && x.thread == u {
      if x in Pending(r, u) {
        OfLater(stops, tracked, n, x);
      }
    }
  }

  lemma CallOf(stops: seq<Stop>, tracked: set<nat>, n: nat, e: Event)
    requires n < |stops| && Tracked(stops, tracked, n) && EventAt(stops, tracked, e, n)
    ensures OfCall(stops, tracked, n + 1, e)
  {
  }

  lemma ReturnAccounts(stops: seq<Stop>, tracked: set<nat>, n: nat, r: Recorder)
    requires n < |stops| && stops[n].Return? && Accounts(stops, tracked, n, r) && Fresh(r)
    ensures Accounts(stops, tracked, n + 1, OnReturn(r, stops[n].thread, n))
  {
    hide OfCall, Numbers, Insert, Fresh;
    var m, t, r' := n + 1, stops[n].thread, OnReturn(r, stops[n].thread, n);
    var stack := Pending(r, t);
    ReturnFresh(r, t, n);
    forall x | x in r'.log ensures OfCall(stops, tracked, m, x) {
      if x !in r.log {
        assert stack[|stack| - 1] in Pending(r, t);
        SameCall(stops, tracked, n, stack[|stack| - 1], Some(n));
      }
      OfLater(stops, tracked, n, x);
    }
    forall u: nat, x | x in Pending(r', u) ensures OfCall(stops, tracked, m, x) && x.thread == u {
      assert x in Pending(r, u);
      OfLater(stops, tracked, n, x);
    }
    if stack != [] {
      var top := stack[|stack| - 1];
      InsertAdds(r.log, top.(finishedBy := Some(n)));
      NumbersSnoc(stack[..|stack| - 1], top);
      assert stack == stack[..|stack| - 1] + [top];
    }
  }

  lemma SameCall(stops: seq<Stop>, tracked: set<nat>, n: nat, e: Event, finishedBy: Option<nat>)
    requires n <= |stops| && OfCall(stops, tracked, n, e)
    ensures OfCall(stops, tracked, n, e.(finishedBy := finishedBy))
  {
    var i: nat :| i < n && EventAt(stops, tracked, e, i);
    assert EventAt(stops, tracked, e.(finishedBy := finishedBy), i);
  }

  /** Whatever is recorded: each event is that of a call and not replayed, and no call's event is lost. */
  lemma {:induction false} AllAccounted(stops: seq<Stop>, tracked: set<nat>, n: nat)
    requires n <= |stops|
    ensures Accounts(stops, tracked, n, Process(stops, n, tracked))
  {
    hide Accounts, OnEnter, OnReturn;
    if n == 0 {
      NoneAccounted(stops, tracked);
    } else {
      AllAccounted(stops, tracked, n - 1);
      var r := Process(stops, n - 1, tracked);
      LogIsOrdered(stops, n - 1, tracked);
      match stops[n - 1] {
        case Enter(t, rip) => EnterAccounts(stops, tracked, n - 1, r);
        case Return(t) => ReturnAccounts(stops, tracked, n - 1, r);
      }
    }
  }

  lemma NoneAccounted(stops: seq<Stop>, tracked: set<nat>)
    ensures Accounts(stops, tracked, 0, Process(stops, 0, tracked))
  {
  }

  /** A call's event is in the log if and only if it was not left pending. */
  lemma LoggedUnlessLeft(stops: seq<Stop>, tracked: set<nat>, n: nat, i: nat)
    requires i < n <= |stops| && Tracked(stops, tracked, i)
    ensures var r := Process(stops, n, tracked); Number(stops, tracked, i) in Numbers(r.log) <==> !Left(stops, tracked, r, i)
  {
    hide OfCall, Numbers;
    var r, t := Process(stops, n, tracked), stops[i].thread;
    AllAccounted(stops, tracked, n);
    LogIsOrdered(stops, n, tracked);
    if Left(stops, tracked, r, i) {
      NoNumbers();
      assert Waiting(r, t);
    }
  }

  /** Replay works on any recording: the replayed events of each function and thread are always its first recorded ones. */
  lemma RecordedIsReplayedInOrder(stops: seq<Stop>, tracked: set<nat>, n: nat, actions: seq<Action>, rip: nat, thread: nat)
    requires n <= |stops|
    ensures var log := Process(stops, n, tracked).log;
      FirstReplayed(log, After(Replayer(log, map[]), actions).log, rip, thread, Count(log, actions, rip, thread))
  {
    hide OfCall, FirstReplayed, Count, After;
    var log := Process(stops, n, tracked).log;
    AllAccounted(stops, tracked, n);
    LogIsOrdered(stops, n, tracked);
    forall i | 0 <= i < |log| ensures !log[i].replayed {
      assert log[i] in log;
      NotReplayed(stops, tracked, n, log[i]);
    }
    ReplayedIsPrefix(log, actions, rip, thread);
  }

  lemma NotReplayed(stops: seq<Stop>, tracked: set<nat>, n: nat, e: Event)
    requires n <= |stops| && OfCall(stops, tracked, n, e)
    ensures !e.replayed
  {
  }

  // ---- the k-th entry and the k-th call --------------------------------------------------------------------------------------

  predicate CallOfKey(stops: seq<Stop>, tracked: set<nat>, i: nat, rip: nat, thread: nat)
    requires i < |stops|
  {
    Tracked(stops, tracked, i) && stops[i].rip == rip && stops[i].thread == thread
  }

  /** The calls of a key before stop i. */
  function CallRank(stops: seq<Stop>, tracked: set<nat>, rip: nat, thread: nat, i: nat): nat
    requires i <= |stops|
  {
    if i == 0 then 0 else CallRank(stops, tracked, rip, thread, i - 1) + if CallOfKey(stops, tracked, i - 1, rip, thread) then 1 else 0
  }

  /** Their events' numbers. */
  ghost function CallNumbers(stops: seq<Stop>, tracked: set<nat>, rip: nat, thread: nat, i: nat): set<nat>
    requires i <= |stops|
  {
    if i == 0 then {}
    else
      var gs := CallNumbers(stops, tracked, rip, thread, i - 1);
      if CallOfKey(stops, tracked, i - 1, rip, thread) then gs + {Number(stops, tracked, i - 1)} else gs
  }

  lemma {:induction false} CallNumberOf(stops: seq<Stop>, tracked: set<nat>, rip: nat, thread: nat, i: nat, g: nat) returns (j: nat)
    requires i <= |stops| && g in CallNumbers(stops, tracked, rip, thread, i)
    ensures j < i && CallOfKey(stops, tracked, j, rip, thread) && g == Number(stops, tracked, j)
  {
    if g in CallNumbers(stops, tracked, rip, thread, i - 1) {
      j := CallNumberOf(stops, tracked, rip, thread, i - 1, g);
    } else {
      j := i - 1;
    }
  }

  lemma {:induction false} CallNumberHas(stops: seq<Stop>, tracked: set<nat>, rip: nat, thread: nat, i: nat, j: nat)
    requires j < i <= |stops| && CallOfKey(stops, tracked, j, rip, thread)
    ensures Number(stops, tracked, j) in CallNumbers(stops, tracked, rip, thread, i)
    decreases i
  {
    if j < i - 1 {
      CallNumberHas(stops, tracked, rip, thread, i - 1, j);
    }
  }

  lemma NewCallNumber(stops: seq<Stop>, tracked: set<nat>, rip: nat, thread: nat, i: nat)
    requires i < |stops|
    ensures Number(stops, tracked, i) !in CallNumbers(stops, tracked, rip, thread, i)
  {
    hide CallNumbers, Number;
    if Number(stops, tracked, i) in CallNumbers(stops, tracked, rip, thread, i) {
      var j := CallNumberOf(stops, tracked, rip, thread, i, Number(stops, tracked, i));
      NumberGrows(stops, tracked, j, i);
    }
  }

  lemma Sizes(s: set<nat>, g: nat)
    requires g !in s
    ensures |s + {g}| == |s| + 1
  {
  }

  lemma {:induction false} CallNumbersCount(stops: seq<Stop>, tracked: set<nat>, rip: nat, thread: nat, i: nat)
    requires i <= |stops|
    ensures |CallNumbers(stops, tracked, rip, thread, i)| == CallRank(stops, tracked, rip, thread, i)
  {
    hide Number, Tracked;
    if i > 0 {
      CallNumbersCount(stops, tracked, rip, thread, i - 1);
      NewCallNumber(stops, tracked, rip, thread, i - 1);
      Sizes(CallNumbers(stops, tracked, rip, thread, i - 1), Number(stops, tracked, i - 1));
    }
  }

  /** The numbers of a key's events among the first k of the log. */
  ghost function KeyNumbers(log: seq<Event>, rip: nat, thread: nat, k: nat): set<nat>
    requires k <= |log|
  {
    if k == 0 then {}
    else
      var gs := KeyNumbers(log, rip, thread, k - 1);
      if HasKey(log[k - 1], rip, thread) then gs + {log[k - 1].globalSeq} else gs
  }

  lemma {:induction false} KeyNumberOf(log: seq<Event>, rip: nat, thread: nat, k: nat, g: nat) returns (j: nat)
    requires k <= |log| && g in KeyNumbers(log, rip, thread, k)
    ensures j < k && HasKey(log[j], rip, thread) && g == log[j].globalSeq
  {
    if g in KeyNumbers(log, rip, thread, k - 1) {
      j := KeyNumberOf(log, rip, thread, k - 1, g);
    } else {
      j := k - 1;
    }
  }

  lemma {:induction false} KeyNumberHas(log: seq<Event>, rip: nat, thread: nat, k: nat, j: nat)
    requires j < k <= |log| && HasKey(log[j], rip, thread)
    ensures log[j].globalSeq in KeyNumbers(log, rip, thread, k)
    decreases k
  {
    if j < k - 1 {
      KeyNumberHas(log, rip, thread, k - 1, j);
    }
  }

  lemma NewKeyNumber(log: seq<Event>, rip: nat, thread: nat, k: nat)
    requires k < |log| && Ordered(log)
    ensures log[k].globalSeq !in KeyNumbers(log, rip, thread, k)
  {
    hide KeyNumbers;
    if log[k].globalSeq in KeyNumbers(log, rip, thread, k) {
      var j := KeyNumberOf(log, rip, thread, k, log[k].globalSeq);
    }
  }

  lemma {:induction false} KeyNumbersCount(log: seq<Event>, rip: nat, thread: nat, k: nat)
    requires k <= |log| && Ordered(log)
    ensures |KeyNumbers(log, rip, thread, k)| == Rank(log, rip, thread, k)
  {
    hide Ordered;
    if k > 0 {
      KeyNumbersCount(log, rip, thread, k - 1);
      NewKeyNumber(log, rip, thread, k - 1);
      Sizes(KeyNumbers(log, rip, thread, k - 1), log[k - 1].globalSeq);
    }
  }

  lemma SameNumber(stops: seq<Stop>, tracked: set<nat>, i: nat, j: nat)
    requires i < |stops| && j < |stops| && Tracked(stops, tracked, i) && Tracked(stops, tracked, j)
    ensures Number(stops, tracked, i) == Number(stops, tracked, j) ==> i == j
    ensures Number(stops, tracked, i) < Number(stops, tracked, j) <==> i < j
  {
    if i < j {
      NumberGrows(stops, tracked, i, j);
    } else if j < i {
      NumberGrows(stops, tracked, j, i);
    }
  }

  /** An event with a call's number is that call's. */
  lemma EventOfNumber(stops: seq<Stop>, tracked: set<nat>, n: nat, e: Event, i: nat)
    requires n <= |stops| && OfCall(stops, tracked, n, e) && i < |stops| && Tracked(stops, tracked, i)
    requires e.globalSeq == Number(stops, tracked, i)
    ensures EventAt(stops, tracked, e, i)
  {
    var j: nat :| j < n && EventAt(stops, tracked, e, j);
    SameNumber(stops, tracked, i, j);
  }

  /** Before a call's event the log holds the events of the earlier calls of its key, but for those left pending. */
  lemma NumbersBefore(stops: seq<Stop>, tracked: set<nat>, n: nat, i: nat, k: nat)
    requires i < n <= |stops| && Tracked(stops, tracked, i)
    requires var log := Process(stops, n, tracked).log; k < |log| && log[k].globalSeq == Number(stops, tracked, i)
    ensures var log, rip, t := Process(stops, n, tracked).log, stops[i].rip, stops[i].thread;
      KeyNumbers(log, rip, t, k) == CallNumbers(stops, tracked, rip, t, i) * Numbers(log)
  {
    var log, rip, t := Process(stops, n, tracked).log, stops[i].rip, stops[i].thread;
    AllAccounted(stops, tracked, n);
    LogIsOrdered(stops, n, tracked);
    hide OfCall, Numbers, KeyNumbers, CallNumbers, Process, Fresh, Number, Ordered;
    forall g | g in KeyNumbers(log, rip, t, k) ensures g in CallNumbers(stops, tracked, rip, t, i) && g in Numbers(log) {
      var j := KeyNumberOf(log, rip, t, k, g);
      NumberIn(log, j);
      assert log[j] in log;
      Before(log, j, k);
      var c := TheCall(stops, tracked, n, log[j]);
      SameNumber(stops, tracked, c, i);
      CallNumberHas(stops, tracked, rip, t, i, c);
    }
    forall g | g in CallNumbers(stops, tracked, rip, t, i) && g in Numbers(log) ensures g in KeyNumbers(log, rip, t, k) {
      var c := CallNumberOf(stops, tracked, rip, t, i, g);
      var j := IndexOf(log, g);
      EventOfNumber(stops, tracked, n, log[j], c);
      SameNumber(stops, tracked, c, i);
      Before(log, j, k);
      KeyNumberHas(log, rip, t, k, j);
    }
  }

  lemma Before(log: seq<Event>, j: nat, k: nat)
    requires Ordered(log) && j < |log| && k < |log|
    ensures log[j].globalSeq < log[k].globalSeq <==> j < k
  {
  }

  lemma TheCall(stops: seq<Stop>, tracked: set<nat>, n: nat, e: Event) returns (i: nat)
    requires n <= |stops| && OfCall(stops, tracked, n, e)
    ensures i < n && EventAt(stops, tracked, e, i)
  {
    i :| i < n && EventAt(stops, tracked, e, i);
  }

  lemma IndexOf(log: seq<Event>, g: nat) returns (j: nat)
    requires g in Numbers(log)
    ensures j < |log| && log[j].globalSeq == g && log[j] in log
  {
    var e :| e in log && e.globalSeq == g;
    j :| j < |log| && log[j] == e;
  }

  /** No call of the key up to call i was left pending when recording stopped. */
  ghost predicate NoneLeft(stops: seq<Stop>, tracked: set<nat>, n: nat, i: nat)
    requires i < n <= |stops| && Tracked(stops, tracked, i)
  {
    forall j: nat :: j <= i && CallOfKey(stops, tracked, j, stops[i].rip, stops[i].thread) ==> !Left(stops, tracked, Process(stops, n, tracked), j)
  }

  /** Nothing is left when every number of the key up to the call's is in the log. */
  lemma NoneLeftIs(stops: seq<Stop>, tracked: set<nat>, n: nat, i: nat)
    requires i < n <= |stops| && Tracked(stops, tracked, i)
    ensures NoneLeft(stops, tracked, n, i) <==>
      CallNumbers(stops, tracked, stops[i].rip, stops[i].thread, i) + {Number(stops, tracked, i)} <= Numbers(Process(stops, n, tracked).log)
  {
    hide Numbers, CallNumbers, Process, Left, Number;
    var rip, t, r := stops[i].rip, stops[i].thread, Process(stops, n, tracked);
    if NoneLeft(stops, tracked, n, i) {
      forall g | g in CallNumbers(stops, tracked, rip, t, i) + {Number(stops, tracked, i)} ensures g in Numbers(r.log) {
        var j := i;
        if g in CallNumbers(stops, tracked, rip, t, i) {
          j := CallNumberOf(stops, tracked, rip, t, i, g);
        }
        LoggedUnlessLeft(stops, tracked, n, j);
      }
    }
    if CallNumbers(stops, tracked, rip, t, i) + {Number(stops, tracked, i)} <= Numbers(r.log) {
      forall j: nat | j <= i && CallOfKey(stops, tracked, j, rip, t) ensures !Left(stops, tracked, r, j) {
        if j < i {
          CallNumberHas(stops, tracked, rip, t, i, j);
        }
        LoggedUnlessLeft(stops, tracked, n, j);
      }
    }
  }

  /** The call's event has the call's rank if and only if nothing is left. */
  lemma RankOfCall(stops: seq<Stop>, tracked: set<nat>, n: nat, i: nat, k: nat)
    requires i < n <= |stops| && Tracked(stops, tracked, i)
    requires var log := Process(stops, n, tracked).log; k < |log| && log[k].globalSeq == Number(stops, tracked, i)
    ensures var log, rip, t := Process(stops, n, tracked).log, stops[i].rip, stops[i].thread;
      HasKey(log[k], rip, t) && (Rank(log, rip, t, k) == CallRank(stops, tracked, rip, t, i) <==> NoneLeft(stops, tracked, n, i))
  {
    hide OfCall, Numbers, KeyNumbers, CallNumbers, Process, Fresh, NoneLeft, Number;
    var log, rip, t := Process(stops, n, tracked).log, stops[i].rip, stops[i].thread;
    AllAccounted(stops, tracked, n);
    LogIsOrdered(stops, n, tracked);
    CallNumbersCount(stops, tracked, rip, t, i);
    KeyNumbersCount(log, rip, t, k);
    NumbersBefore(stops, tracked, n, i, k);
    var gs, logged := CallNumbers(stops, tracked, rip, t, i), Numbers(log);
    assert gs == gs * logged + (gs - logged);
    assert log[k] in log;
    EventOfNumber(stops, tracked, n, log[k], i);
    NumberIn(log, k);
    NoneLeftIs(stops, tracked, n, i);
  }

  /**
   After any replaying, when as many events of a call's key have been replayed as calls of the key were recorded before it:
   the next entry takes that call's own event if and only if neither it nor an earlier call of its key was left pending.
   */
  lemma EntryTakesItsCall(stops: seq<Stop>, tracked: set<nat>, n: nat, actions: seq<Action>, i: nat)
    requires i < n <= |stops| && Tracked(stops, tracked, i)
    requires Count(Process(stops, n, tracked).log, actions, stops[i].rip, stops[i].thread)
          == CallRank(stops, tracked, stops[i].rip, stops[i].thread, i)
    ensures var log, rip, t := Process(stops, n, tracked).log, stops[i].rip, stops[i].thread;
      var next := NextOf(After(Replayer(log, map[]), actions).log, rip, t);
      next.Some? && next.value < |log| && log[next.value].globalSeq == Number(stops, tracked, i)
      <==> NoneLeft(stops, tracked, n, i)
  {
    hide OfCall, Numbers, Process, Fresh, Left, After, Count, NoneLeft, Number;
    var log, rip, t := Process(stops, n, tracked).log, stops[i].rip, stops[i].thread;
    var was, c := After(Replayer(log, map[]), actions).log, Count(log, actions, rip, t);
    RecordedIsReplayedInOrder(stops, tracked, n, actions, rip, t);
    ReplayTakesNext(log, was, rip, t, c);
    var next := NextOf(was, rip, t);
    if next.Some? && log[next.value].globalSeq == Number(stops, tracked, i) {
      RankOfCall(stops, tracked, n, i, next.value);
    }
    if NoneLeft(stops, tracked, n, i) {
      NotLeft(stops, tracked, n, i);
      LoggedUnlessLeft(stops, tracked, n, i);
      var k := IndexOf(log, Number(stops, tracked, i));
      RankOfCall(stops, tracked, n, i, k);
      RankGrows(log, rip, t, k, |log|);
      RankIsOne(log, rip, t, k, next.value);
    }
  }

  lemma NotLeft(stops: seq<Stop>, tracked: set<nat>, n: nat, i: nat)
    requires i < n <= |stops| && Tracked(stops, tracked, i) && NoneLeft(stops, tracked, n, i)
    ensures !Left(stops, tracked, Process(stops, n, tracked), i)
  {
  }

  /** Two events of a key with the same rank are one. */
  lemma RankIsOne(log: seq<Event>, rip: nat, thread: nat, j: nat, k: nat)
    requires j < |log| && k < |log| && HasKey(log[j], rip, thread) && HasKey(log[k], rip, thread)
    requires Rank(log, rip, thread, j) == Rank(log, rip, thread, k)
    ensures j == k
  {
    if j < k {
      RankGrows(log, rip, thread, j, k);
    } else if k < j {
      RankGrows(log, rip, thread, k, j);
    }
  }

  // ---- a call left pending ------------------------------------------------------------------------------------------------------

  const OUTER := Event(0, 1, 0x10, true, false, None)
  const INNER := Event(1, 1, 0x10, true, false, Some(2))
  const RECURSION := [Enter(1, 0x10), Enter(1, 0x10), Return(1)]

  /** A function calls itself and recording stops before the outer call comes back: its first entry takes the inner call's event. */
  lemma OuterTakesInner()
    ensures var r := Process(RECURSION, 3, {0x10});
      && r.log == [INNER] && Left(RECURSION, {0x10}, r, 0)
      && NextOf(r.log, 0x10, 1) == Some(0) && r.log[0].globalSeq == Number(RECURSION, {0x10}, 1) != Number(RECURSION, {0x10}, 0)
  {
    var r0 := Process(RECURSION, 0, {0x10});
    var r1 := OnEnter(r0, {0x10}, 1, 0x10);
    assert Pending(r0, 1) == [] && [] + [OUTER] == [OUTER];
    assert Pending(r1, 1) == [OUTER] && r1.log == [] && r1.next == 1;
    assert Process(RECURSION, 1, {0x10}) == r1;
    var r2 := OnEnter(r1, {0x10}, 1, 0x10);
    assert Pending(r2, 1) == [OUTER, INNER.(finishedBy := None)] && r2.log == [];
    assert Process(RECURSION, 2, {0x10}) == r2;
    var r := OnReturn(r2, 1, 2);
    assert Pending(r, 1) == [OUTER] && r.log == [INNER];
    InnerIsNext();
    NumberOf([OUTER], OUTER);
  }

  lemma InnerIsNext()
    ensures NextOf([INNER], 0x10, 1) == Some(0)
    ensures Number(RECURSION, {0x10}, 0) == 0 && Number(RECURSION, {0x10}, 1) == 1
  {
    assert [INNER][..0] == [];
  }
}
