/** Which replayed call an end ends, when the replayed calls of a thread nest. */
module ReplayNesting {
  import opened Options
  import opened Events
  import opened Replaying

  function Before(log: seq<Event>, actions: seq<Action>, k: nat): Replayer
    requires k <= |actions|
  {
    After(Replayer(log, map[]), actions[..k])
  }

  /** The event that the k-th action replays, if it is a replay of the thread that finds an event to execute. */
  function Begun(log: seq<Event>, actions: seq<Action>, t: nat, k: nat): Option<nat>
    requires k < |actions|
  {
    match actions[k]
    case Replay(thread, rip) =>
      var p := Before(log, actions, k);
      var i := NextOf(p.log, rip, thread);
      if thread == t && i.Some? && p.log[i.value].execute then i else None
    case _ => None
  }

  predicate IsEnd(actions: seq<Action>, t: nat, k: nat)
    requires k < |actions|
  {
    actions[k] == End(t)
  }

  /** Calls begun minus ends of a thread over actions[i..j]. */
  function Depth(log: seq<Event>, actions: seq<Action>, t: nat, i: nat, j: nat): int
    requires i <= j <= |actions|
  {
    if i == j then 0
    else Depth(log, actions, t, i, j - 1) + if Begun(log, actions, t, j - 1).Some? then 1 else if IsEnd(actions, t, j - 1) then -1 else 0
  }

  ghost predicate Inside(log: seq<Event>, actions: seq<Action>, t: nat, i: nat, k: nat)
    requires i < k <= |actions|
  {
    Depth(log, actions, t, i + 1, k) >= 0
  }

  /** The call begun at i has not ended before action n. */
  ghost predicate Open(log: seq<Event>, actions: seq<Action>, t: nat, i: nat, n: nat)
    requires i < n <= |actions|
  {
    Begun(log, actions, t, i).Some? && forall k: nat :: i < k <= n ==> Inside(log, actions, t, i, k)
  }

  /** End j is that of the call begun at i: every call begun in between has ended. */
  ghost predicate Closes(log: seq<Event>, actions: seq<Action>, t: nat, i: nat, j: nat)
    requires i < |actions| && j < |actions|
  {
    i < j && IsEnd(actions, t, j) && Open(log, actions, t, i, j) && Depth(log, actions, t, i + 1, j) == 0
  }

  // ---- the calls that are open ------------------------------------------------------------------------------------------------

  function Calls(log: seq<Event>, actions: seq<Action>, t: nat, n: nat): seq<nat>
    requires n <= |actions|
  {
    if n == 0 then []
    else
      var calls := Calls(log, actions, t, n - 1);
      if Begun(log, actions, t, n - 1).Some? then calls + [n - 1]
      else if IsEnd(actions, t, n - 1) && calls != [] then calls[..|calls| - 1]
      else calls
  }

  ghost predicate CallAt(log: seq<Event>, actions: seq<Action>, t: nat, n: nat, calls: seq<nat>, k: nat)
    requires n <= |actions| && k < |calls|
  {
    calls[k] < n && Open(log, actions, t, calls[k], n) && Depth(log, actions, t, calls[k] + 1, n) == |calls| - 1 - k
  }

  lemma {:induction false} CallsAreOpen(log: seq<Event>, actions: seq<Action>, t: nat, n: nat)
    requires n <= |actions|
    ensures forall k: nat :: k < |Calls(log, actions, t, n)| ==> CallAt(log, actions, t, n, Calls(log, actions, t, n), k)
  {
    hide Begun;
    if n > 0 {
      CallsAreOpen(log, actions, t, n - 1);
      var was, calls := Calls(log, actions, t, n - 1), Calls(log, actions, t, n);
      NotBoth(log, actions, t, n - 1);
      forall k: nat | k < |calls| ensures CallAt(log, actions, t, n, calls, k) {
        assert k < |was| ==> CallAt(log, actions, t, n - 1, was, k);
        assert Inside(log, actions, t, calls[k], n);
      }
    }
  }

  lemma NotBoth(log: seq<Event>, actions: seq<Action>, t: nat, k: nat)
    requires k < |actions|
    ensures !(Begun(log, actions, t, k).Some? && IsEnd(actions, t, k))
  {
  }

  lemma {:induction false} OpenIsCalled(log: seq<Event>, actions: seq<Action>, t: nat, i: nat, n: nat) returns (k: nat)
    requires i < n <= |actions| && Open(log, actions, t, i, n)
    ensures var calls := Calls(log, actions, t, n);
      k < |calls| && calls[k] == i && Depth(log, actions, t, i + 1, n) == |calls| - 1 - k
    decreases n
  {
    hide Begun;
    if i == n - 1 {
      k := |Calls(log, actions, t, n)| - 1;
    } else {
      k := OpenIsCalled(log, actions, t, i, n - 1);
      NotBoth(log, actions, t, n - 1);
      assert Inside(log, actions, t, i, n);
    }
  }

  /** The events that the open calls replay. */
  function Indices(log: seq<Event>, actions: seq<Action>, t: nat, calls: seq<nat>): seq<nat>
    requires forall k :: 0 <= k < |calls| ==> calls[k] < |actions| && Begun(log, actions, t, calls[k]).Some?
  {
    seq(|calls|, k requires 0 <= k < |calls| => Begun(log, actions, t, calls[k]).value)
  }

  lemma CallsBegun(log: seq<Event>, actions: seq<Action>, t: nat, n: nat)
    requires n <= |actions|
    ensures forall k :: 0 <= k < |Calls(log, actions, t, n)| ==>
      var c := Calls(log, actions, t, n)[k]; c < |actions| && Begun(log, actions, t, c).Some?
  {
    CallsAreOpen(log, actions, t, n);
    hide Begun, Calls;
    forall k: nat | k < |Calls(log, actions, t, n)|
      ensures var c := Calls(log, actions, t, n)[k]; c < |actions| && Begun(log, actions, t, c).Some?
    {
      assert CallAt(log, actions, t, n, Calls(log, actions, t, n), k);
    }
  }

  lemma ActEnds(p: Replayer, a: Action, t: nat)
    ensures Ends(Act(p, a), t) == match a
      case Replay(thread, rip) =>
        var i := NextOf(p.log, rip, thread);
        if thread == t && i.Some? && p.log[i.value].execute then Ends(p, t) + [i.value] else Ends(p, t)
      case End(thread) => if thread == t && Ends(p, t) != [] then Ends(p, t)[..|Ends(p, t)| - 1] else Ends(p, t)
      case Reset(_) => Ends(p, t)
  {
    hide NextOf, Cleared;
  }

  lemma EndsStep(log: seq<Event>, actions: seq<Action>, t: nat, n: nat)
    requires 0 < n <= |actions|
    ensures var stack := Ends(Before(log, actions, n - 1), t);
      Ends(Before(log, actions, n), t) == if Begun(log, actions, t, n - 1).Some? then stack + [Begun(log, actions, t, n - 1).value]
                                          else if IsEnd(actions, t, n - 1) && stack != [] then stack[..|stack| - 1]
                                          else stack
  {
    assert actions[..n][..n - 1] == actions[..n - 1] && actions[..n][n - 1] == actions[n - 1];
    var p := Before(log, actions, n - 1);
    assert Before(log, actions, n) == Act(p, actions[n - 1]);
    ActEnds(p, actions[n - 1], t);
    hide After, NextOf, Act;
  }

  /** The replay's own stack of a thread is that of its open calls. */
  lemma {:induction false} StackIsCalls(log: seq<Event>, actions: seq<Action>, t: nat, n: nat)
    requires n <= |actions|
    ensures forall k :: 0 <= k < |Calls(log, actions, t, n)| ==>
      var c := Calls(log, actions, t, n)[k]; c < |actions| && Begun(log, actions, t, c).Some?
    ensures Ends(Before(log, actions, n), t) == Indices(log, actions, t, Calls(log, actions, t, n))
  {
    CallsBegun(log, actions, t, n);
    if n == 0 {
      assert actions[..0] == [];
    } else {
      StackIsCalls(log, actions, t, n - 1);
      EndsStep(log, actions, t, n);
      NotBoth(log, actions, t, n - 1);
      var was, calls := Calls(log, actions, t, n - 1), Calls(log, actions, t, n);
      var ends := Indices(log, actions, t, was);
      hide Before, Begun, Calls, Ends;
      if calls == was + [n - 1] {
        assert Indices(log, actions, t, calls) == ends + [Begun(log, actions, t, n - 1).value];
      } else if was != [] && calls == was[..|was| - 1] {
        assert Indices(log, actions, t, calls) == ends[..|ends| - 1];
      }
    }
  }

  /**
   Each end of a thread ends the event of the call it closes, the newest one begun and not ended, and ends nothing when
   every call begun has ended.
   */
  lemma EachEndEndsItsOwn(log: seq<Event>, actions: seq<Action>, t: nat, j: nat)
    requires j < |actions| && actions[j] == End(t)
    ensures var stack := Ends(Before(log, actions, j), t);
      && (forall i: nat :: i < |actions| && Closes(log, actions, t, i, j) ==>
            stack != [] && Begun(log, actions, t, i) == Some(stack[|stack| - 1]))
      && (stack != [] ==> exists i: nat :: i < |actions| && Closes(log, actions, t, i, j) && Begun(log, actions, t, i) == Some(stack[|stack| - 1]))
  {
    StackIsCalls(log, actions, t, j);
    CallsAreOpen(log, actions, t, j);
    hide Begun, Before, Calls;
    var calls, stack := Calls(log, actions, t, j), Ends(Before(log, actions, j), t);
    if stack != [] {
      var last: nat := |calls| - 1;
      assert CallAt(log, actions, t, j, calls, last);
      assert Closes(log, actions, t, calls[last], j);
    }
    forall i: nat | i < |actions| && Closes(log, actions, t, i, j)
      ensures stack != [] && Begun(log, actions, t, i) == Some(stack[|stack| - 1])
    {
      var k := OpenIsCalled(log, actions, t, i, j);
    }
  }
}
