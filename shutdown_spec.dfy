/**
 LiveServerChecker.shutdown(), as functions of the list of handles it
 collects while draining the pool, and what is proved about them.
 */
module ShutdownSpec {
  import opened ServerPool
  import opened CallLog

  /** The calls made for one collected handle: killServer, then stop() when
      the server is a StoppableSolrServer; nothing for a handle without one. */
  function TeardownCalls(h: Handle): seq<Call> {
    if !HasServer(h) then []
    else [KillCall(h)] + (if IsStoppable(h) then [StopCall(h)] else [])
  }

  /** The calls made while walking the collected list s. */
  function TeardownLog(s: seq<Handle>): seq<Call>
    decreases |s|
  {
    if s == [] then []
    else TeardownLog(s[..|s| - 1]) + TeardownCalls(s[|s| - 1])
  }

  /** Every call shutdown() makes after draining: the walk, then cancelling
      the schedule, then releasing the shared connections. */
  function ShutdownLog(s: seq<Handle>): seq<Call> {
    TeardownLog(s) + [CancelSchedule, ReleaseConnections]
  }

  /** The effect of one collected handle on the pool. */
  function TeardownStep(p: Pool, h: Handle): Pool {
    if HasServer(h) then MarkDead(p, h) else p
  }

  /** The pool after walking s from p, killing every handle with a server. */
  function Teardown(p: Pool, s: seq<Handle>): Pool
    decreases |s|
  {
    if s == [] then p
    else TeardownStep(Teardown(p, s[..|s| - 1]), s[|s| - 1])
  }

  /** Walking one more collected handle. */
  lemma TeardownSnoc(p: Pool, s: seq<Handle>, i: nat)
    requires i < |s|
    ensures TeardownLog(s[..i + 1]) == TeardownLog(s[..i]) + TeardownCalls(s[i])
    ensures Teardown(p, s[..i + 1]) == TeardownStep(Teardown(p, s[..i]), s[i])
  {
    assert s[..i + 1][..i] == s[..i];
  }

  /**
   killServer is called exactly for the collected handles that have a server,
   stop() exactly for those whose server is stoppable; nothing is pinged or
   started, and the schedule and the shared connections are not touched by
   the walk.
   */
  lemma {:induction false} TeardownCallsExactly(s: seq<Handle>, h: Handle)
    ensures KillCall(h) in TeardownLog(s) <==> h in s && HasServer(h)
    ensures StopCall(h) in TeardownLog(s) <==> h in s && IsStoppable(h)
    ensures PingCall(h) !in TeardownLog(s) && StartCall(h) !in TeardownLog(s)
    decreases |s|
  {
    if s != [] {
      var s' := s[..|s| - 1];
      assert s == s' + [s[|s| - 1]];
      TeardownCallsExactly(s', h);
    }
  }

  lemma {:induction false} TeardownLeavesSchedule(s: seq<Handle>)
    ensures CancelSchedule !in TeardownLog(s) && ReleaseConnections !in TeardownLog(s)
    decreases |s|
  {
    if s != [] {
      TeardownLeavesSchedule(s[..|s| - 1]);
    }
  }

  /** The schedule is cancelled once and the shared connections are released
      once, as the last two calls of shutdown(). */
  lemma ShutdownReleasesOnce(s: seq<Handle>)
    ensures var log := ShutdownLog(s);
      |log| >= 2 &&
      forall k :: 0 <= k < |log| ==>
        (log[k] == CancelSchedule <==> k == |log| - 2) &&
        (log[k] == ReleaseConnections <==> k == |log| - 1)
  {
    TeardownLeavesSchedule(s);
    var t := TeardownLog(s);
    var log := ShutdownLog(s);
    forall k | 0 <= k < |t| ensures log[k] == t[k] && t[k] in t {
    }
  }

  /**
   Killing the collected handles after the pool was drained leaves no handle
   live, and leaves dead exactly the collected handles that have a server,
   each once; a handle without a server is dropped from both lists.
   */
  lemma {:induction false} TeardownFromDrained(s: seq<Handle>)
    ensures var r := Teardown(Pool([], []), s);
      r.live == [] && NoDup(r.dead) &&
      forall x :: x in r.dead <==> x in s && HasServer(x)
    decreases |s|
  {
    if s != [] {
      var s' := s[..|s| - 1];
      assert s == s' + [s[|s| - 1]];
      TeardownFromDrained(s');
      var q := Teardown(Pool([], []), s');
      assert Partitioned(q);
      MarkDeadPartitioned(q, s[|s| - 1]);
    }
  }

  /**
   A pool holding A live and stoppable, B dead and stoppable, C live with no
   server: shutdown() kills and stops B and then A, never touches C, cancels
   the schedule and releases the connections once, and leaves only B and A,
   dead.
   */
  lemma ShutdownScenario()
    ensures var a, b, c := Handle(1, StoppableServer), Handle(2, StoppableServer), Handle(3, NoServer);
      var p := Pool([a, c], [b]);
      var collected := p.dead + p.live;
      ShutdownLog(collected)
        == [KillCall(b), StopCall(b), KillCall(a), StopCall(a), CancelSchedule, ReleaseConnections]
      && Teardown(Pool([], []), collected) == Pool([], [b, a])
  {
    var a, b, c := Handle(1, StoppableServer), Handle(2, StoppableServer), Handle(3, NoServer);
    var p := Pool([a, c], [b]);
    var s := [b, a, c];
    assert p.dead + p.live == s;
    assert s[..2] == [b, a] && [b, a][..1] == [b] && [b][..0] == [];
    assert TeardownLog([b]) == [KillCall(b), StopCall(b)];
    assert TeardownLog([b, a]) == [KillCall(b), StopCall(b), KillCall(a), StopCall(a)];
    assert Teardown(Pool([], []), [b]) == Pool([], [b]);
    assert Teardown(Pool([], []), [b, a]) == Pool([], [b, a]);
  }
}
