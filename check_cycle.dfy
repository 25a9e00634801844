/**
 The check cycle of LiveServerChecker.run(), as functions of the snapshot it
 walks and the ping outcome of each handle, and what is proved about them.
 */
module CheckCycle {
  import opened ServerPool
  import opened CallLog

  /** The list run() walks: the dead handles followed by the live ones. */
  function Snapshot(p: Pool): (s: seq<Handle>)
    ensures |s| == |p.dead| + |p.live|
    ensures forall x :: x in s <==> Member(p, x)
  {
    p.dead + p.live
  }

  /** The calls made for one entry of the snapshot. */
  function EntryCalls(h: Handle, o: Outcome): seq<Call> {
    if !HasServer(h) then []
    else [PingCall(h), if Healthy(o) then StartCall(h) else KillCall(h)]
  }

  /** The effect of one entry of the snapshot on the pool. */
  function Step(p: Pool, h: Handle, o: Outcome): Pool {
    if !HasServer(h) then p
    else if Healthy(o) then MarkLive(p, h)
    else MarkDead(p, h)
  }

  /** The calls made while walking s. */
  function CycleLog(s: seq<Handle>, ping: Handle -> Outcome): seq<Call>
    decreases |s|
  {
    if s == [] then []
    else CycleLog(s[..|s| - 1], ping) + EntryCalls(s[|s| - 1], ping(s[|s| - 1]))
  }

  /** The pool after walking s from p. */
  function CyclePool(p: Pool, s: seq<Handle>, ping: Handle -> Outcome): Pool
    decreases |s|
  {
    if s == [] then p
    else Step(CyclePool(p, s[..|s| - 1], ping), s[|s| - 1], ping(s[|s| - 1]))
  }

  /** Walking one more snapshot entry. */
  lemma CycleSnoc(p: Pool, s: seq<Handle>, i: nat, ping: Handle -> Outcome)
    requires i < |s|
    ensures CycleLog(s[..i + 1], ping) == CycleLog(s[..i], ping) + EntryCalls(s[i], ping(s[i]))
    ensures CyclePool(p, s[..i + 1], ping) == Step(CyclePool(p, s[..i], ping), s[i], ping(s[i]))
  {
    assert s[..i + 1][..i] == s[..i];
  }

  /** The pool after one whole check cycle. */
  function Cycle(p: Pool, ping: Handle -> Outcome): Pool {
    CyclePool(p, Snapshot(p), ping)
  }

  /** The entries of s that have a server, in order. */
  function Served(s: seq<Handle>): seq<Handle>
    decreases |s|
  {
    if s == [] then []
    else Served(s[..|s| - 1]) + (if HasServer(s[|s| - 1]) then [s[|s| - 1]] else [])
  }

  lemma {:induction false} ServedAppend(a: seq<Handle>, b: seq<Handle>)
    ensures Served(a + b) == Served(a) + Served(b)
    decreases |b|
  {
    if b == [] {
      assert a + b == a;
    } else {
      var b' := b[..|b| - 1];
      assert (a + b)[..|a + b| - 1] == a + b';
      ServedAppend(a, b');
    }
  }

  lemma {:induction false} ServedLength(s: seq<Handle>)
    ensures |Served(s)| <= |s|
    decreases |s|
  {
    if s != [] { ServedLength(s[..|s| - 1]); }
  }

  /** Walking a + b makes the calls of a, then those of b. */
  lemma {:induction false} CycleLogAppend(a: seq<Handle>, b: seq<Handle>, ping: Handle -> Outcome)
    ensures CycleLog(a + b, ping) == CycleLog(a, ping) + CycleLog(b, ping)
    decreases |b|
  {
    if b == [] {
      assert a + b == a;
    } else {
      var b' := b[..|b| - 1];
      assert (a + b)[..|a + b| - 1] == a + b';
      CycleLogAppend(a, b', ping);
    }
  }

  /** Walking a + b from p is walking a, then b from where a left the pool. */
  lemma {:induction false} CyclePoolAppend(p: Pool, a: seq<Handle>, b: seq<Handle>, ping: Handle -> Outcome)
    ensures CyclePool(p, a + b, ping) == CyclePool(CyclePool(p, a, ping), b, ping)
    decreases |b|
  {
    if b == [] {
      assert a + b == a;
    } else {
      var b' := b[..|b| - 1];
      assert (a + b)[..|a + b| - 1] == a + b';
      CyclePoolAppend(p, a, b', ping);
    }
  }

  /**
   Which calls a cycle makes for a handle: a handle without a server is never
   pinged, started or killed; one with a server in the snapshot is pinged, and
   then started exactly when its ping returned status 0 and killed exactly
   when it returned another status or threw. No other call is made.
   */
  lemma {:induction false} CycleCalls(s: seq<Handle>, ping: Handle -> Outcome, h: Handle)
    ensures PingCall(h) in CycleLog(s, ping) <==> h in s && HasServer(h)
    ensures StartCall(h) in CycleLog(s, ping) <==> h in s && HasServer(h) && Healthy(ping(h))
    ensures KillCall(h) in CycleLog(s, ping) <==> h in s && HasServer(h) && !Healthy(ping(h))
    ensures StopCall(h) !in CycleLog(s, ping)
    ensures CancelSchedule !in CycleLog(s, ping) && ReleaseConnections !in CycleLog(s, ping)
    decreases |s|
  {
    if s != [] {
      var s' := s[..|s| - 1];
      assert s == s' + [s[|s| - 1]];
      CycleCalls(s', ping, h);
    }
  }

  /**
   Where a cycle leaves a handle: one with a server in the snapshot ends up
   live and not dead when its ping returned status 0, and dead and not live
   otherwise (another status, or a fault); any other handle, in particular one
   without a server, keeps the classification it had.
   */
  lemma {:induction false} CycleMembership(p: Pool, s: seq<Handle>, ping: Handle -> Outcome, x: Handle)
    ensures var r := CyclePool(p, s, ping);
      if x in s && HasServer(x) then
        (x in r.live <==> Healthy(ping(x))) && (x in r.dead <==> !Healthy(ping(x)))
      else
        (x in r.live <==> x in p.live) && (x in r.dead <==> x in p.dead)
    decreases |s|
  {
    if s != [] {
      var s' := s[..|s| - 1];
      assert s == s' + [s[|s| - 1]];
      CycleMembership(p, s', ping, x);
    }
  }

  /**
   A ping that throws affects its own entry only: the entry is killed, and the
   entries before and after it make the calls and changes their own outcomes
   decide.
   */
  lemma FaultIsolation(p: Pool, pre: seq<Handle>, h: Handle, post: seq<Handle>, ping: Handle -> Outcome)
    requires HasServer(h) && ping(h) == Fault
    ensures CycleLog(pre + [h] + post, ping) == CycleLog(pre, ping) + [PingCall(h), KillCall(h)] + CycleLog(post, ping)
    ensures CyclePool(p, pre + [h] + post, ping) == CyclePool(MarkDead(CyclePool(p, pre, ping), h), post, ping)
  {
    CycleLogAppend(pre + [h], post, ping);
    CycleLogAppend(pre, [h], ping);
    CyclePoolAppend(p, pre + [h], post, ping);
    CyclePoolAppend(p, pre, [h], ping);
    assert [h][..0] == [];
  }

  /**
   A cycle pings the entries that have a server once each, in snapshot order
   (the dead ones first, then the live ones), and makes one startServer or
   killServer call for each of them, in the same order; so it makes at most
   one such call per snapshot entry.
   */
  lemma {:induction false} CycleOrder(s: seq<Handle>, ping: Handle -> Outcome)
    ensures Pinged(CycleLog(s, ping)) == Served(s)
    ensures Decided(CycleLog(s, ping)) == Served(s)
    ensures |Served(s)| <= |s|
    decreases |s|
  {
    ServedLength(s);
    if s != [] {
      var s' := s[..|s| - 1];
      var h := s[|s| - 1];
      CycleOrder(s', ping);
      ProjectionsAppend(CycleLog(s', ping), EntryCalls(h, ping(h)));
      if HasServer(h) {
        var e := EntryCalls(h, ping(h));
        assert e[1..][1..] == [];
        assert Pinged(e[1..]) == [] && Decided(e[1..]) == [h];
        assert Pinged(e) == [h] && Decided(e) == [h];
      }
    }
  }

  lemma CycleVisitsDeadThenLive(p: Pool, ping: Handle -> Outcome)
    ensures Pinged(CycleLog(Snapshot(p), ping)) == Served(p.dead) + Served(p.live)
    ensures Decided(CycleLog(Snapshot(p), ping)) == Served(p.dead) + Served(p.live)
  {
    CycleOrder(Snapshot(p), ping);
    ServedAppend(p.dead, p.live);
  }

  /** A walk over handles the pool already knows keeps exactly the handles
      the pool knows, whatever state its lists are in. */
  lemma {:induction false} CyclePoolKeepsMembers(p: Pool, s: seq<Handle>, ping: Handle -> Outcome)
    requires forall x :: x in s ==> Member(p, x)
    ensures forall x :: Member(CyclePool(p, s, ping), x) <==> Member(p, x)
    decreases |s|
  {
    if s != [] {
      var s' := s[..|s| - 1];
      assert forall x :: x in s' ==> x in s;
      CyclePoolKeepsMembers(p, s', ping);
    }
  }

  lemma {:induction false} CyclePoolKeepsPartition(p: Pool, s: seq<Handle>, ping: Handle -> Outcome)
    requires Partitioned(p)
    ensures Partitioned(CyclePool(p, s, ping))
    decreases |s|
  {
    if s != [] {
      var s' := s[..|s| - 1];
      var h := s[|s| - 1];
      CyclePoolKeepsPartition(p, s', ping);
      var q := CyclePool(p, s', ping);
      if HasServer(h) {
        if Healthy(ping(h)) { MarkLivePartitioned(q, h); } else { MarkDeadPartitioned(q, h); }
      }
    }
  }

  /**
   A check cycle keeps the partition: afterwards no handle is both live and
   dead, neither list repeats a handle, and the pool knows exactly the handles
   it knew before.
   */
  lemma CyclePreservesPartition(p: Pool, ping: Handle -> Outcome)
    requires Partitioned(p)
    ensures Partitioned(Cycle(p, ping))
    ensures forall x :: Member(Cycle(p, ping), x) <==> Member(p, x)
  {
    CyclePoolKeepsPartition(p, Snapshot(p), ping);
    CyclePoolKeepsMembers(p, Snapshot(p), ping);
  }

  /** Every handle with a server is in the list its outcome calls for. */
  predicate Settled(q: Pool, ping: Handle -> Outcome, x: Handle) {
    HasServer(x) ==>
      if Healthy(ping(x)) then x in q.live && x !in q.dead else x in q.dead && x !in q.live
  }

  lemma {:induction false} SettledWalkIsIdentity(q: Pool, s: seq<Handle>, ping: Handle -> Outcome)
    requires forall x :: x in s ==> Settled(q, ping, x)
    ensures CyclePool(q, s, ping) == q
    decreases |s|
  {
    if s != [] {
      var s' := s[..|s| - 1];
      assert forall x :: x in s' ==> x in s;
      SettledWalkIsIdentity(q, s', ping);
      assert Settled(q, ping, s[|s| - 1]);
    }
  }

  /**
   Two consecutive cycles with unchanged ping outcomes: the second one leaves
   both lists exactly as the first one left them, from any pool.
   */
  lemma CycleIdempotent(p: Pool, ping: Handle -> Outcome)
    ensures Cycle(Cycle(p, ping), ping) == Cycle(p, ping)
  {
    var q := Cycle(p, ping);
    CyclePoolKeepsMembers(p, Snapshot(p), ping);
    forall x | x in Snapshot(q) ensures Settled(q, ping, x) {
      CycleMembership(p, Snapshot(p), ping, x);
    }
    SettledWalkIsIdentity(q, Snapshot(q), ping);
  }

  /** The ping outcomes of the scenario below: the first handle answers 0,
      the second one throws, the third one answers 1. */
  function ScenarioPing(x: Handle): Outcome {
    if x.id == 1 then Status(0) else if x.id == 2 then Fault else Status(1)
  }

  /**
   Three handles where the second one's ping throws: the first and the third
   are still pinged and decided from their own outcomes.
   */
  lemma FaultIsolationScenarioCalls()
    ensures var a, b, c := Handle(1, PlainServer), Handle(2, PlainServer), Handle(3, StoppableServer);
      CycleLog([a, b, c], ScenarioPing)
        == [PingCall(a), StartCall(a), PingCall(b), KillCall(b), PingCall(c), KillCall(c)]
  {
    var a, b, c := Handle(1, PlainServer), Handle(2, PlainServer), Handle(3, StoppableServer);
    assert [a, b, c][..2] == [a, b] && [a, b][..1] == [a] && [a][..0] == [];
    assert CycleLog([a], ScenarioPing) == [PingCall(a), StartCall(a)];
    assert CycleLog([a, b], ScenarioPing) == [PingCall(a), StartCall(a), PingCall(b), KillCall(b)];
  }

  /**
   The same three handles, held as dead [a] and live [b, c]: a cycle leaves the
   first one live and the other two dead.
   */
  lemma FaultIsolationScenarioPool()
    ensures var a, b, c := Handle(1, PlainServer), Handle(2, PlainServer), Handle(3, StoppableServer);
      var r := Cycle(Pool([b, c], [a]), ScenarioPing);
      a in r.live && a !in r.dead && b in r.dead && b !in r.live && c in r.dead && c !in r.live
  {
    var a, b, c := Handle(1, PlainServer), Handle(2, PlainServer), Handle(3, StoppableServer);
    var p := Pool([b, c], [a]);
    assert Snapshot(p) == [a, b, c];
    CycleMembership(p, Snapshot(p), ScenarioPing, a);
    CycleMembership(p, Snapshot(p), ScenarioPing, b);
    CycleMembership(p, Snapshot(p), ScenarioPing, c);
  }

  /**
   The pool as line 60 of run() leaves it when getDeadServers() hands out the
   factory's backing dead list, the contract shutdown() relies on: addAll
   appends every live handle to the dead list itself.
   */
  function AliasedRunStart(p: Pool): (r: Pool)
    ensures r.live == p.live
    ensures |r.dead| == |p.dead| + |p.live|
    ensures forall x :: x in r.dead <==> Member(p, x)
    ensures forall x :: x in p.live ==> x in r.live && x in r.dead
  {
    Pool(p.live, p.dead + p.live)
  }

  /** Under that aliasing, any pool with a live handle stops being a
      partition before the first ping: the handle is both live and dead. */
  lemma AliasedSnapshotBreaksPartition(p: Pool)
    requires p.live != []
    ensures !Partitioned(AliasedRunStart(p))
  {
    var x := p.live[0];
    assert x in AliasedRunStart(p).live && x in AliasedRunStart(p).dead;
  }

  /**
   The break outlasts the cycle: a live handle without a server is never
   started or killed, so after the aliased cycle has walked the whole
   snapshot it is still both live and dead.
   */
  lemma AliasedCycleBreaksPartition(p: Pool, ping: Handle -> Outcome, c: Handle)
    requires c in p.live && !HasServer(c)
    ensures var r := CyclePool(AliasedRunStart(p), Snapshot(p), ping);
      c in r.live && c in r.dead && !Partitioned(r)
  {
    CycleMembership(AliasedRunStart(p), Snapshot(p), ping, c);
  }
}
