/**
 LiveServerChecker: the periodic check that moves Solr server handles between
 the factory's live and dead lists, and the shutdown that drains the factory
 and releases every server.

 The ghost log records, in order, every ping, startServer, killServer and
 stop() call, the cancellation of the schedule and the release of the shared
 HTTP connections. A ping is an oracle from handle to outcome, passed to Run.
 */
module LiveServerCheck {
  import opened ServerPool
  import opened CallLog
  import opened CheckCycle
  import opened ShutdownSpec

  class LiveServerChecker {
    const factory: SolrServerFactory
    ghost var log: seq<Call>
    /** Set once the scheduled executor has been shut down. */
    ghost var cancelled: bool

    constructor (factory: SolrServerFactory)
      ensures this.factory == factory
      ensures log == [] && !cancelled
    {
      this.factory := factory;
      log := [];
      cancelled := false;
    }

    /**
     One check cycle: walk the dead handles followed by the live ones and
     check each in turn. The list walked is a copy taken before the first
     ping.
     */
    method Run(ping: Handle -> Outcome)
      modifies this`log, factory
      ensures factory.State() == Cycle(old(factory.State()), ping)
      ensures log == old(log) + CycleLog(Snapshot(old(factory.State())), ping)
    {
      ghost var p := factory.State();
      var handles := factory.dead + factory.live;
      var i := 0;
      while i < |handles|
        invariant 0 <= i <= |handles|
        invariant factory.State() == CyclePool(p, handles[..i], ping)
        invariant log == old(log) + CycleLog(handles[..i], ping)
      {
        var h := handles[i];
        CheckServer(h, ping);
        CycleSnoc(p, handles, i, ping);
        Associative(old(log), CycleLog(handles[..i], ping), EntryCalls(h, ping(h)));
        i := i + 1;
      }
      assert handles[..i] == handles;
    }

    /**
     The body of run()'s loop for one handle: skip it when it has no server;
     otherwise ping it, and start it when the response has status 0, kill it
     when the status is anything else or the ping throws.
     */
    method CheckServer(h: Handle, ping: Handle -> Outcome)
      modifies this`log, factory
      ensures factory.State() == Step(old(factory.State()), h, ping(h))
      ensures log == old(log) + EntryCalls(h, ping(h))
    {
      if !HasServer(h) {
        return;
      }
      log := log + [PingCall(h)];
      var outcome := ping(h);
      match outcome {
        case Status(code) =>
          if code == 0 {
            factory.StartServer(h);
            log := log + [StartCall(h)];
          } else {
            factory.KillServer(h);
            log := log + [KillCall(h)];
          }
        case Fault =>
          factory.KillServer(h);
          log := log + [KillCall(h)];
      }
    }

    /**
     The first half of shutdown(): collect the dead handles and then the live
     ones, clearing each list of the factory after copying it.
     */
    method DrainPool() returns (all: seq<Handle>)
      modifies factory
      ensures all == Snapshot(old(factory.State()))
      ensures factory.live == [] && factory.dead == []
    {
      all := [];
      var deadServers := factory.dead;
      all := all + deadServers;
      factory.ClearDeadServers();
      var liveServers := factory.live;
      all := all + liveServers;
      factory.ClearLiveServers();
    }

    /**
     Drain the factory, then release every collected handle, then cancel the
     schedule and release the shared connections.
     */
    method Shutdown()
      modifies this`log, this`cancelled, factory
      ensures factory.State() == Teardown(Pool([], []), Snapshot(old(factory.State())))
      ensures log == old(log) + ShutdownLog(Snapshot(old(factory.State())))
      ensures cancelled
    {
      var all := DrainPool();
      var i := 0;
      while i < |all|
        invariant 0 <= i <= |all|
        invariant factory.State() == Teardown(Pool([], []), all[..i])
        invariant log == old(log) + TeardownLog(all[..i])
      {
        var h := all[i];
        ReleaseServer(h);
        TeardownSnoc(Pool([], []), all, i);
        Associative(old(log), TeardownLog(all[..i]), TeardownCalls(h));
        i := i + 1;
      }
      assert all[..i] == all;
      ghost var walked := log;
      assert log == old(log) + TeardownLog(all);
      cancelled := true;
      log := log + [CancelSchedule];
      log := log + [ReleaseConnections];
      assert log == old(log) + ShutdownLog(all) by {
        assert log == walked + [CancelSchedule, ReleaseConnections];
        Associative(old(log), TeardownLog(all), [CancelSchedule, ReleaseConnections]);
      }
    }

    /**
     The body of shutdown()'s loop for one handle: skip it when it has no
     server; otherwise kill it, and stop its server when that is a
     StoppableSolrServer.
     */
    method ReleaseServer(h: Handle)
      modifies this`log, factory
      ensures factory.State() == TeardownStep(old(factory.State()), h)
      ensures log == old(log) + TeardownCalls(h)
    {
      if !HasServer(h) {
        return;
      }
      factory.KillServer(h);
      log := log + [KillCall(h)];
      if IsStoppable(h) {
        log := log + [StopCall(h)];
      }
    }
  }
}
