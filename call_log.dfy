/**
 Outcomes of a ping and the ghost record of the calls the checker makes.
 */
module CallLog {
  import opened ServerPool

  /** What SolrServerWrapper.ping() does: return a response carrying a
      status code, or throw. */
  datatype Outcome = Status(code: int) | Fault

  /** The check treats a response as healthy exactly when its status is 0. */
  predicate Healthy(o: Outcome) {
    o.Status? && o.code == 0
  }

  /** One call the checker makes, in the order it makes them. */
  datatype Call =
    | PingCall(h: Handle)        // solrServerWrapper.ping()
    | StartCall(h: Handle)       // solrServerFactory.startServer(h)
    | KillCall(h: Handle)        // solrServerFactory.killServer(h)
    | StopCall(h: Handle)        // stoppableSolrServer.stop()
    | CancelSchedule             // scheduledExecutorService.shutdownNow()
    | ReleaseConnections         // MultiThreadedHttpConnectionManager.shutdownAll()

  /** The handles pinged, in order. */
  function Pinged(log: seq<Call>): seq<Handle> {
    if log == [] then []
    else (if log[0].PingCall? then [log[0].h] else []) + Pinged(log[1..])
  }

  /** The handles passed to startServer or killServer, in order. */
  function Decided(log: seq<Call>): seq<Handle> {
    if log == [] then []
    else (if log[0].StartCall? || log[0].KillCall? then [log[0].h] else []) + Decided(log[1..])
  }

  /** Regrouping appends to the log. */
  lemma Associative(a: seq<Call>, b: seq<Call>, c: seq<Call>)
    ensures (a + b) + c == a + (b + c)
  {
  }

  lemma {:induction false} ProjectionsAppend(a: seq<Call>, b: seq<Call>)
    ensures Pinged(a + b) == Pinged(a) + Pinged(b)
    ensures Decided(a + b) == Decided(a) + Decided(b)
  {
    if a != [] {
      assert (a + b)[0] == a[0];
      assert (a + b)[1..] == a[1..] + b;
      ProjectionsAppend(a[1..], b);
    } else {
      assert a + b == b;
    }
  }
}
