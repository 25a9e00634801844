/**
 The pool of Solr server handles that the live-server checker reclassifies.

 SolrServerFactory is not part of this model: only the contract that the
 checker relies on is written here, as an assumption. A handle is moved into
 the list it is started or killed into (appended when it is not there yet) and
 removed from the other list.
 */
module ServerPool {

  /** What a SolrServerWrapper's getServer() yields: no server (null), a plain
      SolrServer, or a StoppableSolrServer. */
  datatype Server = NoServer | PlainServer | StoppableServer

  /** A SolrServerWrapper. The id stands for the wrapper's object identity. */
  datatype Handle = Handle(id: nat, server: Server)

  /** getServer() != null */
  predicate HasServer(h: Handle) {
    !h.server.NoServer?
  }

  /** getServer() instanceof StoppableSolrServer */
  predicate IsStoppable(h: Handle) {
    h.server.StoppableServer?
  }

  /** The two lists the factory keeps. */
  datatype Pool = Pool(live: seq<Handle>, dead: seq<Handle>)

  predicate NoDup(s: seq<Handle>) {
    forall i, j :: 0 <= i < j < |s| ==> s[i] != s[j]
  }

  /** Neither list repeats a handle and no handle is both live and dead. */
  predicate Partitioned(p: Pool) {
    NoDup(p.live) && NoDup(p.dead) && forall x :: x in p.live ==> x !in p.dead
  }

  /** The handle is known to the pool, in either list. */
  predicate Member(p: Pool, x: Handle) {
    x in p.live || x in p.dead
  }

  /** The list with every occurrence of h removed, order otherwise kept. */
  function Without(s: seq<Handle>, h: Handle): (r: seq<Handle>)
    ensures forall x :: x in r <==> x in s && x != h
    ensures h !in s ==> r == s
  {
    if s == [] then []
    else if s[0] == h then Without(s[1..], h)
    else [s[0]] + Without(s[1..], h)
  }

  lemma NoDupCons(x: Handle, t: seq<Handle>)
    ensures NoDup([x] + t) <==> x !in t && NoDup(t)
  {
    var s := [x] + t;
    if NoDup(s) {
      forall i, j | 0 <= i < j < |t| ensures t[i] != t[j] {
        assert t[i] == s[i + 1] && t[j] == s[j + 1];
      }
      forall k | 0 <= k < |t| ensures t[k] != x {
        assert s[0] == x && s[k + 1] == t[k];
      }
    }
    if x !in t && NoDup(t) {
      forall i, j | 0 <= i < j < |s| ensures s[i] != s[j] {
        assert s[j] == t[j - 1];
        if i > 0 { assert s[i] == t[i - 1]; }
      }
    }
  }

  lemma {:induction false} WithoutNoDup(s: seq<Handle>, h: Handle)
    requires NoDup(s)
    ensures NoDup(Without(s, h))
  {
    if s != [] {
      assert s == [s[0]] + s[1..];
      NoDupCons(s[0], s[1..]);
      WithoutNoDup(s[1..], h);
      if s[0] != h {
        NoDupCons(s[0], Without(s[1..], h));
      }
    }
  }

  lemma NoDupAppend(s: seq<Handle>, h: Handle)
    requires NoDup(s) && h !in s
    ensures NoDup(s + [h])
  {
  }

  /** The assumed effect of SolrServerFactory.startServer(h). */
  function MarkLive(p: Pool, h: Handle): (r: Pool)
    ensures h in r.live && h !in r.dead
    ensures forall x :: x != h ==> (x in r.live <==> x in p.live) && (x in r.dead <==> x in p.dead)
    ensures h in p.live && h !in p.dead ==> r == p
  {
    Pool(if h in p.live then p.live else p.live + [h], Without(p.dead, h))
  }

  /** The assumed effect of SolrServerFactory.killServer(h). */
  function MarkDead(p: Pool, h: Handle): (r: Pool)
    ensures h in r.dead && h !in r.live
    ensures forall x :: x != h ==> (x in r.live <==> x in p.live) && (x in r.dead <==> x in p.dead)
    ensures h in p.dead && h !in p.live ==> r == p
  {
    Pool(Without(p.live, h), if h in p.dead then p.dead else p.dead + [h])
  }

  /** Starting a handle keeps the pool a partition. */
  lemma MarkLivePartitioned(p: Pool, h: Handle)
    requires Partitioned(p)
    ensures Partitioned(MarkLive(p, h))
  {
    WithoutNoDup(p.dead, h);
    if h !in p.live { NoDupAppend(p.live, h); }
  }

  /** Killing a handle keeps the pool a partition. */
  lemma MarkDeadPartitioned(p: Pool, h: Handle)
    requires Partitioned(p)
    ensures Partitioned(MarkDead(p, h))
  {
    WithoutNoDup(p.live, h);
    if h !in p.dead { NoDupAppend(p.dead, h); }
  }

  /**
   The part of SolrServerFactory that the checker uses. The lists are fields
   that the checker's calls reassign; clearing them stands for clear() on the
   lists that getDeadServers() and getLiveServers() return, which drains the
   pool only when those getters hand out the backing lists.
   */
  class SolrServerFactory {
    var live: seq<Handle>
    var dead: seq<Handle>

    function State(): Pool
      reads this
    {
      Pool(live, dead)
    }

    constructor (live: seq<Handle>, dead: seq<Handle>)
      ensures State() == Pool(live, dead)
    {
      this.live := live;
      this.dead := dead;
    }

    method StartServer(h: Handle)
      modifies this
      ensures State() == MarkLive(old(State()), h)
    {
      dead := Without(dead, h);
      if h !in live {
        live := live + [h];
      }
    }

    method KillServer(h: Handle)
      modifies this
      ensures State() == MarkDead(old(State()), h)
    {
      live := Without(live, h);
      if h !in dead {
        dead := dead + [h];
      }
    }

    method ClearDeadServers()
      modifies this
      ensures dead == [] && live == old(live)
    {
      dead := [];
    }

    method ClearLiveServers()
      modifies this
      ensures live == [] && dead == old(dead)
    {
      live := [];
    }
  }
}
