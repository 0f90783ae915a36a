/** What every run of the daemon with its resolve server guarantees. */
module Runs {
  import opened Bytes
  import opened Messages
  import opened Nodes
  import opened Conf
  import opened Daemon
  import opened Cluster
  import opened Resolution
  import Registry

  /** Each node address is looked up at most once in a run; a lookup or its answer is under way only while the node is
      being resolved, and never more than one. */
  lemma LookedUpAtMostOnce(conf: ConfView, es: seq<Event>, a: u32)
    requires ConfOk(conf) && After(conf, es).ok
    ensures LookupsEver(After(conf, es), a) <= 1
    ensures InFlightFor(After(conf, es), a) <= 1
    ensures InFlightFor(After(conf, es), a) > 0 ==> Is(After(conf, es), a, Resolving)
  {
    Reachable(conf, es);
    assert LookupInv(After(conf, es), a);
  }

  /** An answer about a node that reaches the daemon finds it in the table, being resolved and with messages waiting:
      the refresh and the unsolicited branch are never taken, and every successful answer starts a connection. */
  lemma AnswersFindResolvingNode(conf: ConfView, es: seq<Event>, i: nat)
    requires ConfOk(conf) && After(conf, es).ok
    requires i < |After(conf, es).replies| && After(conf, es).replies[i].item.kind == KUPDATE_CACHE
    ensures var w := After(conf, es); var r := w.replies[i].item;
            && Is(w, r.addr, Resolving) && w.d.nodes[r.addr].queue != []
            && (HandleResponse(w.d, r).dial == if r.code == KOK then Some(r.net) else None)
  {
    Reachable(conf, es);
    var w := After(conf, es);
    hide After;
    ReplyLookup(w, ReadReply(i), 0);
    assert NodeInv(w.d.nodes[w.replies[i].item.addr]);
  }

  /** Resolve states only move forward, one step at a time, and a network address once known never changes. */
  ghost predicate Forward(v: World, w: World, a: u32) {
    if a !in v.d.nodes then a in w.d.nodes ==> !w.d.nodes[a].state.Resolved? && w.d.nodes[a].net.None?
    else
      && a in w.d.nodes
      && var x, y := v.d.nodes[a], w.d.nodes[a];
      && (y.state == x.state || (x.state.NotResolved? && y.state.Resolving?)
          || (x.state.Resolving? && y.state.Resolved?))
      && (x.net.Some? ==> y.net == x.net)
  }

  lemma StateMovesForward(conf: ConfView, es: seq<Event>, e: Event, a: u32)
    requires ConfOk(conf) && After(conf, es).ok
    ensures Forward(After(conf, es), Next(After(conf, es), e), a)
  {
    Reachable(conf, es);
    var w := After(conf, es);
    hide After, Next, Forward, Inv, NodesInv;
    InvNodes(w);
    match e
    case Route(_, _, _) => RouteForward(w, e, a);
    case ReadReply(_) => ReplyForward(w, e, a);
    case ConnectDone(_, _) => SocketForward(w, e, a);
    case ConnectFail(_) => SocketForward(w, e, a);
    case Disconnect(_) => SocketForward(w, e, a);
    case _ => OtherForward(w, e, a);
  }

  lemma ReplyForward(w: World, e: Event, a: u32)
    requires e.ReadReply? && w.ok && NodesInv(w) && forall b :: LookupInv(w, b)
    ensures Forward(w, Next(w, e), a)
  {
    hide LookupInv, NodesInv;
    ReplyLookup(w, e, 0);
    NodeAt(w, a);
  }

  lemma NodeAt(w: World, a: u32)
    requires NodesInv(w)
    ensures a in w.d.nodes ==> NodeInv(w.d.nodes[a])
  {
  }

  lemma SocketForward(w: World, e: Event, a: u32)
    requires e.ConnectDone? || e.ConnectFail? || e.Disconnect?
    requires w.ok
    ensures Forward(w, Next(w, e), a)
  {
    hide Next;
    var o := SocketStep(w, e);
  }

  lemma OtherForward(w: World, e: Event, a: u32)
    requires e.ResolveUp? || e.ResolveDown? || e.ServerReads? || e.ServerOther?
    ensures Forward(w, Next(w, e), a)
  {
    hide Registry.Next;
  }

  lemma RouteForward(w: World, e: Event, a: u32)
    requires e.Route? && w.ok && NodesInv(w)
    ensures Forward(w, Next(w, e), a)
  {
    hide CacheLog;
    assert a in w.d.nodes ==> NodeInv(w.d.nodes[a]);
  }

  /** nodes_index_ holds exactly the addresses with an attempt in flight or a live connection, each pointing to the
      node whose address it is; no address has two attempts, or an attempt and a connection, or two connections. */
  lemma IndexCoherence(conf: ConfView, es: seq<Event>, k: NetAddress)
    requires ConfOk(conf) && After(conf, es).ok
    ensures var w := After(conf, es);
            && (k in w.d.index <==> k in w.attempts || exists c :: c in w.live && w.live[c] == k)
            && (k in w.d.index ==> w.d.index[k] in w.d.nodes && w.d.nodes[w.d.index[k]].net == Some(k))
            && w.attempts[k] <= 1
            && (k in w.attempts ==> k !in w.live.Values)
            && (forall c, d :: c in w.live && d in w.live && w.live[c] == w.live[d] == k ==> c == d)
  {
    Reachable(conf, es);
    var w := After(conf, es);
    hide After, AddressInv, LookupInv, NodesInv;
    var x := WiringOf(w);
    if k in x.index {
      assert KeyOk(x, k);
      if k !in x.attempts { assert x.live[x.nodes[x.index[k]].conn.value] == k; }
    }
    forall c | c in x.live && x.live[c] == k ensures k in x.index && x.nodes[x.index[k]].conn == Some(c) {
      assert ConnOk(x, c);
    }
  }

  /** A node carries a connection exactly when that connection is live, on the node's own address and indexed to it. */
  lemma ConnectionCoherence(conf: ConfView, es: seq<Event>, a: u32, c: ConnId)
    requires ConfOk(conf) && After(conf, es).ok
    ensures var w := After(conf, es);
            a in w.d.nodes && w.d.nodes[a].conn == Some(c)
            <==> c in w.live && w.live[c] in w.d.index && w.d.index[w.live[c]] == a
    ensures var w := After(conf, es);
            a in w.d.nodes && w.d.nodes[a].conn == Some(c) ==> w.d.nodes[a].net == Some(w.live[c])
  {
    Reachable(conf, es);
    var w := After(conf, es);
    hide After, AddressInv, LookupInv, NodesInv;
    var x := WiringOf(w);
    if a in x.nodes && x.nodes[a].conn == Some(c) {
      assert OwnerOk(x, a) && KeyOk(x, x.nodes[a].net.value);
    }
    if c in x.live { assert ConnOk(x, c); }
  }

  /** When the daemon calls RegisterNode in a run, its assertion fails exactly in the window between a reply handler's
      attempt and its outcome, or when another node shares the address and a socket on it is in use. */
  lemma RegisterFailsExactly(conf: ConfView, es: seq<Event>, e: Event, a: u32, k: NetAddress)
    requires ConfOk(conf) && After(conf, es).ok && Registers(After(conf, es), e, a, k)
    ensures var w := After(conf, es);
            !Next(w, e).ok <==> InWindow(w, a, k) || Shared(w, a, k)
  {
    Reachable(conf, es);
    StepIndex(After(conf, es), e);
  }

  /** The first assertion to fail in a run is that one, an incomplete flush, or the resolve server's registration. */
  lemma FirstFailureExactly(conf: ConfView, es: seq<Event>, e: Event)
    requires ConfOk(conf) && After(conf, es).ok
    ensures var w := After(conf, es);
            Next(w, e).ok <==> !(RegisterFails(w, e) || FlushFails(w, e) || RegistrationFails(w, e))
  {
    Reachable(conf, es);
    StepIndex(After(conf, es), e);
  }

  /** No two configured nodes share a network address. */
  ghost predicate DistinctNets(conf: ConfView) {
    forall a, b :: a in conf.nodes && b in conf.nodes && a != b ==> conf.nodes[a].net != conf.nodes[b].net
  }

  /** With distinct configured addresses only the window is left. */
  lemma OnlyTheWindow(conf: ConfView, es: seq<Event>, e: Event, a: u32, k: NetAddress)
    requires ConfOk(conf) && DistinctNets(conf) && After(conf, es).ok && Registers(After(conf, es), e, a, k)
    ensures !Next(After(conf, es), e).ok <==> InWindow(After(conf, es), a, k)
    ensures e.ReadReply? ==> Next(After(conf, es), e).ok
  {
    RegisterFailsExactly(conf, es, e, a, k);
    Reachable(conf, es);
    var w := After(conf, es);
    hide After, Next;
    if e.ReadReply? {
      var r := w.replies[e.i].item;
      ReplyLookup(w, e, 0);
      assert NodeInv(w.d.nodes[a]);
    }
  }
}
