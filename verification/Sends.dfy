/** On which connection messages are written, and who is at its other end. */
module Sends {
  import opened Bytes
  import opened Messages
  import opened Nodes
  import opened Conf
  import opened Daemon
  import opened Cluster
  import opened Resolution

  /** A write by this event: of the message it routes, on the connection the message's node has; or of what was cached
      for the node of an attempt that it completes, on the connection it opens. */
  ghost predicate OwnWrite(w: World, e: Event, x: Effect) {
    && x.Written? && x.node in w.d.nodes
    && match e
       case Route(m, _, _) =>
         m.to.node == x.node && w.d.nodes[x.node].conn == Some(x.conn) && x.m == Routed(w.nextId, m)
       case ConnectDone(k, _) =>
         w.attempts[k] > 0 && k in w.d.index && w.d.index[k] == x.node && x.conn == w.nextConn
         && x.m in w.d.nodes[x.node].queue
       case _ => false
  }

  /** The log entries an event adds. */
  lemma NewEntries(w: World, e: Event) returns (more: seq<Effect>)
    ensures Next(w, e).log == w.log + more
    ensures w.ok && e.Route? ==> more == HandleToRemote(w.d, Routed(w.nextId, e.body), e.writeOk).log
    ensures w.ok && e.ConnectDone? && w.attempts[e.net] > 0 ==>
            more == OnConnected(w.d, e.net, w.nextConn, e.accepts).log
    ensures !(w.ok && e.Route?) && !(w.ok && e.ConnectDone? && w.attempts[e.net] > 0) ==>
              forall i :: 0 <= i < |more| ==> !more[i].Written?
  {
    hide HandleToRemote, OnConnected, Registry.Next;
    more := [];
    if w.ok {
      match e
      case Route(m, writeOk, _) => more := HandleToRemote(w.d, Routed(w.nextId, m), writeOk).log;
      case ConnectDone(k, accepts) => if w.attempts[k] > 0 { more := OnConnected(w.d, k, w.nextConn, accepts).log; }
      case ReadReply(i) =>
        if IsNext(w.replies, i) && w.d.resolveConn == Some(w.replies[i].conn) {
          more := HandleResponse(w.d, w.replies[i].item).log;
          NoWrites(w.d, w.replies[i].item, NetAddress([], 0));
        }
      case ConnectFail(k) => NoWrites(w.d, Response(0, 0, 0, k, []), k);
      case Disconnect(c) => if c in w.live { NoWrites(w.d, Response(0, 0, 0, w.live[c], []), w.live[c]); }
      case _ =>
    }
  }

  lemma NoWrites(s: State, r: Response, k: NetAddress)
    ensures forall i :: 0 <= i < |HandleResponse(s, r).log| ==> !HandleResponse(s, r).log[i].Written?
    ensures OnConnectError(s, k).log == [] && OnDisconnected(s, k).log == []
  {
  }

  lemma RouteWrites(s: State, m: Routed, writeOk: bool, i: nat)
    requires i < |HandleToRemote(s, m, writeOk).log| && HandleToRemote(s, m, writeOk).log[i].Written?
    ensures var x := HandleToRemote(s, m, writeOk).log[i];
            x.node == m.body.to.node && x.node in s.nodes && s.nodes[x.node].conn == Some(x.conn) && x.m == m
  {
  }

  lemma DoneWrites(s: State, k: NetAddress, c: ConnId, accepts: nat -> bool, i: nat)
    requires i < |OnConnected(s, k, c, accepts).log| && OnConnected(s, k, c, accepts).log[i].Written?
    ensures var x := OnConnected(s, k, c, accepts).log[i];
            && k in s.index && s.index[k] == x.node && x.node in s.nodes && x.conn == c && x.m in s.nodes[x.node].queue
  {
    hide Accepted;
  }

  lemma WritesOwn(w: World, e: Event, p: nat)
    requires |w.log| <= p < |Next(w, e).log| && Next(w, e).log[p].Written?
    ensures w.ok && OwnWrite(w, e, Next(w, e).log[p])
  {
    hide Next, HandleToRemote, OnConnected;
    var more := NewEntries(w, e);
    var i := p - |w.log|;
    assert Next(w, e).log[p] == more[i];
    if w.ok && e.Route? { RouteWrites(w.d, Routed(w.nextId, e.body), e.writeOk, i); }
    else if w.ok && e.ConnectDone? && w.attempts[e.net] > 0 { DoneWrites(w.d, e.net, w.nextConn, e.accepts, i); }
  }

  /** In every run, each write was made by one event of it, on the node's own connection at that time or on the one
      that event opened for it. */
  lemma {:induction false} EveryWriteIsOwn(conf: ConfView, es: seq<Event>, p: nat) returns (i: nat)
    requires p < |After(conf, es).log| && After(conf, es).log[p].Written?
    ensures i < |es| && After(conf, es[..i]).ok && |After(conf, es[..i]).log| <= p
    ensures OwnWrite(After(conf, es[..i]), es[i], After(conf, es).log[p])
  {
    hide Next, OwnWrite;
    if es == [] {
      NothingAtBoot(conf);
      assert false;
    } else {
      var n := |es| - 1;
      var w := After(conf, es[..n]);
      var more := NewEntries(w, es[n]);
      if p >= |w.log| {
        i := n;
        WritesOwn(w, es[n], p);
      } else {
        i := EveryWriteIsOwn(conf, es[..n], p);
        assert es[..n][..i] == es[..i];
      }
    }
  }

  lemma NothingAtBoot(conf: ConfView)
    ensures After(conf, []).log == []
  {
  }

  // ---------------------------------------------------------------- the other end

  function PeersAfter(w: World, e: Event, peers: map<ConnId, NetAddress>): map<ConnId, NetAddress> {
    if w.ok && e.ConnectDone? && w.attempts[e.net] > 0 then peers[w.nextConn := e.net] else peers
  }

  /** The address each connection of a run was opened to. */
  function Peers(conf: ConfView, es: seq<Event>): map<ConnId, NetAddress> {
    if es == [] then map[]
    else
      var w, e := After(conf, es[..|es| - 1]), es[|es| - 1];
      PeersAfter(w, e, Peers(conf, es[..|es| - 1]))
  }

  ghost predicate PeersOk(w: World, peers: map<ConnId, NetAddress>) {
    && (forall c :: c in w.live ==> c in peers && peers[c] == w.live[c])
    && (forall c :: c in peers ==> c < w.nextConn)
  }

  lemma PeersStep(w: World, e: Event, peers: map<ConnId, NetAddress>)
    requires PeersOk(w, peers)
    ensures PeersOk(Next(w, e), PeersAfter(w, e, peers))
  {
    hide HandleToRemote, HandleResponse, OnConnected, OnConnectError, OnDisconnected, Registry.Next;
  }

  lemma {:induction false} PeersAreOk(conf: ConfView, es: seq<Event>)
    ensures PeersOk(After(conf, es), Peers(conf, es))
  {
    if es == [] {
      assert After(conf, es) == Boot(conf);
    } else {
      hide Next, PeersOk;
      PeersAreOk(conf, es[..|es| - 1]);
      PeersStep(After(conf, es[..|es| - 1]), es[|es| - 1], Peers(conf, es[..|es| - 1]));
    }
  }

  /** What is written goes to the configured address of its node. */
  ghost predicate ToPeer(conf: ConfView, x: Effect, peers: map<ConnId, NetAddress>) {
    x.Written? ==> x.conn in peers && x.node in conf.nodes && conf.nodes[x.node].net == peers[x.conn]
  }

  ghost predicate ToPeers(conf: ConfView, log: seq<Effect>, peers: map<ConnId, NetAddress>) {
    forall p :: 0 <= p < |log| ==> ToPeer(conf, log[p], peers)
  }

  lemma WriteToPeer(w: World, e: Event, x: Effect, peers: map<ConnId, NetAddress>)
    requires w.ok && Inv(w) && OwnWrite(w, e, x) && PeersOk(w, peers)
    ensures ToPeer(w.r.conf, x, PeersAfter(w, e, peers))
  {
    hide LookupInv, NodesInv, Registry.Coherent;
    var v := WiringOf(w);
    if e.Route? {
      assert OwnerOk(v, x.node);
      assert KeyOk(v, v.nodes[x.node].net.value);
    } else {
      assert KeyOk(v, e.net);
    }
  }

  lemma NewToPeer(w: World, e: Event, x: Effect, peers: map<ConnId, NetAddress>)
    requires (x.Written? ==> w.ok && OwnWrite(w, e, x)) && PeersOk(w, peers) && (w.ok ==> Inv(w))
    ensures ToPeer(w.r.conf, x, PeersAfter(w, e, peers))
  {
    hide Inv, PeersOk, OwnWrite, PeersAfter;
    if x.Written? { WriteToPeer(w, e, x, peers); }
  }

  lemma ToPeersStep(conf: ConfView, w: World, e: Event, peers: map<ConnId, NetAddress>)
    requires ToPeers(conf, w.log, peers) && PeersOk(w, peers) && w.r.conf == conf && (w.ok ==> Inv(w))
    ensures ToPeers(conf, Next(w, e).log, PeersAfter(w, e, peers))
  {
    hide Next, Inv, PeersOk, OwnWrite, ToPeer, PeersAfter;
    var more := NewEntries(w, e);
    var log, all := Next(w, e).log, PeersAfter(w, e, peers);
    OldToPeers(conf, w, e, peers);
    forall p | 0 <= p < |log| ensures ToPeer(conf, log[p], all) {
      if p < |w.log| {
        assert log[p] == w.log[p];
      } else {
        if log[p].Written? { WritesOwn(w, e, p); }
        NewToPeer(w, e, log[p], peers);
      }
    }
  }

  lemma OldToPeers(conf: ConfView, w: World, e: Event, peers: map<ConnId, NetAddress>)
    requires ToPeers(conf, w.log, peers) && PeersOk(w, peers)
    ensures ToPeers(conf, w.log, PeersAfter(w, e, peers))
  {
    assert w.nextConn !in peers;
    forall p | 0 <= p < |w.log| ensures ToPeer(conf, w.log[p], PeersAfter(w, e, peers)) {
      assert ToPeer(conf, w.log[p], peers);
    }
  }

  /** In every run, everything written on a connection is for a node whose configured address is the one that connection
      was opened to. */
  lemma {:induction false} WrittenToOwnPeer(conf: ConfView, es: seq<Event>)
    requires ConfOk(conf)
    ensures ToPeers(conf, After(conf, es).log, Peers(conf, es))
  {
    if es == [] {
      NothingAtBoot(conf);
    } else {
      var front := es[..|es| - 1];
      WrittenToOwnPeer(conf, front);
      Reachable(conf, front);
      PeersAreOk(conf, front);
      hide Next, Inv, PeersOk, ToPeers;
      ToPeersStep(conf, After(conf, front), es[|es| - 1], Peers(conf, front));
    }
  }
}
