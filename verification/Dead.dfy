/** Two ways in which the source gives up on a node for good. */
module Dead {
  import opened Bytes
  import opened Addressing
  import opened Messages
  import opened Nodes
  import opened Conf
  import opened Daemon
  import opened Cluster
  import opened Resolution
  import Registry

  function DeliveryFor(x: Effect): Option<u32> {
    if x.Written? || x.Dialled? || x.LookedUp? || x.Flushed? then Some(x.node) else None
  }

  /** Nothing about a is on its way that can still reach the daemon: entries of an earlier connection to the resolve
      server are stranded. */
  ghost predicate NoAnswerComing(w: World, a: u32) {
    && (forall i :: 0 <= i < |w.requests| && w.d.resolveConn == Some(w.requests[i].conn) ==>
          AskedFor(w.requests[i]) != Some(a))
    && (forall i :: 0 <= i < |w.replies| && w.d.resolveConn == Some(w.replies[i].conn) ==>
          AnsweredFor(w.replies[i]) != Some(a))
  }

  /** No socket, and either marked as connecting (a connection that broke after an attempt made by a routed message,
      which never clears the mark) or being resolved with no answer coming (a failed or lost lookup). */
  ghost predicate GivenUp(w: World, a: u32) {
    && a in w.d.nodes && w.d.nodes[a].conn.None?
    && (forall k :: k in w.d.index ==> w.d.index[k] != a)
    && (w.d.nodes[a].connecting || (w.d.nodes[a].state.Resolving? && NoAnswerComing(w, a)))
  }

  // ---------------------------------------------------------------- connections are numbered upwards

  /** Everything on the wire belongs to a connection that has been opened. */
  ghost predicate OldConns(w: World) {
    && (forall i :: 0 <= i < |w.requests| ==> w.requests[i].conn < w.nextConn)
    && (forall i :: 0 <= i < |w.replies| ==> w.replies[i].conn < w.nextConn)
    && (w.d.resolveConn.Some? ==> w.d.resolveConn.value < w.nextConn)
  }

  lemma LookupConn(s: State, m: Routed, writeOk: bool)
    ensures var o := HandleToRemote(s, m, writeOk);
            && o.state.resolveConn == s.resolveConn && (o.lookup.Some? ==> s.resolveConn == Some(o.lookup.value.conn))
  {
    hide CacheLog;
  }

  lemma OtherConns(s: State, r: Response, k: NetAddress, c: ConnId, accepts: nat -> bool)
    ensures HandleResponse(s, r).state.resolveConn == s.resolveConn && HandleResponse(s, r).lookup.None?
    ensures OnConnected(s, k, c, accepts).state.resolveConn == s.resolveConn
            && OnConnected(s, k, c, accepts).lookup.None?
    ensures OnConnectError(s, k).state.resolveConn == s.resolveConn && OnConnectError(s, k).lookup.None?
    ensures OnDisconnected(s, k).state.resolveConn == s.resolveConn && OnDisconnected(s, k).lookup.None?
  {
  }

  lemma OldConnsStep(w: World, e: Event)
    requires OldConns(w)
    ensures OldConns(Next(w, e))
  {
    hide Registry.Next, HandleToRemote, HandleResponse, OnConnected, OnConnectError, OnDisconnected;
    match e
    case Route(body, writeOk, _) => LookupConn(w.d, Routed(w.nextId, body), writeOk);
    case ReadReply(i) => if i < |w.replies| { OtherConns(w.d, w.replies[i].item, NetAddress([], 0), 0, n => true); }
    case ConnectDone(k, accepts) => OtherConns(w.d, CODE, k, w.nextConn, accepts);
    case ConnectFail(k) => OtherConns(w.d, CODE, k, 0, n => true);
    case Disconnect(c) => if c in w.live { OtherConns(w.d, CODE, w.live[c], 0, n => true); }
    case _ =>
  }

  const CODE := Response(0, 0, 0, NetAddress([], 0), [])

  lemma {:induction false} AlwaysOldConns(conf: ConfView, es: seq<Event>)
    ensures OldConns(After(conf, es))
  {
    if es != [] {
      hide Next, OldConns;
      AlwaysOldConns(conf, es[..|es| - 1]);
      OldConnsStep(After(conf, es[..|es| - 1]), es[|es| - 1]);
    } else {
      assert After(conf, es) == Boot(conf);
    }
  }

  // ---------------------------------------------------------------- nothing more happens

  /** Nothing about a but its queue changes, and nothing is delivered. */
  ghost predicate OnlyQueues(s: State, o: Outcome, a: u32) {
    && a in s.nodes && a in o.state.nodes
    && o.state.nodes[a] == s.nodes[a].(queue := o.state.nodes[a].queue)
    && (forall k :: k in o.state.index && o.state.index[k] == a ==> k in s.index && s.index[k] == a)
    && (forall i :: 0 <= i < |o.log| ==> DeliveryFor(o.log[i]) != Some(a))
    && (o.lookup.Some? ==> o.lookup.value.peer != a)
  }

  ghost predicate Unindexed(s: State, a: u32) { forall k :: k in s.index ==> s.index[k] != a }

  lemma RouteOnlyQueues(s: State, m: Routed, writeOk: bool, a: u32)
    requires a in s.nodes && NodeInv(s.nodes[a]) && s.nodes[a].conn.None? && Unindexed(s, a)
    requires s.nodes[a].connecting || s.nodes[a].state.Resolving?
    ensures OnlyQueues(s, HandleToRemote(s, m, writeOk), a)
  {
  }

  lemma ResponseOnlyQueues(s: State, r: Response, a: u32)
    requires a in s.nodes && Unindexed(s, a) && (r.kind == KUPDATE_CACHE ==> r.addr != a)
    ensures OnlyQueues(s, HandleResponse(s, r), a)
  {
  }

  lemma SocketOnlyQueues(s: State, k: NetAddress, c: ConnId, accepts: nat -> bool, a: u32)
    requires a in s.nodes && Unindexed(s, a)
    ensures OnlyQueues(s, OnConnected(s, k, c, accepts), a)
    ensures OnlyQueues(s, OnConnectError(s, k), a) && OnlyQueues(s, OnDisconnected(s, k), a)
  {
  }

  lemma AbsorbGivenUp(w: World, v: World, o: Outcome, sentOk: bool, viaReply: bool, a: u32)
    requires GivenUp(w, a) && OnlyQueues(w.d, o, a) && o.state.resolveConn == w.d.resolveConn
    requires v.d == w.d && v.log == w.log && (NoAnswerComing(w, a) ==> NoAnswerComing(v, a))
    ensures GivenUp(Absorb(v, o, sentOk, viaReply), a)
    ensures Count(Absorb(v, o, sentOk, viaReply).log, DeliveryFor, a) == Count(w.log, DeliveryFor, a)
  {
    hide Count;
    CountAppend(w.log, o.log, DeliveryFor, a);
    CountNone(o.log, DeliveryFor, a);
  }

  /** A lookup for a that the server reads was on the wire; so is its answer. */
  lemma ServerAnswers(w: World, e: Event, a: u32)
    requires (e.ServerReads? || e.ServerOther?) && w.ok && Registry.Coherent(w.r)
    ensures NoAnswerComing(w, a) ==> NoAnswerComing(Next(w, e), a)
    ensures Next(w, e).d == w.d && Next(w, e).log == w.log
  {
    hide Registry.Next, Registry.Coherent;
    if e.ServerReads? && IsNext(w.requests, e.i) {
      Registry.LookupReplies(w.r, Registry.Message(Registry.Mine(w.requests[e.i].conn), w.requests[e.i].item));
    }
  }

  /** An answer about a node that is being given up can only arrive on a connection that is gone. */
  lemma NotAnswered(w: World, i: nat, a: u32)
    requires Inv(w) && GivenUp(w, a) && i < |w.replies| && w.d.resolveConn == Some(w.replies[i].conn)
    ensures w.replies[i].item.kind == KUPDATE_CACHE ==> w.replies[i].item.addr != a
  {
    hide Count, NodesInv, AddressInv, IndexInv;
    assert LookupInv(w, a) && NodeInv(w.d.nodes[a]) by { InvParts(w, a); }
    CountWithout(w.replies, i, AnsweredFor, a);
  }

  lemma GivenUpSocket(w: World, e: Event, a: u32)
    requires (e.ConnectDone? || e.ConnectFail? || e.Disconnect?) && w.ok && GivenUp(w, a)
    ensures GivenUp(Next(w, e), a)
    ensures Count(Next(w, e).log, DeliveryFor, a) == Count(w.log, DeliveryFor, a)
  {
    hide Count, Next, GivenUp;
    match e
    case ConnectDone(k, accepts) => GivenUpDone(w, k, accepts, a);
    case ConnectFail(k) => GivenUpFail(w, k, a);
    case Disconnect(c) => GivenUpClose(w, c, a);
  }

  lemma GivenUpDone(w: World, k: NetAddress, accepts: nat -> bool, a: u32)
    requires w.ok && GivenUp(w, a)
    ensures GivenUp(Next(w, ConnectDone(k, accepts)), a)
    ensures Count(Next(w, ConnectDone(k, accepts)).log, DeliveryFor, a) == Count(w.log, DeliveryFor, a)
  {
    hide Count, OnConnected, Absorb, OnlyQueues;
    if w.attempts[k] > 0 {
      SocketOnlyQueues(w.d, k, w.nextConn, accepts, a);
      OtherConns(w.d, CODE, k, w.nextConn, accepts);
      AbsorbGivenUp(w, w.(attempts := w.attempts - multiset{k}, live := w.live[w.nextConn := k],
                          nextConn := w.nextConn + 1),
                    OnConnected(w.d, k, w.nextConn, accepts), false, false, a);
    }
  }

  lemma GivenUpFail(w: World, k: NetAddress, a: u32)
    requires w.ok && GivenUp(w, a)
    ensures GivenUp(Next(w, ConnectFail(k)), a)
    ensures Count(Next(w, ConnectFail(k)).log, DeliveryFor, a) == Count(w.log, DeliveryFor, a)
  {
    hide Count, OnConnectError, Absorb, OnlyQueues;
    if w.attempts[k] > 0 {
      SocketOnlyQueues(w.d, k, 0, n => true, a);
      OtherConns(w.d, CODE, k, 0, n => true);
      AbsorbGivenUp(w, w.(attempts := w.attempts - multiset{k}), OnConnectError(w.d, k), false, false, a);
    }
  }

  lemma GivenUpClose(w: World, c: ConnId, a: u32)
    requires w.ok && GivenUp(w, a)
    ensures GivenUp(Next(w, Disconnect(c)), a)
    ensures Count(Next(w, Disconnect(c)).log, DeliveryFor, a) == Count(w.log, DeliveryFor, a)
  {
    hide Count, OnDisconnected, Absorb, OnlyQueues;
    if c in w.live {
      SocketOnlyQueues(w.d, w.live[c], 0, n => true, a);
      OtherConns(w.d, CODE, w.live[c], 0, n => true);
      AbsorbGivenUp(w, w.(live := w.live - {c}), OnDisconnected(w.d, w.live[c]), false, false, a);
    }
  }

  lemma GivenUpStep(w: World, e: Event, a: u32)
    requires w.ok && Inv(w) && OldConns(w) && GivenUp(w, a)
    ensures GivenUp(Next(w, e), a)
    ensures Count(Next(w, e).log, DeliveryFor, a) == Count(w.log, DeliveryFor, a)
  {
    hide Count, Inv, Registry.Next, HandleToRemote, HandleResponse, OnConnected, OnConnectError, OnDisconnected, Absorb,
         OnlyQueues;
    assert NodeInv(w.d.nodes[a]) && LookupInv(w, a) && Registry.Coherent(w.r) by { InvParts(w, a); }
    hide NodeInv, LookupInv;
    match e
    case Route(body, writeOk, sentOk) =>
      var m := Routed(w.nextId, body);
      RouteOnlyQueues(w.d, m, writeOk, a);
      LookupConn(w.d, m, writeOk);
      AbsorbGivenUp(w, w.(nextId := w.nextId + 1), HandleToRemote(w.d, m, writeOk), sentOk, false, a);
    case ConnectDone(_, _) => GivenUpSocket(w, e, a);
    case ConnectFail(_) => GivenUpSocket(w, e, a);
    case Disconnect(_) => GivenUpSocket(w, e, a);
    case ReadReply(i) =>
      if IsNext(w.replies, i) && w.d.resolveConn == Some(w.replies[i].conn) {
        NotAnswered(w, i, a);
        ResponseOnlyQueues(w.d, w.replies[i].item, a);
        OtherConns(w.d, w.replies[i].item, NetAddress([], 0), 0, n => true);
        AbsorbGivenUp(w, w.(replies := Without(w.replies, i)), HandleResponse(w.d, w.replies[i].item), false, true, a);
      }
    case ResolveUp(port, sentOk) =>
    case ResolveDown =>
    case ServerReads(i) => ServerAnswers(w, e, a);
    case ServerOther(x) => ServerAnswers(w, e, a);
  }

  lemma InvParts(w: World, a: u32)
    requires Inv(w) && a in w.d.nodes
    ensures NodeInv(w.d.nodes[a]) && LookupInv(w, a) && Registry.Coherent(w.r)
  {
  }

  /** Once given up, a node stays so: no message for it is ever written again, however the run goes on. */
  lemma {:induction false} GivenUpForever(conf: ConfView, es: seq<Event>, more: seq<Event>, a: u32)
    requires ConfOk(conf) && GivenUp(After(conf, es), a)
    ensures GivenUp(After(conf, es + more), a)
    ensures Count(After(conf, es + more).log, DeliveryFor, a) == Count(After(conf, es).log, DeliveryFor, a)
    decreases |more|
  {
    hide Inv, GivenUp, Count;
    if more == [] {
      assert es + more == es;
    } else {
      var front := more[..|more| - 1];
      assert (es + more)[..|es + more| - 1] == es + front;
      GivenUpForever(conf, es, front, a);
      AlwaysOldConns(conf, es + front);
      var w := After(conf, es + front);
      Reachable(conf, es + front);
      if w.ok { hide Next; GivenUpStep(w, more[|more| - 1], a); }
    }
  }

  /** In a run, a node without a socket is not indexed, and one that is being resolved has none. */
  lemma ResolvingUnindexed(w: World, a: u32)
    requires Inv(w) && Is(w, a, Resolving)
    ensures w.d.nodes[a].conn.None? && !w.d.nodes[a].connecting && Unindexed(w.d, a)
  {
    hide LookupInv, Registry.Coherent;
    assert NodeInv(w.d.nodes[a]);
    forall k | k in w.d.index ensures w.d.index[k] != a { assert KeyOk(WiringOf(w), k); }
  }

  /** A node that is being resolved has been given up exactly when no answer is coming. */
  lemma ResolvingGivenUpExactly(conf: ConfView, es: seq<Event>, a: u32)
    requires ConfOk(conf) && After(conf, es).ok && Is(After(conf, es), a, Resolving)
    ensures GivenUp(After(conf, es), a) <==> NoAnswerComing(After(conf, es), a)
  {
    Reachable(conf, es);
    hide After;
    ResolvingUnindexed(After(conf, es), a);
  }

  /** Losing the connection to the resolve server gives up every node that is being resolved. */
  lemma LostLookupGivesUp(conf: ConfView, es: seq<Event>, a: u32)
    requires ConfOk(conf) && After(conf, es).ok && Is(After(conf, es), a, Resolving)
    ensures GivenUp(Next(After(conf, es), ResolveDown), a)
  {
    Reachable(conf, es);
    hide After;
    ResolvingUnindexed(After(conf, es), a);
  }

  lemma UnresolvedUnindexed(w: World, a: u32)
    requires Inv(w) && !Is(w, a, Resolved)
    ensures Unindexed(w.d, a) && (a in w.d.nodes ==> NodeInv(w.d.nodes[a]))
    ensures !Is(w, a, Resolving) ==> InFlightFor(w, a) == 0
  {
    hide Count, Registry.Coherent;
    assert LookupInv(w, a);
    forall k | k in w.d.index ensures w.d.index[k] != a {
      assert KeyOk(WiringOf(w), k);
      assert NodeInv(w.d.nodes[w.d.index[k]]);
    }
  }

  lemma UnsentStep(w: World, m: Message, writeOk: bool)
    requires w.ok && w.d.resolveConn.Some? && Unindexed(w.d, m.to.node) && NoAnswerComing(w, m.to.node)
    requires !Is(w, m.to.node, Resolving) && !Is(w, m.to.node, Resolved)
    requires m.to.node in w.d.nodes ==> NodeInv(w.d.nodes[m.to.node])
    ensures GivenUp(Next(w, Route(m, writeOk, false)), m.to.node)
  {
    hide CacheLog;
  }

  /** So does a request that could not be written. */
  lemma UnsentLookupGivesUp(conf: ConfView, es: seq<Event>, m: Message, writeOk: bool)
    requires ConfOk(conf) && After(conf, es).ok && After(conf, es).d.resolveConn.Some?
    requires var w := After(conf, es); !Is(w, m.to.node, Resolving) && !Is(w, m.to.node, Resolved)
    ensures GivenUp(Next(After(conf, es), Route(m, writeOk, false)), m.to.node)
  {
    hide After, Inv, Next, GivenUp, NoAnswerComing, InFlightFor;
    Reachable(conf, es);
    UnresolvedUnindexed(After(conf, es), m.to.node);
    NothingUnderWay(After(conf, es), m.to.node);
    UnsentStep(After(conf, es), m, writeOk);
  }

  lemma BrokenStep(w: World, a: u32, c: ConnId)
    requires w.ok && Inv(w) && a in w.d.nodes && w.d.nodes[a].conn == Some(c)
    ensures GivenUp(Next(w, Disconnect(c)), a) <==> w.d.nodes[a].connecting
  {
    hide LookupInv, AddressInv, NoAnswerComing;
    var x := WiringOf(w);
    assert NodeInv(x.nodes[a]) && OwnerOk(x, a) && KeyOk(x, x.nodes[a].net.value);
    forall k | k in x.index && x.index[k] == a ensures k == w.live[c] { assert KeyOk(x, k); }
  }

  /** A broken connection gives its node up exactly when a routed message had started its attempt. */
  lemma BrokenConnectionGivesUp(conf: ConfView, es: seq<Event>, a: u32, c: ConnId)
    requires ConfOk(conf) && After(conf, es).ok
    requires a in After(conf, es).d.nodes && After(conf, es).d.nodes[a].conn == Some(c)
    ensures GivenUp(Next(After(conf, es), Disconnect(c)), a) <==> After(conf, es).d.nodes[a].connecting
  {
    hide After, Inv, Next, GivenUp;
    Reachable(conf, es);
    BrokenStep(After(conf, es), a, c);
  }

  lemma NothingUnderWay(w: World, a: u32)
    requires InFlightFor(w, a) == 0
    ensures NoAnswerComing(w, a)
  {
    hide Count;
    forall i | 0 <= i < |w.requests| ensures AskedFor(w.requests[i]) != Some(a) {
      CountWithout(w.requests, i, AskedFor, a);
    }
    forall i | 0 <= i < |w.replies| ensures AnsweredFor(w.replies[i]) != Some(a) {
      CountWithout(w.replies, i, AnsweredFor, a);
    }
  }

  lemma FailedAnswerLeaves(w: World, i: nat)
    requires w.ok && IsNext(w.replies, i) && w.d.resolveConn == Some(w.replies[i].conn)
    requires w.replies[i].item.kind == KUPDATE_CACHE && w.replies[i].item.code != KOK
    requires var a := w.replies[i].item.addr;
             Is(w, a, Resolving) && NodeInv(w.d.nodes[a]) && Unindexed(w.d, a)
             && NoAnswerComing(w.(replies := Without(w.replies, i)), a)
    ensures GivenUp(Next(w, ReadReply(i)), w.replies[i].item.addr)
  {
    hide IsNext;
  }

  lemma FailedAnswerStep(w: World, i: nat)
    requires w.ok && Inv(w) && IsNext(w.replies, i) && w.d.resolveConn == Some(w.replies[i].conn)
    requires w.replies[i].item.kind == KUPDATE_CACHE && w.replies[i].item.code != KOK
    ensures GivenUp(Next(w, ReadReply(i)), w.replies[i].item.addr)
  {
    hide Count, Next, NoAnswerComing, NodeInv, AddressInv, IndexInv, NodesInv;
    var a := w.replies[i].item.addr;
    assert (forall b :: LookupInv(w, b)) && LookupInv(w, a);
    InvNodes(w);
    ReplyLookup(w, ReadReply(i), a);
    UnresolvedUnindexed(w, a);
    CountWithout(w.replies, i, AnsweredFor, a);
    NothingUnderWay(w.(replies := Without(w.replies, i)), a);
    FailedAnswerLeaves(w, i);
  }

  /** A lookup that fails gives its node up, always. */
  lemma FailedLookupGivesUp(conf: ConfView, es: seq<Event>, i: nat)
    requires ConfOk(conf) && After(conf, es).ok
    requires var w := After(conf, es); IsNext(w.replies, i) && w.d.resolveConn == Some(w.replies[i].conn)
    requires var r := After(conf, es).replies[i].item; r.kind == KUPDATE_CACHE && r.code != KOK
    ensures GivenUp(Next(After(conf, es), ReadReply(i)), After(conf, es).replies[i].item.addr)
  {
    hide After, Inv, Next, GivenUp;
    Reachable(conf, es);
    FailedAnswerStep(After(conf, es), i);
  }
}
