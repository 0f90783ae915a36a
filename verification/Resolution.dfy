/** Every run of the composition keeps the node, lookup, address and index invariants. */
module Resolution {
  import opened Bytes
  import opened Messages
  import opened Nodes
  import opened Conf
  import opened Daemon
  import opened Cluster
  import Registry

  // ---------------------------------------------------------------- nodes

  lemma RouteNodes(s: State, m: Routed, writeOk: bool)
    requires forall a :: a in s.nodes ==> NodeInv(s.nodes[a])
    ensures var t := HandleToRemote(s, m, writeOk).state; forall a :: a in t.nodes ==> NodeInv(t.nodes[a])
  {
  }

  lemma ResponseNodes(s: State, r: Response)
    requires forall a :: a in s.nodes ==> NodeInv(s.nodes[a])
    requires r.kind == KUPDATE_CACHE ==> r.addr in s.nodes && s.nodes[r.addr].state.Resolving?
    ensures var t := HandleResponse(s, r).state; forall a :: a in t.nodes ==> NodeInv(t.nodes[a])
  {
  }

  lemma AttemptNodes(s: State, k: NetAddress, c: ConnId, accepts: nat -> bool)
    requires forall a :: a in s.nodes ==> NodeInv(s.nodes[a])
    requires k in s.index ==> s.index[k] in s.nodes && s.nodes[s.index[k]].net == Some(k)
    ensures var t := OnConnected(s, k, c, accepts).state; forall a :: a in t.nodes ==> NodeInv(t.nodes[a])
    ensures var t := OnConnectError(s, k).state; forall a :: a in t.nodes ==> NodeInv(t.nodes[a])
    ensures var t := OnDisconnected(s, k).state; forall a :: a in t.nodes ==> NodeInv(t.nodes[a])
  {
  }

  // ---------------------------------------------------------------- the index

  /** A node appears, or changes without touching its socket; an address only appears where there was none. */
  ghost predicate Quiet(x: Wiring, a: u32, n: NodeView) {
    if a in x.nodes then
      && n.conn == x.nodes[a].conn && n.connecting == x.nodes[a].connecting
      && (n.net == x.nodes[a].net || (x.nodes[a].net.None? && n.conn.None?))
    else n.conn.None?
  }

  lemma QuietWired(x: Wiring, a: u32, n: NodeView)
    requires Wired(x) && Quiet(x, a, n)
    ensures Wired(x.(nodes := x.nodes[a := n]))
  {
    var y := x.(nodes := x.nodes[a := n]);
    forall k | k in y.index ensures KeyOk(y, k) { assert KeyOk(x, k); }
    forall c | c in y.live ensures ConnOk(y, c) { assert ConnOk(x, c); assert KeyOk(x, x.live[c]); }
    forall b | b in y.nodes ensures OwnerOk(y, b) { assert b in x.nodes ==> OwnerOk(x, b); }
  }

  function WithDial(x: Wiring, a: u32, n: NodeView, k: NetAddress, viaReply: bool): Wiring {
    x.(nodes := x.nodes[a := n], index := x.index[k := a], attempts := x.attempts + multiset{k},
       byReply := if viaReply then x.byReply + {k} else x.byReply - {k})
  }

  ghost predicate MayDial(x: Wiring, a: u32, n: NodeView, k: NetAddress, viaReply: bool) {
    && Wired(x) && k !in x.index
    && n.net == Some(k) && n.conn.None? && n.connecting == !viaReply
    && (a in x.nodes ==> x.nodes[a].conn.None? && x.nodes[a].net in {None, Some(k)})
  }

  lemma DialKey(x: Wiring, a: u32, n: NodeView, k: NetAddress, viaReply: bool, j: NetAddress)
    requires MayDial(x, a, n, k, viaReply) && (j == k || j in x.index)
    ensures KeyOk(WithDial(x, a, n, k, viaReply), j)
  {
    assert j != k ==> KeyOk(x, j);
  }

  lemma DialLive(x: Wiring, a: u32, n: NodeView, k: NetAddress, viaReply: bool, c: ConnId)
    requires MayDial(x, a, n, k, viaReply) && c in x.live
    ensures ConnOk(WithDial(x, a, n, k, viaReply), c)
  {
    assert ConnOk(x, c) && KeyOk(x, x.live[c]);
  }

  /** A node with an address that nobody uses starts an attempt. */
  lemma DialWired(x: Wiring, a: u32, n: NodeView, k: NetAddress, viaReply: bool)
    requires MayDial(x, a, n, k, viaReply)
    ensures Wired(WithDial(x, a, n, k, viaReply))
  {
    hide KeyOk, ConnOk;
    var y := WithDial(x, a, n, k, viaReply);
    forall j | j in y.index ensures KeyOk(y, j) { DialKey(x, a, n, k, viaReply, j); }
    forall c | c in y.live ensures ConnOk(y, c) { DialLive(x, a, n, k, viaReply, c); }
    forall b | b in y.nodes ensures OwnerOk(y, b) { assert b in x.nodes ==> OwnerOk(x, b); }
  }

  function WithConnection(x: Wiring, k: NetAddress, c: ConnId, n: NodeView): Wiring
    requires k in x.index
  {
    x.(nodes := x.nodes[x.index[k] := n], attempts := x.attempts - multiset{k}, live := x.live[c := k])
  }

  ghost predicate MayConnect(x: Wiring, k: NetAddress, c: ConnId, n: NodeView) {
    && Wired(x) && x.attempts[k] > 0 && c !in x.live && k in x.index
    && x.index[k] in x.nodes && n == x.nodes[x.index[k]].(queue := n.queue, conn := Some(c))
  }

  lemma DoneKey(x: Wiring, k: NetAddress, c: ConnId, n: NodeView, j: NetAddress)
    requires MayConnect(x, k, c, n) && j in x.index
    ensures KeyOk(WithConnection(x, k, c, n), j)
  {
    assert KeyOk(x, k) && KeyOk(x, j);
  }

  lemma DoneLive(x: Wiring, k: NetAddress, c: ConnId, n: NodeView, d: ConnId)
    requires MayConnect(x, k, c, n) && (d == c || d in x.live)
    ensures ConnOk(WithConnection(x, k, c, n), d)
  {
    assert KeyOk(x, k);
    if d != c { assert ConnOk(x, d) && KeyOk(x, x.live[d]); }
  }

  /** An attempt becomes a connection. */
  lemma DoneWired(x: Wiring, k: NetAddress, c: ConnId, n: NodeView)
    requires MayConnect(x, k, c, n)
    ensures Wired(WithConnection(x, k, c, n))
  {
    assert KeyOk(x, k);
    hide KeyOk, ConnOk;
    var y := WithConnection(x, k, c, n);
    forall j | j in y.index ensures KeyOk(y, j) { DoneKey(x, k, c, n, j); }
    forall d | d in y.live ensures ConnOk(y, d) { DoneLive(x, k, c, n, d); }
    forall b | b in y.nodes ensures OwnerOk(y, b) { assert OwnerOk(x, b); }
  }

  /** The socket on k goes away: its node keeps its address but loses connection or attempt, and its index entry. */
  lemma ReleaseWired(x: Wiring, k: NetAddress, n: NodeView, attempts: multiset<NetAddress>,
                     live: map<ConnId, NetAddress>)
    requires Wired(x) && k in x.index
    requires n.net == Some(k) && n.conn.None?
    requires attempts == x.attempts[k := 0]
    requires live == map c | c in x.live && x.live[c] != k :: x.live[c]
    ensures Wired(x.(nodes := x.nodes[x.index[k] := n], index := x.index - {k}, attempts := attempts, live := live))
  {
    assert KeyOk(x, k);
    var a := x.index[k];
    var y := x.(nodes := x.nodes[a := n], index := x.index - {k}, attempts := attempts, live := live);
    forall j | j in y.index ensures KeyOk(y, j) { assert KeyOk(x, j); }
    forall c | c in y.live ensures ConnOk(y, c) { assert ConnOk(x, c); assert KeyOk(x, x.live[c]); }
    forall b | b in y.nodes ensures OwnerOk(y, b) { assert OwnerOk(x, b); }
  }

  /** Event e makes the daemon call RegisterNode for node a with network address k. */
  ghost predicate Registers(w: World, e: Event, a: u32, k: NetAddress) {
    match e
    case Route(body, _, _) =>
      && body.to.node == a && a in w.d.nodes
      && w.d.nodes[a] == NodeView(false, Resolved, Some(k), w.d.nodes[a].queue, None)
    case ReadReply(i) =>
      && IsNext(w.replies, i) && w.d.resolveConn == Some(w.replies[i].conn)
      && var r := w.replies[i].item; r.kind == KUPDATE_CACHE && r.code == KOK && r.addr == a && r.net == k
    case _ => false
  }

  /** Between the connection attempt of a reply handler and its outcome. */
  ghost predicate InWindow(w: World, a: u32, k: NetAddress) {
    k in w.attempts && k in w.byReply && a in w.d.nodes && w.d.nodes[a].net == Some(k)
  }

  /** Another node has the same network address, and a socket on that address is in use. */
  ghost predicate Shared(w: World, a: u32, k: NetAddress) {
    && (exists b :: b in w.d.nodes && b != a && w.d.nodes[b].net == Some(k))
    && (k in w.attempts || exists c :: c in w.live && w.live[c] == k)
  }

  /** The index assertion of RegisterNode, in terms of sockets. */
  lemma OccupiedExactly(w: World, a: u32, k: NetAddress)
    requires IndexInv(w)
    requires a in w.d.nodes ==> w.d.nodes[a].conn.None? && (w.d.nodes[a].net == Some(k) ==> !w.d.nodes[a].connecting)
    ensures k in w.d.index <==> InWindow(w, a, k) || Shared(w, a, k)
  {
    var x := WiringOf(w);
    if k in x.index {
      assert KeyOk(x, k);
      var b := x.index[k];
      if x.nodes[b].conn.Some? {
        assert x.live[x.nodes[b].conn.value] == k;
      }
    }
    if c :| c in w.live && w.live[c] == k { assert ConnOk(x, c); }
  }

  /** The branch of HandleToRemoteMessage that starts an attempt. */
  predicate StartsAttempt(s: State, a: u32) {
    a in s.nodes && s.nodes[a].state.Resolved? && s.nodes[a].net.Some? && s.nodes[a].conn.None?
        && !s.nodes[a].connecting
  }

  lemma RouteAttempt(w: World, e: Event)
    requires e.Route? && w.ok && IndexInv(w) && StartsAttempt(w.d, e.body.to.node)
    ensures var k := w.d.nodes[e.body.to.node].net.value;
            && (Next(w, e).ok <==> k !in w.d.index) && (Next(w, e).ok ==> IndexInv(Next(w, e)))
            && (forall b, j :: Registers(w, e, b, j) <==> b == e.body.to.node && j == k)
  {
    hide Wired, CacheLog;
    var x, a := WiringOf(w), e.body.to.node;
    var k := x.nodes[a].net.value;
    if k !in x.index { DialWired(x, a, x.nodes[a].(connecting := true), k, false); }
  }

  lemma RouteQuiet(w: World, e: Event)
    requires e.Route? && w.ok && NodesInv(w) && IndexInv(w) && !StartsAttempt(w.d, e.body.to.node)
    ensures Next(w, e).ok && IndexInv(Next(w, e)) && forall b, j :: !Registers(w, e, b, j)
  {
    hide Wired, CacheLog;
    var x, a := WiringOf(w), e.body.to.node;
    assert a in x.nodes ==> NodeInv(x.nodes[a]);
    var o := HandleToRemote(w.d, Routed(w.nextId, e.body), e.writeOk);
    if a in o.state.nodes {
      QuietWired(x, a, o.state.nodes[a]);
      assert x.nodes[a := o.state.nodes[a]] == o.state.nodes;
    }
  }

  lemma RouteIndex(w: World, e: Event)
    requires e.Route? && w.ok && NodesInv(w) && IndexInv(w)
    ensures Next(w, e).ok ==> IndexInv(Next(w, e))
    ensures forall a, k | Registers(w, e, a, k) :: Next(w, e).ok <==> !(InWindow(w, a, k) || Shared(w, a, k))
    ensures !Next(w, e).ok ==> exists a, k :: Registers(w, e, a, k)
  {
    hide Next, IndexInv, InWindow, Shared, Registers, NodesInv;
    var a := e.body.to.node;
    if StartsAttempt(w.d, a) {
      RouteAttempt(w, e);
      OccupiedExactly(w, a, w.d.nodes[a].net.value);
      assert Registers(w, e, a, w.d.nodes[a].net.value);
    } else {
      RouteQuiet(w, e);
    }
  }

  lemma ReplyIndex(w: World, e: Event)
    requires e.ReadReply? && w.ok && NodesInv(w) && IndexInv(w)
    requires e.i < |w.replies| && w.replies[e.i].item.kind == KUPDATE_CACHE ==>
             Is(w, w.replies[e.i].item.addr, Resolving)
    ensures Next(w, e).ok ==> IndexInv(Next(w, e))
    ensures forall a, k | Registers(w, e, a, k) :: Next(w, e).ok <==> !(InWindow(w, a, k) || Shared(w, a, k))
    ensures !Next(w, e).ok ==> exists a, k :: Registers(w, e, a, k)
  {
    hide Wired;
    if IsNext(w.replies, e.i) && w.d.resolveConn == Some(w.replies[e.i].conn)
        && w.replies[e.i].item.kind == KUPDATE_CACHE {
      var r, x := w.replies[e.i].item, WiringOf(w);
      var n := x.nodes[r.addr];
      assert NodeInv(n);
      if r.code == KOK {
        var m := n.(net := Some(r.net), state := Resolved);
        assert Registers(w, e, r.addr, r.net);
        OccupiedExactly(w, r.addr, r.net);
        if r.net !in x.index { DialWired(x, r.addr, m, r.net, true); }
      } else {
        QuietWired(x, r.addr, n);
      }
    }
  }

  lemma AttemptIndexed(x: Wiring, k: NetAddress)
    requires Wired(x) && x.attempts[k] > 0
    ensures k in x.index && KeyOk(x, k)
  {
    assert k in x.attempts;
  }

  lemma DoneIndex(w: World, e: Event)
    requires e.ConnectDone? && w.ok && NodesInv(w) && IndexInv(w)
    ensures Next(w, e).ok ==> IndexInv(Next(w, e))
    ensures w.attempts[e.net] > 0 ==>
              e.net in w.d.index && w.d.index[e.net] in w.d.nodes
              && var q := w.d.nodes[w.d.index[e.net]].queue; (Next(w, e).ok <==> Accepted(e.accepts, |q|) == |q|)
    ensures w.attempts[e.net] == 0 ==> Next(w, e).ok
  {
    hide Wired;
    if w.attempts[e.net] > 0 {
      var x := WiringOf(w);
      AttemptIndexed(x, e.net);
      var n := x.nodes[x.index[e.net]];
      var k := Accepted(e.accepts, |n.queue|);
      if k == |n.queue| {
        DoneWired(x, e.net, w.nextConn, n.(queue := n.queue[k..], conn := Some(w.nextConn)));
      }
    }
  }

  /** A failed attempt releases its address. */
  lemma FailWired(x: Wiring, k: NetAddress)
    requires Wired(x) && x.attempts[k] > 0
    ensures k in x.index && x.index[k] in x.nodes && x.nodes[x.index[k]].net == Some(k)
    ensures Wired(x.(nodes := x.nodes[x.index[k] := x.nodes[x.index[k]].(connecting := false)], index := x.index - {k},
                     attempts := x.attempts - multiset{k}))
  {
    AttemptIndexed(x, k);
    forall c | c in x.live ensures x.live[c] != k { assert ConnOk(x, c); }
    hide Wired;
    assert x.live == map c | c in x.live && x.live[c] != k :: x.live[c];
    assert x.attempts - multiset{k} == x.attempts[k := 0];
    ReleaseWired(x, k, x.nodes[x.index[k]].(connecting := false), x.attempts - multiset{k}, x.live);
  }

  lemma FailIndex(w: World, e: Event)
    requires e.ConnectFail? && w.ok && NodesInv(w) && IndexInv(w)
    ensures Next(w, e).ok && IndexInv(Next(w, e))
  {
    hide Wired, NodesInv;
    if w.attempts[e.net] > 0 { FailWired(WiringOf(w), e.net); }
  }

  /** A closed connection releases its address. */
  lemma CloseWired(x: Wiring, c: ConnId)
    requires Wired(x) && c in x.live
    ensures var k := x.live[c];
            && k in x.index && x.index[k] in x.nodes && x.nodes[x.index[k]].net == Some(k)
            && Wired(x.(nodes := x.nodes[x.index[k] := x.nodes[x.index[k]].(conn := None)], index := x.index - {k},
                        live := x.live - {c}))
  {
    var k := x.live[c];
    assert ConnOk(x, c) && KeyOk(x, k);
    forall d | d in x.live && d != c ensures x.live[d] != k { assert ConnOk(x, d); }
    hide Wired;
    assert x.live - {c} == map d | d in x.live && x.live[d] != k :: x.live[d];
    assert x.attempts == x.attempts[k := 0];
    ReleaseWired(x, k, x.nodes[x.index[k]].(conn := None), x.attempts, x.live - {c});
  }

  lemma DisconnectIndex(w: World, e: Event)
    requires e.Disconnect? && w.ok && NodesInv(w) && IndexInv(w)
    ensures Next(w, e).ok && IndexInv(Next(w, e))
  {
    hide Wired, NodesInv;
    if e.conn in w.live { CloseWired(WiringOf(w), e.conn); }
  }

  // ---------------------------------------------------------------- lookups

  lemma CacheLogCount(b: u32, n: NodeView, m: Routed, a: u32)
    ensures Count(CacheLog(b, n, m), LookedFor, a) == 0
  {
    CountNone(CacheLog(b, n, m), LookedFor, a);
  }

  lemma RouteLog(s: State, m: Routed, writeOk: bool, a: u32)
    ensures var o := HandleToRemote(s, m, writeOk);
            Count(o.log, LookedFor, a) == (if o.lookup.Some? && a == m.body.to.node then 1 else 0)
  {
    hide Count, CacheLog;
    var b := m.body.to.node;
    var n := if b in s.nodes then s.nodes[b] else NEW_NODE;
    CacheLogCount(b, n, m, a);
    CountOne(Arrived(b, m), LookedFor, a);
    CountOne(LookedUp(b), LookedFor, a);
    CountAppend([Arrived(b, m)], CacheLog(b, n, m), LookedFor, a);
    CountAppend([Arrived(b, m)], [LookedUp(b)], LookedFor, a);
    assert [Arrived(b, m)] + [LookedUp(b)] == [Arrived(b, m), LookedUp(b)];
    CountAppend([Arrived(b, m), LookedUp(b)], CacheLog(b, n, m), LookedFor, a);
    var o := HandleToRemote(s, m, writeOk);
    if forall i :: 0 <= i < |o.log| ==> !o.log[i].LookedUp? { CountNone(o.log, LookedFor, a); }
  }

  /** Routing changes a resolve state only by looking up a node that was not resolved. */
  lemma RouteState(s: State, m: Routed, writeOk: bool, a: u32)
    ensures var o := HandleToRemote(s, m, writeOk);
            var x := if a in s.nodes then s.nodes[a].state else NotResolved;
            var y := if a in o.state.nodes then o.state.nodes[a].state else NotResolved;
            && (o.lookup.Some? ==> o.lookup.value.peer == m.body.to.node)
            && (if o.lookup.Some? && a == m.body.to.node then x.NotResolved? && y.Resolving? else y == x)
  {
    hide CacheLog;
  }

  lemma RouteLookup(w: World, e: Event, a: u32)
    requires e.Route? && w.ok && LookupInv(w, a)
    ensures LookupInv(Next(w, e), a)
  {
    hide Count, HandleToRemote;
    var m := Routed(w.nextId, e.body);
    var o := HandleToRemote(w.d, m, e.writeOk);
    RouteLog(w.d, m, e.writeOk, a);
    RouteState(w.d, m, e.writeOk, a);
    CountAppend(w.log, o.log, LookedFor, a);
    if o.lookup.Some? && e.sentOk {
      var q := InFlight(o.lookup.value.conn, Registry.Request(Registry.KLOOKUP_NODE, o.lookup.value.self, 0,
                                                              o.lookup.value.peer));
      CountAppend(w.requests, [q], AskedFor, a);
      CountOne(q, AskedFor, a);
    }
  }

  lemma ReplyLookup(w: World, e: Event, a: u32)
    requires e.ReadReply? && w.ok && LookupInv(w, a)
    requires forall b :: LookupInv(w, b)
    ensures LookupInv(Next(w, e), a)
    ensures e.i < |w.replies| && w.replies[e.i].item.kind == KUPDATE_CACHE ==>
            Is(w, w.replies[e.i].item.addr, Resolving)
  {
    hide Count;
    if e.i < |w.replies| {
      var r := w.replies[e.i].item;
      CountWithout(w.replies, e.i, AnsweredFor, a);
      CountWithout(w.replies, e.i, AnsweredFor, r.addr);
      assert LookupInv(w, r.addr);
      var o := HandleResponse(w.d, r);
      CountNone(o.log, LookedFor, a);
      CountAppend(w.log, o.log, LookedFor, a);
    }
  }

  /** The socket callbacks look nothing up and leave resolve states and addresses alone. */
  ghost predicate SocketOutcome(s: State, o: Outcome) {
    && o.lookup.None? && o.dial.None? && o.state.nodes.Keys == s.nodes.Keys && o.state.resolveConn == s.resolveConn
    && (forall i :: 0 <= i < |o.log| ==> !o.log[i].LookedUp?)
    && (forall a :: a in s.nodes ==>
          o.state.nodes[a].state == s.nodes[a].state && o.state.nodes[a].net == s.nodes[a].net)
  }

  lemma ConnectedOutcome(s: State, k: NetAddress, c: ConnId, accepts: nat -> bool)
    ensures SocketOutcome(s, OnConnected(s, k, c, accepts))
  {
  }

  lemma ReleaseOutcome(s: State, k: NetAddress)
    ensures SocketOutcome(s, OnConnectError(s, k)) && SocketOutcome(s, OnDisconnected(s, k))
  {
  }

  lemma SocketOutcomes(s: State, k: NetAddress, c: ConnId, accepts: nat -> bool)
    ensures SocketOutcome(s, OnConnected(s, k, c, accepts))
    ensures SocketOutcome(s, OnConnectError(s, k))
    ensures SocketOutcome(s, OnDisconnected(s, k))
  {
    hide *;
    ConnectedOutcome(s, k, c, accepts);
    ReleaseOutcome(s, k);
  }

  lemma SocketStep(w: World, e: Event) returns (o: Outcome)
    requires (e.ConnectDone? || e.ConnectFail? || e.Disconnect?) && w.ok
    ensures SocketOutcome(w.d, o)
    ensures Next(w, e).d == o.state && Next(w, e).log == w.log + o.log && Next(w, e).r == w.r
    ensures Next(w, e).requests == w.requests && Next(w, e).replies == w.replies
  {
    hide SocketOutcome, OnConnected, OnConnectError, OnDisconnected;
    o := Outcome(w.d, None, None, [], true);
    assert SocketOutcome(w.d, o) && w.log + [] == w.log by { SocketNothing(w.d); }
    match e {
      case ConnectDone(k, accepts) =>
        if w.attempts[k] > 0 {
          SocketOutcomes(w.d, k, w.nextConn, accepts);
          o := OnConnected(w.d, k, w.nextConn, accepts);
        }
      case ConnectFail(k) =>
        if w.attempts[k] > 0 { SocketOutcomes(w.d, k, 0, n => true); o := OnConnectError(w.d, k); }
      case Disconnect(c) =>
        if c in w.live { SocketOutcomes(w.d, w.live[c], 0, n => true); o := OnDisconnected(w.d, w.live[c]); }
      case _ =>
    }
    SocketNoIo(w.d, o);
  }

  lemma SocketNothing(s: State)
    ensures SocketOutcome(s, Outcome(s, None, None, [], true))
  {
  }

  lemma SocketNoIo(s: State, o: Outcome)
    requires SocketOutcome(s, o)
    ensures o.lookup.None? && o.dial.None?
  {
  }

  lemma SocketLookup(w: World, e: Event, a: u32)
    requires e.ConnectDone? || e.ConnectFail? || e.Disconnect?
    requires w.ok && LookupInv(w, a)
    ensures LookupInv(Next(w, e), a)
  {
    hide Count, Next;
    var o := SocketStep(w, e);
    CountNone(o.log, LookedFor, a);
    CountAppend(w.log, o.log, LookedFor, a);
  }

  lemma ResolveConnLookup(w: World, e: Event, a: u32)
    requires e.ResolveUp? || e.ResolveDown?
    requires w.ok && LookupInv(w, a)
    ensures LookupInv(Next(w, e), a)
  {
    hide Count;
    if e.ResolveUp? {
      var q := InFlight(w.nextConn, Registry.Request(Registry.KINITIALIZE_SELF, 0, e.port, 0));
      CountAppend(w.requests, [q], AskedFor, a);
      CountOne(q, AskedFor, a);
    }
  }

  lemma ServerLookup(w: World, e: Event, a: u32)
    requires e.ServerReads? || e.ServerOther?
    requires w.ok && LookupInv(w, a) && Registry.Coherent(w.r)
    ensures LookupInv(Next(w, e), a)
  {
    hide Count, Registry.Next;
    if e.ServerReads? && IsNext(w.requests, e.i) {
      var x := Registry.Message(Registry.Mine(w.requests[e.i].conn), w.requests[e.i].item);
      CountWithout(w.requests, e.i, AskedFor, a);
      ServerReplies(w.(requests := Without(w.requests, e.i)), x, a);
    } else if e.ServerOther? && Next(w, e) != w {
      ServerReplies(w, e.e, a);
    }
  }

  lemma ServerReplies(w: World, x: Registry.Event, a: u32)
    requires Registry.Coherent(w.r)
    ensures var v := ServerStep(w, x);
            Count(v.replies, AnsweredFor, a) <= Count(w.replies, AnsweredFor, a) +
              (if x.Message? && x.c.Mine? && x.req.kind == Registry.KLOOKUP_NODE && x.req.peer == a then 1 else 0)
    ensures var v := ServerStep(w, x); v.requests == w.requests && v.log == w.log && v.d == w.d
  {
    hide Count, Registry.Next, Registry.Coherent;
    Registry.LookupReplies(w.r, x);
    var reply := Registry.Next(w.r, x).reply;
    if reply.Some? && x.Message? && x.c.Mine? {
      CountAppend(w.replies, [InFlight(x.c.n, reply.value)], AnsweredFor, a);
      CountOne(InFlight(x.c.n, reply.value), AnsweredFor, a);
    }
  }

  // ---------------------------------------------------------------- addresses

  lemma SocketAddresses(w: World, e: Event)
    requires e.ConnectDone? || e.ConnectFail? || e.Disconnect?
    requires w.ok && AddressInv(w)
    ensures AddressInv(Next(w, e))
  {
    hide Registry.Coherent, Next;
    var o := SocketStep(w, e);
  }

  lemma RouteAddresses(w: World, e: Event)
    requires e.Route? && w.ok && AddressInv(w)
    ensures AddressInv(Next(w, e))
  {
    hide Registry.Coherent, HandleToRemote;
    RouteNets(w.d, Routed(w.nextId, e.body), e.writeOk);
  }

  lemma RouteNets(s: State, m: Routed, writeOk: bool)
    ensures var t := HandleToRemote(s, m, writeOk).state;
            forall a :: a in t.nodes && t.nodes[a].net.Some? ==> a in s.nodes && s.nodes[a].net == t.nodes[a].net
  {
    hide CacheLog;
  }

  lemma ReplyAddresses(w: World, e: Event)
    requires e.ReadReply? || e.ResolveUp? || e.ResolveDown?
    requires w.ok && AddressInv(w)
    requires e.ReadReply? && e.i < |w.replies| && w.replies[e.i].item.kind == KUPDATE_CACHE ==>
               Is(w, w.replies[e.i].item.addr, Resolving)
    ensures AddressInv(Next(w, e))
  {
    hide Registry.Coherent;
  }

  lemma ServerAddresses(w: World, e: Event)
    requires e.ServerReads? || e.ServerOther?
    requires w.ok && AddressInv(w)
    ensures Next(w, e).ok ==> AddressInv(Next(w, e))
  {
    hide Registry.Coherent, Registry.Next;
    var x := if e.ServerReads? && IsNext(w.requests, e.i)
             then Registry.Message(Registry.Mine(w.requests[e.i].conn), w.requests[e.i].item)
             else if e.ServerOther? then e.e else Registry.TimerExpires(0);
    Registry.NextCoherent(w.r, x);
    Registry.ConfFixed(w.r, x);
    Registry.LookupReplies(w.r, x);
  }

  // ---------------------------------------------------------------- every run

  /** The resolve server is asked to register a node that is registered, or over a connection that already is. */
  ghost predicate RegistrationFails(w: World, e: Event) {
    match e
    case ServerReads(i) =>
      IsNext(w.requests, i) && Registry.Conflicts(w.r, Registry.Mine(w.requests[i].conn), w.requests[i].item)
    case ServerOther(x) => x.Message? && !x.c.Mine? && Registry.Conflicts(w.r, x.c, x.req)
    case _ => false
  }

  /** A connection does not accept all that was cached for its node. */
  ghost predicate FlushFails(w: World, e: Event) {
    && e.ConnectDone? && w.attempts[e.net] > 0 && e.net in w.d.index && w.d.index[e.net] in w.d.nodes
    && var q := w.d.nodes[w.d.index[e.net]].queue; Accepted(e.accepts, |q|) < |q|
  }

  ghost predicate RegisterFails(w: World, e: Event) {
    exists a, k :: Registers(w, e, a, k) && (InWindow(w, a, k) || Shared(w, a, k))
  }

  lemma StepNodes(w: World, e: Event)
    requires w.ok && Inv(w)
    ensures NodesInv(Next(w, e))
  {
    hide Registry.Next, Registry.Coherent, HandleToRemote, HandleResponse, OnConnected, OnConnectError, OnDisconnected,
         NodeInv;
    match e
    case Route(body, writeOk, sentOk) => RouteNodes(w.d, Routed(w.nextId, body), writeOk);
    case ReadReply(i) =>
      ReplyLookup(w, e, 0);
      if i < |w.replies| { ResponseNodes(w.d, w.replies[i].item); }
    case ConnectDone(k, accepts) =>
      assert k in w.d.index ==> KeyOk(WiringOf(w), k);
      AttemptNodes(w.d, k, w.nextConn, accepts);
    case ConnectFail(k) =>
      assert k in w.d.index ==> KeyOk(WiringOf(w), k);
      AttemptNodes(w.d, k, 0, n => true);
    case Disconnect(c) =>
      if c in w.live {
        assert w.live[c] in w.d.index ==> KeyOk(WiringOf(w), w.live[c]);
        AttemptNodes(w.d, w.live[c], 0, n => true);
      }
    case ResolveUp(_, _) =>
    case ResolveDown =>
    case ServerReads(_) =>
    case ServerOther(_) =>
  }

  lemma StepLookup(w: World, e: Event)
    requires w.ok && Inv(w)
    ensures forall a :: LookupInv(Next(w, e), a)
  {
    hide Next, LookupInv, NodesInv, IndexInv;
    forall a ensures LookupInv(Next(w, e), a) {
      match e
      case Route(_, _, _) => RouteLookup(w, e, a);
      case ReadReply(_) => ReplyLookup(w, e, a);
      case ConnectDone(_, _) => SocketLookup(w, e, a);
      case ConnectFail(_) => SocketLookup(w, e, a);
      case Disconnect(_) => SocketLookup(w, e, a);
      case ResolveUp(_, _) => ResolveConnLookup(w, e, a);
      case ResolveDown => ResolveConnLookup(w, e, a);
      case ServerReads(_) => ServerLookup(w, e, a);
      case ServerOther(_) => ServerLookup(w, e, a);
    }
  }

  lemma StepAddresses(w: World, e: Event)
    requires w.ok && Inv(w)
    ensures Next(w, e).ok ==> AddressInv(Next(w, e))
  {
    hide Next, AddressInv, NodesInv, IndexInv;
    match e
    case Route(_, _, _) => RouteAddresses(w, e);
    case ReadReply(_) => ReplyLookup(w, e, 0); ReplyAddresses(w, e);
    case ConnectDone(_, _) => SocketAddresses(w, e);
    case ConnectFail(_) => SocketAddresses(w, e);
    case Disconnect(_) => SocketAddresses(w, e);
    case ResolveUp(_, _) => ReplyAddresses(w, e);
    case ResolveDown => ReplyAddresses(w, e);
    case ServerReads(_) => ServerAddresses(w, e);
    case ServerOther(_) => ServerAddresses(w, e);
  }

  lemma ServerIndex(w: World, e: Event)
    requires (e.ServerReads? || e.ServerOther? || e.ResolveUp? || e.ResolveDown?) && w.ok && IndexInv(w)
    requires Registry.Coherent(w.r)
    ensures IndexInv(Next(w, e))
    ensures Next(w, e).ok <==> !RegistrationFails(w, e)
  {
    hide Registry.Next, Registry.Coherent, Registry.Conflicts, Wired;
    match e
    case ServerReads(i) =>
      if IsNext(w.requests, i) {
        Registry.NextCoherent(w.r, Registry.Message(Registry.Mine(w.requests[i].conn), w.requests[i].item));
      }
    case ServerOther(x) => Registry.NextCoherent(w.r, x);
    case _ =>
  }

  /** The assertions that a run can fail, and exactly when: RegisterNode on an address whose socket is in use, a flush
      the connection does not take completely, and the resolve server's registration. No other assertion fails. */
  lemma StepIndex(w: World, e: Event)
    requires w.ok && Inv(w)
    ensures Next(w, e).ok ==> IndexInv(Next(w, e))
    ensures Next(w, e).ok <==> !(RegisterFails(w, e) || FlushFails(w, e) || RegistrationFails(w, e))
    ensures forall a, k | Registers(w, e, a, k) :: Next(w, e).ok <==> !(InWindow(w, a, k) || Shared(w, a, k))
  {
    hide Next, NodesInv, IndexInv, LookupInv, InWindow, Shared, Registry.Coherent;
    match e
    case Route(_, _, _) => RouteIndex(w, e);
    case ReadReply(_) => ReplyLookup(w, e, 0); ReplyIndex(w, e);
    case ConnectDone(_, _) => DoneIndex(w, e);
    case ConnectFail(_) => FailIndex(w, e);
    case Disconnect(_) => DisconnectIndex(w, e);
    case ResolveUp(_, _) => ServerIndex(w, e);
    case ResolveDown => ServerIndex(w, e);
    case ServerReads(_) => ServerIndex(w, e);
    case ServerOther(_) => ServerIndex(w, e);
  }

  lemma {:induction false} Reachable(conf: ConfView, es: seq<Event>)
    requires ConfOk(conf)
    ensures After(conf, es).ok ==> Inv(After(conf, es))
    ensures After(conf, es).r.conf == conf
  {
    if es != [] {
      var w, e := After(conf, es[..|es| - 1]), es[|es| - 1];
      Reachable(conf, es[..|es| - 1]);
      hide Inv, NodesInv, LookupInv, AddressInv, IndexInv;
      NextKeepsConf(w, e);
      if w.ok {
        StepNodes(w, e); StepLookup(w, e); StepAddresses(w, e); StepIndex(w, e);
        InvFrom(Next(w, e));
      }
    } else {
      BootInv(conf);
    }
  }

  lemma InvFrom(w: World)
    requires NodesInv(w) && (forall a :: LookupInv(w, a)) && (w.ok ==> AddressInv(w) && IndexInv(w))
    ensures w.ok ==> Inv(w)
  {
  }

  lemma BootInv(conf: ConfView)
    requires ConfOk(conf)
    ensures Inv(Boot(conf))
  {
  }

  lemma NextKeepsConf(w: World, e: Event)
    ensures Next(w, e).r.conf == w.r.conf
  {
    hide Registry.Next, HandleToRemote, HandleResponse, OnConnected, OnConnectError, OnDisconnected;
    match e
    case ServerReads(i) =>
      if i < |w.requests| {
        Registry.ConfFixed(w.r, Registry.Message(Registry.Mine(w.requests[i].conn), w.requests[i].item));
      }
    case ServerOther(x) => Registry.ConfFixed(w.r, x);
    case _ =>
  }
}
