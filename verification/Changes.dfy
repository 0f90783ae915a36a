/** Who may change what: each part of the daemon's state, and the events that change it. */
module Changes {
  import opened Bytes
  import opened Addressing
  import opened Messages
  import opened Nodes
  import opened Conf
  import opened Daemon
  import opened Cluster
  import opened Resolution
  import Registry

  /** The reply this event reads on the current connection to the resolve server. */
  function ReplyRead(w: World, e: Event): Option<Response> {
    if w.ok && e.ReadReply? && IsNext(w.replies, e.i) && w.d.resolveConn == Some(w.replies[e.i].conn)
    then Some(w.replies[e.i].item) else None
  }

  // ---------------------------------------------------------------- the own address

  /** Which callbacks leave the own address alone. */
  lemma CallbacksKeepSelf(s: State, m: Routed, writeOk: bool, k: NetAddress, c: ConnId, accepts: nat -> bool)
    ensures HandleToRemote(s, m, writeOk).state.self == s.self
    ensures OnConnected(s, k, c, accepts).state.self == s.self
    ensures OnConnectError(s, k).state.self == s.self
    ensures OnDisconnected(s, k).state.self == s.self
  {
    hide CacheLog;
  }

  /** Only a reply about the daemon itself whose path hashes to its address changes the own address, to that. */
  lemma SelfExactly(w: World, e: Event)
    ensures var r := ReplyRead(w, e);
            Next(w, e).d.self ==
            if r.Some? && r.value.kind == KUPDATE_SELF && Create(r.value.path).node == r.value.addr
            then r.value.addr else w.d.self
  {
    hide HandleToRemote, OnConnected, OnConnectError, OnDisconnected, Registry.Next, Create;
    match e
    case Route(body, writeOk, _) =>
      CallbacksKeepSelf(w.d, Routed(w.nextId, body), writeOk, NetAddress([], 0), 0, i => true);
    case ConnectDone(k, accepts) => CallbacksKeepSelf(w.d, Routed(0, DEFAULT), true, k, w.nextConn, accepts);
    case ConnectFail(k) => CallbacksKeepSelf(w.d, Routed(0, DEFAULT), true, k, 0, i => true);
    case Disconnect(c) =>
      if c in w.live { CallbacksKeepSelf(w.d, Routed(0, DEFAULT), true, w.live[c], 0, i => true); }
    case _ =>
  }

  /** The own address is unset or a configured node's, and so is what replies would set it to. */
  ghost predicate SelfOk(w: World) {
    && (w.d.self == 0 || w.d.self in w.r.conf.nodes)
    && (forall i :: 0 <= i < |w.replies| && w.replies[i].item.kind == KUPDATE_SELF ==>
          w.replies[i].item.addr in w.r.conf.nodes)
  }

  lemma InitReplyConfigured(s: Registry.Server, e: Registry.Event)
    requires Registry.Coherent(s)
    ensures var r := Registry.Next(s, e).reply; r.Some? && r.value.kind == KUPDATE_SELF ==> r.value.addr in s.conf.nodes
  {
  }

  lemma SelfOkStep(w: World, e: Event)
    requires SelfOk(w) && (w.ok ==> Registry.Coherent(w.r))
    ensures SelfOk(Next(w, e))
  {
    SelfExactly(w, e);
    NextKeepsConf(w, e);
    hide HandleToRemote, HandleResponse, OnConnected, OnConnectError, OnDisconnected, Registry.Next, Registry.Coherent,
         Create;
    if w.ok && e.ServerReads? && IsNext(w.requests, e.i) {
      InitReplyConfigured(w.r, Registry.Message(Registry.Mine(w.requests[e.i].conn), w.requests[e.i].item));
    }
    if w.ok && e.ServerOther? { InitReplyConfigured(w.r, e.e); }
  }

  /** In every run. */
  lemma {:induction false} SelfIsConfigured(conf: ConfView, es: seq<Event>)
    requires ConfOk(conf)
    ensures SelfOk(After(conf, es))
    ensures After(conf, es).d.self == 0 || After(conf, es).d.self in conf.nodes
  {
    Reachable(conf, es);
    if es != [] {
      hide SelfOk, Next, NodesInv, IndexInv, LookupInv, Registry.Coherent;
      SelfIsConfigured(conf, es[..|es| - 1]);
      Reachable(conf, es[..|es| - 1]);
      SelfOkStep(After(conf, es[..|es| - 1]), es[|es| - 1]);
      SelfOkMeans(After(conf, es));
    }
  }

  lemma SelfOkMeans(w: World)
    requires SelfOk(w)
    ensures w.d.self == 0 || w.d.self in w.r.conf.nodes
  {
  }

  // ---------------------------------------------------------------- connections

  function ConnOf(s: State, a: u32): Option<ConnId> { if a in s.nodes then s.nodes[a].conn else None }

  function IsConnecting(s: State, a: u32): bool { a in s.nodes && s.nodes[a].connecting }

  function NetOf(s: State, a: u32): Option<NetAddress> { if a in s.nodes then s.nodes[a].net else None }

  function StateOf(s: State, a: u32): ResolveState { if a in s.nodes then s.nodes[a].state else NotResolved }

  /** Parts of a node's state, all at once. */
  datatype Parts = Parts(known: bool, conn: Option<ConnId>, connecting: bool, net: Option<NetAddress>,
                         state: ResolveState)

  function PartsOf(s: State, a: u32): Parts { Parts(a in s.nodes, ConnOf(s, a), IsConnecting(s, a), NetOf(s, a),
                                                    StateOf(s, a)) }

  /** Routing makes a node known; it marks a node as connecting exactly when it starts an attempt, and as being resolved
      exactly when it asks for an address. */
  lemma RouteParts(s: State, m: Routed, writeOk: bool, a: u32)
    requires m.body.to.node in s.nodes ==> NodeInv(s.nodes[m.body.to.node])
    ensures var o, b, p := HandleToRemote(s, m, writeOk), m.body.to.node, PartsOf(s, a);
            && o.state.resolveConn == s.resolveConn
            && (if !o.ok then o.state == s
                else if a != b then PartsOf(o.state, a) == p
                else PartsOf(o.state, a) == p.(
                       known := true, connecting := p.connecting || StartsAttempt(s, a),
                       state := if p.state.NotResolved? && s.resolveConn.Some? then Resolving else p.state))
  {
    hide CacheLog;
    CachedParts(if m.body.to.node in s.nodes then s.nodes[m.body.to.node] else NEW_NODE, m);
    hide WithCached;
  }

  lemma CachedParts(n: NodeView, m: Routed)
    ensures WithCached(n, m) == n.(queue := WithCached(n, m).queue)
  {
  }

  /** A completed attempt gives its node the new connection, exactly when that takes the whole cache. */
  lemma DoneParts(s: State, k: NetAddress, c: ConnId, accepts: nat -> bool, a: u32)
    ensures var t := OnConnected(s, k, c, accepts).state;
            && t.resolveConn == s.resolveConn && t.index == s.index
            && PartsOf(t, a) == if a in s.nodes && k in s.index && s.index[k] == a && FlushDone(s.nodes[a], accepts)
                                then PartsOf(s, a).(conn := Some(c)) else PartsOf(s, a)
  {
    hide Accepted;
  }

  lemma ReleaseParts(s: State, k: NetAddress, a: u32)
    ensures var t := OnConnectError(s, k).state;
            && t.resolveConn == s.resolveConn
            && PartsOf(t, a) == if a in s.nodes && k in s.index && s.index[k] == a
                                then PartsOf(s, a).(connecting := false) else PartsOf(s, a)
    ensures var t := OnDisconnected(s, k).state;
            && t.resolveConn == s.resolveConn
            && PartsOf(t, a) == if a in s.nodes && k in s.index && s.index[k] == a
                                then PartsOf(s, a).(conn := None) else PartsOf(s, a)
  {
  }

  /** A reply about a node, in any state the node may be in: success gives it the address and resolves it, even if it
      was unknown; an error sends a resolved node back to not resolved and does nothing else. An error about an unknown
      node fails the assertion. */
  lemma ReplyParts(s: State, r: Response, a: u32)
    ensures var o := UpdateNodeAddressCache(s, r);
            && o.state.resolveConn == s.resolveConn && o.state.self == s.self
            && PartsOf(o.state, a) ==
               (if a != r.addr then PartsOf(s, a)
                else if r.code == KOK then PartsOf(s, a).(known := true, net := Some(r.net), state := Resolved)
                else if StateOf(s, a).Resolved? then PartsOf(s, a).(state := NotResolved) else PartsOf(s, a))
            && (r.addr !in s.nodes && r.code != KOK ==> !o.ok)
  {
  }

  /** And it starts an attempt exactly when messages wait for a resolved node without a connection. */
  lemma ReplyDials(s: State, r: Response)
    requires r.addr in s.nodes && (r.code != KOK && s.nodes[r.addr].net.None? ==> !s.nodes[r.addr].state.Resolved?)
    ensures var o, n := UpdateNodeAddressCache(s, r), s.nodes[r.addr];
            && (o.dial == if n.queue != [] && n.conn.None? && r.code == KOK then Some(r.net) else None)
            && (o.ok <==> !(o.dial.Some? && r.net in s.index))
            && (forall k :: k in o.state.index <==> k in s.index || (o.dial == Some(k) && o.ok))
            && (o.dial.Some? && o.ok ==> o.state.index[r.net] == r.addr)
            && (forall k :: k in s.index ==> o.state.index[k] == s.index[k])
            && QueueKept(s, o.state) && o.lookup.None?
  {
  }

  ghost predicate QueueKept(s: State, t: State) {
    forall a :: a in s.nodes ==> a in t.nodes && t.nodes[a].queue == s.nodes[a].queue
  }

  // ---------------------------------------------------------------- one event of the world

  /** Everything an event changes about a node besides its queue, in any reachable state. */
  lemma PartsExactly(w: World, e: Event, a: u32)
    requires w.ok && Inv(w) && Next(w, e).ok
    ensures var s, p := w.d, PartsOf(w.d, a);
            PartsOf(Next(w, e).d, a) ==
            match e
            case Route(m, _, _) =>
              if m.to.node != a then p
              else p.(known := true, connecting := p.connecting || StartsAttempt(s, a),
                      state := if p.state.NotResolved? && s.resolveConn.Some? then Resolving else p.state)
            case ConnectDone(k, _) =>
              if w.attempts[k] > 0 && k in s.index && s.index[k] == a then p.(conn := Some(w.nextConn)) else p
            case ConnectFail(k) =>
              if w.attempts[k] > 0 && k in s.index && s.index[k] == a then p.(connecting := false) else p
            case Disconnect(c) => if c in w.live && p.conn == Some(c) then p.(conn := None) else p
            case ReadReply(_) =>
              var r := ReplyRead(w, e);
              if r.Some? && r.value.kind == KUPDATE_CACHE && r.value.addr == a && r.value.code == KOK
              then p.(net := Some(r.value.net), state := Resolved) else p
            case _ => p
  {
    hide HandleToRemote, HandleResponse, UpdateNodeAddressCache, OnConnected, OnConnectError, OnDisconnected,
         Registry.Next,
         PartsOf, Inv, LookupInv, NodesInv;
    InvNodes(w);
    match e
    case Route(m, writeOk, _) =>
      InNodes(w, m.to.node);
      RouteParts(w.d, Routed(w.nextId, m), writeOk, a);
    case ConnectDone(k, accepts) => DonePartsOf(w, k, accepts, a);
    case ConnectFail(k) => ReleasePartsOf(w, k, a);
    case Disconnect(c) => if c in w.live { ClosePartsOf(w, c, a); }
    case ReadReply(_) => ReplyPartsOf(w, e, a);
    case _ => SamePartsOf(w.d, Next(w, e).d, a);
  }

  lemma InNodes(w: World, a: u32)
    requires NodesInv(w)
    ensures a in w.d.nodes ==> NodeInv(w.d.nodes[a])
  {
  }

  lemma SamePartsOf(s: State, t: State, a: u32)
    requires t.nodes == s.nodes
    ensures PartsOf(t, a) == PartsOf(s, a)
  {
  }

  lemma DonePartsOf(w: World, k: NetAddress, accepts: nat -> bool, a: u32)
    requires w.ok && Inv(w) && Next(w, ConnectDone(k, accepts)).ok
    ensures PartsOf(Next(w, ConnectDone(k, accepts)).d, a) ==
            if w.attempts[k] > 0 && k in w.d.index && w.d.index[k] == a
            then PartsOf(w.d, a).(conn := Some(w.nextConn)) else PartsOf(w.d, a)
  {
    InvNodes(w);
    DoneIndex(w, ConnectDone(k, accepts));
    DoneParts(w.d, k, w.nextConn, accepts, a);
    hide OnConnected, PartsOf, Inv, Accepted;
  }

  lemma ReleasePartsOf(w: World, k: NetAddress, a: u32)
    requires w.ok && Inv(w)
    ensures PartsOf(Next(w, ConnectFail(k)).d, a) ==
            if w.attempts[k] > 0 && k in w.d.index && w.d.index[k] == a
            then PartsOf(w.d, a).(connecting := false) else PartsOf(w.d, a)
  {
    ReleaseParts(w.d, k, a);
    hide OnConnectError, PartsOf, LookupInv, NodesInv, AddressInv;
    if w.attempts[k] > 0 { AttemptIndexed(WiringOf(w), k); }
  }

  lemma ClosePartsOf(w: World, c: ConnId, a: u32)
    requires w.ok && Inv(w) && c in w.live
    ensures PartsOf(Next(w, Disconnect(c)).d, a) ==
            if PartsOf(w.d, a).conn == Some(c) then PartsOf(w.d, a).(conn := None) else PartsOf(w.d, a)
  {
    ReleaseParts(w.d, w.live[c], a);
    hide OnDisconnected, LookupInv, NodesInv, AddressInv;
    var x := WiringOf(w);
    assert ConnOk(x, c);
    if a in x.nodes && x.nodes[a].conn == Some(c) { assert OwnerOk(x, a) && KeyOk(x, x.nodes[a].net.value); }
  }

  lemma ReplyPartsOf(w: World, e: Event, a: u32)
    requires w.ok && Inv(w) && e.ReadReply?
    ensures var r := ReplyRead(w, e);
            PartsOf(Next(w, e).d, a) ==
            if r.Some? && r.value.kind == KUPDATE_CACHE && r.value.addr == a && r.value.code == KOK
            then PartsOf(w.d, a).(net := Some(r.value.net), state := Resolved) else PartsOf(w.d, a)
  {
    InvNodes(w);
    ReplyLookup(w, e, 0);
    hide UpdateNodeAddressCache, Inv, LookupInv, NodesInv, Create;
    if ReplyRead(w, e).Some? {
      var r := w.replies[e.i].item;
      ReplyParts(w.d, r, a);
    }
  }

  /** The connection to the resolve server, the numbers, and what is on the wire. */
  lemma ResolveConnExactly(w: World, e: Event)
    requires w.ok
    ensures Next(w, e).d.resolveConn ==
            if e.ResolveDown? then None
            else if e.ResolveUp? && w.d.resolveConn.None? then Some(w.nextConn) else w.d.resolveConn
  {
    hide Registry.Next, Create;
    match e
    case Route(m, writeOk, _) => RouteKeepsResolveConn(w.d, Routed(w.nextId, m), writeOk);
    case ConnectDone(k, accepts) => DoneParts(w.d, k, w.nextConn, accepts, 0);
    case ConnectFail(k) => ReleaseParts(w.d, k, 0);
    case Disconnect(c) => if c in w.live { ReleaseParts(w.d, w.live[c], 0); }
    case ReadReply(i) => if i < |w.replies| { ReplyParts(w.d, w.replies[i].item, 0); }
    case _ =>
  }

  lemma RouteKeepsResolveConn(s: State, m: Routed, writeOk: bool)
    ensures HandleToRemote(s, m, writeOk).state.resolveConn == s.resolveConn
  {
    hide CacheLog;
  }

  // ---------------------------------------------------------------- attempts and the index

  datatype Dial = Dial(node: u32, net: NetAddress)

  /** The attempt an event starts: by a message for a resolved node without socket or mark,
      or by a successful answer. */
  function DialOf(w: World, e: Event): Option<Dial> {
    if w.ok && e.Route? && StartsAttempt(w.d, e.body.to.node)
    then Some(Dial(e.body.to.node, w.d.nodes[e.body.to.node].net.value))
    else
      var r := ReplyRead(w, e);
      if r.Some? && r.value.kind == KUPDATE_CACHE && r.value.code == KOK then Some(Dial(r.value.addr, r.value.net))
          else None
  }

  /** The address whose socket fails or closes in this event. */
  function Released(w: World, e: Event): Option<NetAddress> {
    if w.ok && e.ConnectFail? && w.attempts[e.net] > 0 then Some(e.net)
    else if w.ok && e.Disconnect? && e.conn in w.live then Some(w.live[e.conn]) else None
  }

  lemma RouteSockets(s: State, m: Routed, writeOk: bool)
    requires m.body.to.node in s.nodes ==> NodeInv(s.nodes[m.body.to.node])
    ensures var o, a := HandleToRemote(s, m, writeOk), m.body.to.node;
            o.ok ==>
              && o.dial == (if StartsAttempt(s, a) then s.nodes[a].net else None)
              && o.state.index == (if StartsAttempt(s, a) then s.index[s.nodes[a].net.value := a] else s.index)
              && o.lookup == (if StateOf(s, a).NotResolved? && s.resolveConn.Some?
                              then Some(Lookup(s.resolveConn.value, s.self, a)) else None)
  {
    hide CacheLog, WithCached;
  }

  ghost predicate SocketsFollow(w: World, e: Event) {
    var v, dial, gone := Next(w, e), DialOf(w, e), Released(w, e);
    && v.d.index == (if dial.Some? then w.d.index[dial.value.net := dial.value.node]
                     else if gone.Some? then w.d.index - {gone.value} else w.d.index)
    && v.attempts == (if dial.Some? then w.attempts + multiset{dial.value.net}
                      else if e.ConnectDone? || e.ConnectFail? then w.attempts - multiset{e.net} else w.attempts)
    && v.live == (if e.ConnectDone? && w.attempts[e.net] > 0 then w.live[w.nextConn := e.net]
                  else if e.Disconnect? then w.live - {e.conn} else w.live)
  }

  /** The index, the attempts and the open connections follow the sockets, in any reachable state. */
  lemma SocketsExactly(w: World, e: Event)
    requires w.ok && Inv(w) && Next(w, e).ok
    ensures SocketsFollow(w, e)
  {
    hide SocketsFollow, Next, Inv;
    match e
    case Route(_, _, _) => RouteFollows(w, e);
    case ConnectDone(_, _) => DoneFollows(w, e);
    case ConnectFail(_) => FailFollows(w, e);
    case Disconnect(_) => CloseFollows(w, e);
    case ReadReply(_) => ReplyFollows(w, e);
    case _ => OtherFollows(w, e);
  }

  lemma RouteFollows(w: World, e: Event)
    requires w.ok && Inv(w) && e.Route? && Next(w, e).ok
    ensures SocketsFollow(w, e)
  {
    hide HandleToRemote, Inv, StartsAttempt, NodeInv;
    InvNodes(w);
    InNodes(w, e.body.to.node);
    AttemptHasNet(w.d, e.body.to.node);
    RouteSockets(w.d, Routed(w.nextId, e.body), e.writeOk);
  }

  lemma AttemptHasNet(s: State, a: u32)
    ensures StartsAttempt(s, a) ==> a in s.nodes && s.nodes[a].net.Some?
  {
  }

  lemma DoneFollows(w: World, e: Event)
    requires w.ok && e.ConnectDone?
    ensures SocketsFollow(w, e)
  {
    hide OnConnected;
    DoneSockets(w.d, e.net, w.nextConn, e.accepts);
    if w.attempts[e.net] == 0 { assert w.attempts - multiset{e.net} == w.attempts; }
  }

  lemma FailFollows(w: World, e: Event)
    requires w.ok && Inv(w) && e.ConnectFail?
    ensures SocketsFollow(w, e)
  {
    hide OnConnectError, Inv;
    if w.attempts[e.net] > 0 { FailSockets(w, e.net); } else { assert w.attempts - multiset{e.net} == w.attempts; }
  }

  lemma CloseFollows(w: World, e: Event)
    requires w.ok && Inv(w) && e.Disconnect?
    ensures SocketsFollow(w, e)
  {
    hide OnDisconnected, Inv;
    if e.conn in w.live { CloseSockets(w, e.conn); } else { assert w.live - {e.conn} == w.live; }
  }

  lemma OtherFollows(w: World, e: Event)
    requires e.ResolveUp? || e.ResolveDown? || e.ServerReads? || e.ServerOther?
    ensures SocketsFollow(w, e)
  {
    hide Registry.Next;
  }

  lemma DoneSockets(s: State, k: NetAddress, c: ConnId, accepts: nat -> bool)
    ensures var o := OnConnected(s, k, c, accepts); o.state.index == s.index && o.dial.None? && o.lookup.None?
  {
  }

  lemma FailSockets(w: World, k: NetAddress)
    requires w.ok && Inv(w) && w.attempts[k] > 0
    ensures var o := OnConnectError(w.d, k); o.state.index == w.d.index - {k} && o.dial.None?
  {
    hide LookupInv, NodesInv, AddressInv;
    AttemptIndexed(WiringOf(w), k);
  }

  lemma CloseSockets(w: World, c: ConnId)
    requires w.ok && Inv(w) && c in w.live
    ensures var o := OnDisconnected(w.d, w.live[c]); o.state.index == w.d.index - {w.live[c]} && o.dial.None?
  {
    hide LookupInv, NodesInv, AddressInv;
    assert ConnOk(WiringOf(w), c);
    assert KeyOk(WiringOf(w), w.live[c]);
  }

  /** What a reply on the current connection does to the index and the sockets. */
  lemma AnswerSockets(s: State, r: Response)
    requires r.kind == KUPDATE_CACHE && r.addr in s.nodes && s.nodes[r.addr].state.Resolving?
             && NodeInv(s.nodes[r.addr])
    ensures var o := HandleResponse(s, r);
            && o.dial == (if r.code == KOK then Some(r.net) else None)
            && (o.ok ==> o.state.index == if r.code == KOK then s.index[r.net := r.addr] else s.index)
  {
    ReplyDials(s, r);
    hide UpdateNodeAddressCache, Create;
    var o := UpdateNodeAddressCache(s, r);
    if o.ok { assert o.state.index == if r.code == KOK then s.index[r.net := r.addr] else s.index; }
  }

  lemma OtherAnswer(s: State, r: Response)
    requires r.kind != KUPDATE_CACHE
    ensures var o := HandleResponse(s, r); o.dial.None? && o.state.index == s.index
  {
    hide Create;
  }

  lemma ReadStep(w: World, e: Event)
    requires w.ok && e.ReadReply?
    ensures var v, r := Next(w, e), ReplyRead(w, e);
            if r.None? then v == w
            else
              var o := HandleResponse(w.d, r.value);
              && v.d == o.state && v.ok == o.ok && v.live == w.live
              && v.attempts == if o.dial.Some? then w.attempts + multiset{o.dial.value} else w.attempts
  {
    hide HandleResponse;
  }

  lemma ReplyFollows(w: World, e: Event)
    requires w.ok && Inv(w) && e.ReadReply? && Next(w, e).ok
    ensures SocketsFollow(w, e)
  {
    InvNodes(w);
    ReplyLookup(w, e, 0);
    ReadStep(w, e);
    hide HandleResponse, Inv, LookupInv, NodesInv, NodeInv, Next;
    if ReplyRead(w, e).Some? {
      var r := w.replies[e.i].item;
      InNodes(w, r.addr);
      if r.kind == KUPDATE_CACHE { AnswerSockets(w.d, r); } else { OtherAnswer(w.d, r); }
    }
  }

  // ---------------------------------------------------------------- what goes to the resolve server

  /** The request an event puts on the wire: a lookup of the node a message is for, in the daemon's own name, when it is
      not resolved and there is a connection; or the init request of a new connection. */
  function RequestOf(w: World, e: Event): Option<InFlight<Registry.Request>> {
    if !w.ok then None
    else match e
      case Route(m, _, sentOk) =>
        if sentOk && StateOf(w.d, m.to.node).NotResolved? && w.d.resolveConn.Some?
        then Some(InFlight(w.d.resolveConn.value, Registry.Request(Registry.KLOOKUP_NODE, w.d.self, 0, m.to.node)))
            else None
      case ResolveUp(port, sentOk) =>
        if sentOk && w.d.resolveConn.None?
        then Some(InFlight(w.nextConn, Registry.Request(Registry.KINITIALIZE_SELF, 0, port, 0))) else None
      case _ => None
  }

  lemma RequestsExactly(w: World, e: Event)
    requires w.ok && Inv(w) && Next(w, e).ok
    ensures Next(w, e).requests ==
            if RequestOf(w, e).Some? then w.requests + [RequestOf(w, e).value]
            else if e.ServerReads? && IsNext(w.requests, e.i) then Without(w.requests, e.i) else w.requests
  {
    hide HandleToRemote, HandleResponse, OnConnected, OnConnectError, OnDisconnected, Registry.Next, Inv, NodesInv;
    InvNodes(w);
    match e
    case Route(m, writeOk, _) =>
      InNodes(w, m.to.node);
      RouteSockets(w.d, Routed(w.nextId, m), writeOk);
    case ConnectDone(_, _) => var _ := SocketStep(w, e);
    case ConnectFail(_) => var _ := SocketStep(w, e);
    case Disconnect(_) => var _ := SocketStep(w, e);
    case ReadReply(i) => if i < |w.replies| { NoLookup(w.d, w.replies[i].item); }
    case _ =>
  }

  lemma NoLookup(s: State, r: Response)
    ensures HandleResponse(s, r).lookup.None?
  {
  }
}
