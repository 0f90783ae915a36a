/** The daemon's node table as a state: what each callback of Server does to it. */
module Daemon {
  import opened Bytes
  import opened Addressing
  import opened Nodes

  /** nodes_, nodes_index_ (a pointer is the address of the node it points to), self_address_ and
      resolve_server_conn_. */
  datatype State = State(nodes: map<u32, NodeView>, index: map<NetAddress, u32>, self: u32, resolveConn: Option<ConnId>)

  const INITIAL := State(map[], map[], 0, None)

  datatype Lookup = Lookup(conn: ConnId, self: u32, peer: u32)

  /** The state after a callback, the connection attempt and the lookup it started, what it logged, and whether
      every assertion on the way held. */
  datatype Outcome = Outcome(state: State, dial: Option<NetAddress>, lookup: Option<Lookup>, log: seq<Effect>, ok: bool)

  const KOK := 0
  const KUPDATE_SELF := 1
  const KUPDATE_CACHE := 2

  /** The fields of a resolve response that the daemon reads; path is what the C-string read finds, which may run on
      past the end of the message. */
  datatype Response = Response(code: int, kind: int, addr: u32, net: NetAddress, path: seq<byte>)

  function WithNode(s: State, a: u32, n: NodeView): State { s.(nodes := s.nodes[a := n]) }

  /** Server::HandleToRemoteMessage. writeOk: what Write on the node's connection returns. */
  function HandleToRemote(s: State, m: Routed, writeOk: bool): Outcome {
    var a := m.body.to.node;
    if a in s.nodes && !s.nodes[a].state.NotResolved? then
      var n := s.nodes[a];
      if n.conn.Some? && writeOk then
        Outcome(s, None, None, [Arrived(a, m), Written(a, n.conn.value, m)], true)
      else if n.conn.Some? || n.connecting || n.state.Resolving? then
        Outcome(WithNode(s, a, WithCached(n, m)), None, None, [Arrived(a, m)] + CacheLog(a, n, m), true)
      else if n.net.None? || n.net.value in s.index then
        Outcome(s, None, None, [Arrived(a, m), TriggerLost(a, m)], false)
      else
        Outcome(WithNode(s, a, n.(connecting := true)).(index := s.index[n.net.value := a]), n.net, None,
                [Arrived(a, m), TriggerLost(a, m), Dialled(a)], true)
    else
      var n := if a in s.nodes then s.nodes[a] else NEW_NODE;
      if s.resolveConn.Some? then
        Outcome(WithNode(s, a, WithCached(n, m).(state := Resolving)), None,
                Some(Lookup(s.resolveConn.value, s.self, a)), [Arrived(a, m), LookedUp(a)] + CacheLog(a, n, m), true)
      else
        Outcome(WithNode(s, a, WithCached(n, m)), None, None, [Arrived(a, m)] + CacheLog(a, n, m), true)
  }

  /** The part of UpdateNodeAddressCache before the connection attempt: None when its assertion fails. */
  function Resolve(s: State, r: Response): Option<NodeView> {
    if r.addr in s.nodes then
      var n := s.nodes[r.addr];
      if r.code == KOK then Some(n.(net := Some(r.net), state := Resolved))
      else if n.state.Resolved? then Some(n.(state := NotResolved))
      else Some(n)
    else if r.code == KOK then Some(NEW_NODE.(net := Some(r.net), state := Resolved))
    else None
  }

  /** Server::UpdateNodeAddressCache. */
  function UpdateNodeAddressCache(s: State, r: Response): Outcome {
    var a := r.addr;
    match Resolve(s, r)
    case None => Outcome(s, None, None, [], false)
    case Some(n) =>
      var t := WithNode(s, a, n);
      if n.queue == [] || n.conn.Some? || !n.state.Resolved? then Outcome(t, None, None, [], true)
      else if n.net.None? then Outcome(t, None, None, [], false)
      else Outcome(if n.net.value in s.index then t else t.(index := s.index[n.net.value := a]),
                   n.net, None, [Dialled(a)], n.net.value !in s.index)
  }

  /** Server::UpdateSelfAddress. */
  function UpdateSelfAddress(s: State, r: Response): Outcome {
    Outcome(if Create(r.path).node == r.addr then s.(self := r.addr) else s, None, None, [], true)
  }

  /** Server::HandleResolveServerMessage, for the one message type a resolve server sends. */
  function HandleResponse(s: State, r: Response): Outcome {
    if r.kind == KUPDATE_SELF then UpdateSelfAddress(s, r)
    else if r.kind == KUPDATE_CACHE then UpdateNodeAddressCache(s, r)
    else Outcome(s, None, None, [], true)
  }

  /** Node::SetConnection with Node::FlushMessage: whether the whole cache is written, the node afterwards, the log. */
  function FlushDone(n: NodeView, accepts: nat -> bool): bool { Accepted(accepts, |n.queue|) == |n.queue| }

  function Attached(n: NodeView, c: ConnId, accepts: nat -> bool): NodeView {
    n.(queue := n.queue[Accepted(accepts, |n.queue|)..], conn := if FlushDone(n, accepts) then Some(c) else n.conn)
  }

  function AttachLog(a: u32, n: NodeView, c: ConnId, accepts: nat -> bool): seq<Effect> {
    WrittenLog(a, c, n.queue[..Accepted(accepts, |n.queue|)]) + (if FlushDone(n, accepts) then [Flushed(a)] else [])
  }

  /** Server::OnConnectedToRemoteNode. */
  function OnConnected(s: State, k: NetAddress, c: ConnId, accepts: nat -> bool): Outcome {
    if k !in s.index || s.index[k] !in s.nodes then Outcome(s, None, None, [], false)
    else
      var a := s.index[k];
      var n := s.nodes[a];
      Outcome(WithNode(s, a, Attached(n, c, accepts)), None, None, AttachLog(a, n, c, accepts), FlushDone(n, accepts))
  }

  /** Server::UnRegisterNode, None when its assertion fails. */
  function UnRegister(s: State, n: NodeView): Option<State> {
    if n.net.None? || n.net.value !in s.index then None
    else Some(s.(index := s.index - {n.net.value}))
  }

  /** The two callbacks that end an attempt or a connection to k: update the node, then unregister it. */
  function Release(s: State, k: NetAddress, f: NodeView -> NodeView): Outcome {
    if k !in s.index || s.index[k] !in s.nodes then Outcome(s, None, None, [], false)
    else
      var a := s.index[k];
      var n := f(s.nodes[a]);
      var t := WithNode(s, a, n);
      match UnRegister(t, n)
      case None => Outcome(t, None, None, [], false)
      case Some(u) => Outcome(u, None, None, [], true)
  }

  /** Server::OnConnectToRemoteNodeError. */
  function OnConnectError(s: State, k: NetAddress): Outcome {
    Release(s, k, (n: NodeView) => n.(connecting := false))
  }

  /** Server::OnRemoteNodeDisconnected. */
  function OnDisconnected(s: State, k: NetAddress): Outcome {
    Release(s, k, (n: NodeView) => n.(conn := None))
  }
}
