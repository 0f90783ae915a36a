/** The daemon as it runs: node objects shared by two indexes, updated in place by the callbacks. */
module Servers {
  import opened Bytes
  import opened Addressing
  import opened Messages
  import opened Nodes
  import opened Bus
  import opened Pump
  import Daemon
  import Protocol
  import Registry

  const RETRY_INTERVAL := 2000

  /** n is in good order, owns its cache, and has this value. */
  ghost predicate Holds(n: Node, v: NodeView)
    reads n, n.queue
  {
    n.Valid() && n.View() == v
  }

  lemma OwnCaches(n: Node, v: NodeView, m: Node, w: NodeView)
    requires Holds(n, v) && Holds(m, w) && n != m
    ensures n !in m.Repr() && (n.queue != null ==> n.queue !in m.Repr())
  {
  }

  /** What routing to a node without an address leaves and asks, in terms of its node. */
  lemma UnresolvedRoute(s: Daemon.State, m: Routed, n: NodeView)
    requires var a := m.body.to.node; n == (if a in s.nodes then s.nodes[a] else NEW_NODE) && n.state.NotResolved?
    ensures var a, up := m.body.to.node, s.resolveConn.Some?;
            Daemon.HandleToRemote(s, m, false) ==
            Daemon.Outcome(
              Daemon.WithNode(s, a, if up then WithCached(n, m).(state := Resolving) else WithCached(n, m)), None,
              if up then Some(Daemon.Lookup(s.resolveConn.value, s.self, a)) else None,
              [Arrived(a, m)] + (if up then [LookedUp(a)] else []) + CacheLog(a, n, m), true)
  {
    hide WithCached, CacheLog;
  }

  class Server {
    var nodes: map<u32, Node>
    var nodesIndex: map<NetAddress, Node>
    var selfAddress: u32
    var resolveServerConn: Option<ConnId>
    var clients: map<u32, ClientInfo>
    const messageServerPort: int

    /** The state these fields and objects represent, and every object they consist of. */
    ghost var State: Daemon.State
    ghost var Repr: set<object>

    /** Both indexes hold the same objects, each under its own address, and nodes share no cache. */
    ghost predicate Valid()
      reads this, Repr
    {
      && this in Repr
      && NodesValid() && ClientsValid()
      && (forall k :: k in nodesIndex ==> nodesIndex[k].addr in nodes && nodes[nodesIndex[k].addr] == nodesIndex[k])
      && State.index.Keys == nodesIndex.Keys && (forall k :: k in nodesIndex ==> State.index[k] == nodesIndex[k].addr)
      && State.self == selfAddress && State.resolveConn == resolveServerConn
    }

    /** Every client is filed under its own address; the node table does not reach it. */
    ghost predicate ClientsValid()
      reads this
    {
      forall c :: c in clients ==> clients[c].addr.client == c && clients[c] !in Repr
    }

    ghost predicate NodesValid()
      reads this, Repr
    {
      && State.nodes.Keys == nodes.Keys
      && (forall a :: a in nodes ==> nodes[a] in Repr && nodes[a].addr == a)
      && (forall a :: a in nodes && nodes[a].queue != null ==> nodes[a].queue in Repr)
      && (forall a :: a in nodes ==> Holds(nodes[a], State.nodes[a]))
    }

    constructor (port: int)
      ensures Valid() && State == Daemon.INITIAL && Repr == {this} && clients == map[] && messageServerPort == port
    {
      messageServerPort := port;
      clients := map[];
      nodes, nodesIndex, selfAddress, resolveServerConn := map[], map[], 0, None;
      State, Repr := Daemon.INITIAL, {this};
    }

    method RegisterNode(node: Node) returns (ok: bool)
      requires Valid() && node.addr in nodes && nodes[node.addr] == node && node.net.Some?
      modifies this`nodesIndex, this`State
      ensures Valid() && ok == (node.net.value !in old(State.index))
      ensures State == if ok then old(State).(index := old(State).index[node.net.value := node.addr]) else old(State)
    {
      hide Holds;
      ok := node.net.value !in nodesIndex;
      if ok {
        nodesIndex := nodesIndex[node.net.value := node];
        State := State.(index := State.index[node.net.value := node.addr]);
      }
    }

    method UnRegisterNode(node: Node) returns (ok: bool)
      requires Valid() && node.addr in nodes && nodes[node.addr] == node
      modifies this`nodesIndex, this`State
      ensures Valid()
      ensures Daemon.UnRegister(old(State), node.View()) == if ok then Some(State) else None
      ensures !ok ==> State == old(State)
    {
      hide Holds;
      if node.net.None? || node.net.value !in nodesIndex { return false; }
      nodesIndex := nodesIndex - {node.net.value};
      State := State.(index := State.index - {node.net.value});
      ok := true;
    }

    /** A new node was added, and the others were not touched. */
    twostate lemma NodeAdded(a: u32, new node: Node)
      requires old(NodesValid()) && a !in old(nodes) && nodes == old(nodes)[a := node]
      requires forall b :: b in old(nodes) ==> unchanged(old(nodes)[b])
      requires forall b :: b in old(nodes) && old(nodes[b].queue) != null ==> unchanged(old(nodes[b].queue))
      requires node.addr == a && node.queue == null && Holds(node, NEW_NODE)
      requires State == Daemon.WithNode(old(State), a, NEW_NODE) && Repr == old(Repr) + {node}
      ensures NodesValid()
    {
      forall b | b in nodes ensures Holds(nodes[b], State.nodes[b]) {
        if b != a { assert old(Holds(nodes[b], State.nodes[b])); }
      }
    }

    method AddNewNode(a: u32) returns (node: Node)
      requires Valid() && a !in nodes
      modifies this`nodes, this`State, this`Repr
      ensures Valid() && fresh(node) && Repr == old(Repr) + {node}
      ensures nodes == old(nodes)[a := node]
      ensures State == Daemon.WithNode(old(State), a, NEW_NODE)
    {
      hide NodesValid;
      node := new Node(a);
      nodes := nodes[a := node];
      State := Daemon.WithNode(State, a, NEW_NODE);
      Repr := Repr + {node};
      NodeAdded(a, node);
    }


    /** The other nodes share nothing with node a. */
    lemma Apart(a: u32)
      requires NodesValid() && a in nodes
      ensures nodes[a].addr == a && nodes[a].Valid() && nodes[a].View() == State.nodes[a] && nodes[a].Repr() <= Repr
      ensures forall b :: b in nodes && b != a ==> nodes[b] !in nodes[a].Repr()
      ensures forall b :: b in nodes && b != a && nodes[b].queue != null ==> nodes[b].queue !in nodes[a].Repr()
    {
      forall b | b in nodes && b != a
        ensures nodes[b] !in nodes[a].Repr() && (nodes[b].queue != null ==> nodes[b].queue !in nodes[a].Repr())
      {
        OwnCaches(nodes[b], State.nodes[b], nodes[a], State.nodes[a]);
      }
    }

    /** One node changed, possibly taking a new object; the others were not touched. */
    twostate lemma NodeChanged(a: u32)
      requires old(NodesValid()) && a in nodes && nodes == old(nodes)
      requires forall b :: b in old(nodes) && b != a ==> unchanged(old(nodes)[b])
      requires forall b :: b in old(nodes) && b != a && old(nodes[b].queue) != null ==> unchanged(old(nodes[b].queue))
      requires nodes[a].Valid() && Repr == old(Repr) + nodes[a].Repr()
      requires State == Daemon.WithNode(old(State), a, nodes[a].View())
      ensures NodesValid()
    {
      forall b | b in nodes ensures Holds(nodes[b], State.nodes[b]) {
        if b != a { assert old(Holds(nodes[b], State.nodes[b])); }
      }
    }

    method CacheAt(a: u32, m: Routed) returns (log: seq<Effect>)
      requires Valid() && a in nodes
      modifies Repr
      ensures Valid() && fresh(Repr - old(Repr)) && nodes == old(nodes) && clients == old(clients)
      ensures State == Daemon.WithNode(old(State), a, WithCached(old(State).nodes[a], m))
      ensures log == CacheLog(a, old(State).nodes[a], m)
    {
      hide NodesValid, WithCached, CacheLog;
      Apart(a);
      log := nodes[a].CacheMessage(m);
      State := Daemon.WithNode(State, a, nodes[a].View());
      Repr := Repr + nodes[a].Repr();
      NodeChanged(a);
    }

    method SendAt(a: u32, m: Routed, writeOk: bool) returns (log: seq<Effect>)
      requires Valid() && a in nodes
      modifies Repr
      ensures Valid() && fresh(Repr - old(Repr)) && nodes == old(nodes) && clients == old(clients)
      ensures State == Daemon.WithNode(old(State), a, if old(State).nodes[a].conn.Some? && writeOk
                                       then old(State).nodes[a]
                                                    else WithCached(old(State).nodes[a], m))
      ensures log == if old(State).nodes[a].conn.Some? && writeOk then [Written(a, old(State).nodes[a].conn.value, m)]
                     else CacheLog(a, old(State).nodes[a], m)
    {
      hide NodesValid, WithCached, CacheLog;
      Apart(a);
      log := nodes[a].SendMessage(m, writeOk);
      State := Daemon.WithNode(State, a, nodes[a].View());
      Repr := Repr + nodes[a].Repr();
      NodeChanged(a);
    }

    method AttachAt(a: u32, c: ConnId, accepts: nat -> bool) returns (log: seq<Effect>, done: bool)
      requires Valid() && a in nodes
      modifies Repr
      ensures Valid() && fresh(Repr - old(Repr)) && nodes == old(nodes) && clients == old(clients)
      ensures State == Daemon.WithNode(old(State), a, Daemon.Attached(old(State).nodes[a], c, accepts))
      ensures done == Daemon.FlushDone(old(State).nodes[a], accepts)
      ensures log == Daemon.AttachLog(a, old(State).nodes[a], c, accepts)
    {
      hide NodesValid, WrittenLog;
      Apart(a);
      log, done := nodes[a].SetConnection(c, accepts);
      State := Daemon.WithNode(State, a, nodes[a].View());
      Repr := Repr + nodes[a].Repr();
      NodeChanged(a);
    }

    method SetConnectingAt(a: u32, b: bool)
      requires Valid() && a in nodes
      modifies Repr
      ensures Valid() && fresh(Repr - old(Repr)) && nodes == old(nodes) && clients == old(clients)
      ensures State == Daemon.WithNode(old(State), a, old(State).nodes[a].(connecting := b))
    {
      hide NodesValid;
      Apart(a);
      nodes[a].SetConnecting(b);
      State := Daemon.WithNode(State, a, nodes[a].View());
      Repr := Repr + nodes[a].Repr();
      NodeChanged(a);
    }

    method SetResolveStateAt(a: u32, r: ResolveState)
      requires Valid() && a in nodes
      modifies Repr
      ensures Valid() && fresh(Repr - old(Repr)) && nodes == old(nodes) && clients == old(clients)
      ensures State == Daemon.WithNode(old(State), a, old(State).nodes[a].(state := r))
    {
      hide NodesValid;
      Apart(a);
      nodes[a].SetResolveState(r);
      State := Daemon.WithNode(State, a, nodes[a].View());
      Repr := Repr + nodes[a].Repr();
      NodeChanged(a);
    }

    method SetNetAddressAt(a: u32, k: NetAddress)
      requires Valid() && a in nodes
      modifies Repr
      ensures Valid() && fresh(Repr - old(Repr)) && nodes == old(nodes) && clients == old(clients)
      ensures State == Daemon.WithNode(old(State), a, old(State).nodes[a].(net := Some(k), state := Resolved))
    {
      hide NodesValid;
      Apart(a);
      nodes[a].SetNetAddress(k);
      State := Daemon.WithNode(State, a, nodes[a].View());
      Repr := Repr + nodes[a].Repr();
      NodeChanged(a);
    }

    method ClearConnectionAt(a: u32)
      requires Valid() && a in nodes
      modifies Repr
      ensures Valid() && fresh(Repr - old(Repr)) && nodes == old(nodes) && clients == old(clients)
      ensures State == Daemon.WithNode(old(State), a, old(State).nodes[a].(conn := None))
    {
      hide NodesValid;
      Apart(a);
      nodes[a].ClearConnection();
      State := Daemon.WithNode(State, a, nodes[a].View());
      Repr := Repr + nodes[a].Repr();
      NodeChanged(a);
    }

    lemma SameKeys()
      requires NodesValid()
      ensures State.nodes.Keys == nodes.Keys
    {
    }

    /** The node behind a pointer of the index. */
    lemma Pointer(k: NetAddress)
      requires Valid() && k in nodesIndex
      ensures State.index[k] == nodesIndex[k].addr && nodesIndex[k].addr in nodes
              && nodes[nodesIndex[k].addr] == nodesIndex[k]
      ensures nodesIndex[k].addr in State.nodes
    {
      assert nodesIndex[k].addr in nodes.Keys;
    }

    method FindOrAdd(a: u32)
      requires Valid()
      modifies this`nodes, this`State, this`Repr
      ensures Valid() && fresh(Repr - old(Repr)) && a in nodes && a in State.nodes
      ensures State == Daemon.WithNode(old(State), a, if a in old(State).nodes then old(State).nodes[a] else NEW_NODE)
    {
      hide NodesValid, ClientsValid;
      SameKeys();
      if a in nodes { SetSame(a); } else { var _ := AddNewNode(a); }
    }

    /** The branch of HandleToRemoteMessage for nodes without an address. */
    method ResolveAndCache(m: Routed) returns (lookup: Option<Daemon.Lookup>, log: seq<Effect>)
      requires Valid()
      requires m.body.to.node in State.nodes ==> State.nodes[m.body.to.node].state == NotResolved
      modifies Repr
      ensures Valid() && fresh(Repr - old(Repr)) && clients == old(clients)
      ensures Daemon.Outcome(State, None, lookup, log, true) == Daemon.HandleToRemote(old(State), m, false)
    {
      hide NodesValid, CacheLog, WithCached, Daemon.HandleToRemote;
      var a := m.body.to.node;
      lookup, log := None, [Arrived(a, m)];
      FindOrAdd(a);
      ghost var n := State.nodes[a];
      UnresolvedRoute(old(State), m, n);
      if resolveServerConn.Some? {
        lookup := Some(Daemon.Lookup(resolveServerConn.value, selfAddress, a));
        SetResolveStateAt(a, Resolving);
        log := log + [LookedUp(a)];
      }
      var cached := CacheAt(a, m);
      log := log + cached;
      CacheIgnoresState(a, n, m);
    }

    /** writeOk: what Write on the node's connection returns. dial and lookup are the requests made to the network. */
    method HandleToRemoteMessage(m: Routed, writeOk: bool)
      returns (dial: Option<NetAddress>, lookup: Option<Daemon.Lookup>, log: seq<Effect>, ok: bool)
      requires Valid()
      modifies Repr
      ensures Valid() && fresh(Repr - old(Repr)) && clients == old(clients)
      ensures Daemon.Outcome(State, dial, lookup, log, ok) == Daemon.HandleToRemote(old(State), m, writeOk)
    {
      hide NodesValid, CacheLog, WithCached;
      dial, lookup, log, ok := None, None, [], true;
      var a := m.body.to.node;
      SameKeys();
      if a in nodes { Apart(a); }
      if a in nodes && nodes[a].state != NotResolved {
        if nodes[a].Connected() {
          log := SendAt(a, m, writeOk);
          log := [Arrived(a, m)] + log;
        } else if nodes[a].connecting || nodes[a].state == Resolving {
          log := CacheAt(a, m);
          log := [Arrived(a, m)] + log;
        } else {
          log := [Arrived(a, m), TriggerLost(a, m)];
          if nodes[a].net.None? { ok := false; return; }
          var k := nodes[a].net.value;
          ok := RegisterNode(nodes[a]);
          if !ok { return; }
          dial := Some(k);
          SetConnectingAt(a, true);
          log := log + [Dialled(a)];
        }
      } else {
        lookup, log := ResolveAndCache(m);
      }
    }

    lemma CacheIgnoresState(a: u32, n: NodeView, m: Routed)
      ensures WithCached(n.(state := Resolving), m) == WithCached(n, m).(state := Resolving)
      ensures CacheLog(a, n.(state := Resolving), m) == CacheLog(a, n, m)
    {
    }

    method UpdateSelfAddress(r: Daemon.Response)
      requires Valid()
      modifies this`selfAddress, this`State
      ensures Valid() && State == Daemon.UpdateSelfAddress(old(State), r).state
    {
      hide Create;
      if Create(r.path).node == r.addr {
        selfAddress := r.addr;
        State := State.(self := r.addr);
      }
    }

    method UpdateNodeAddressCache(r: Daemon.Response)
      returns (dial: Option<NetAddress>, log: seq<Effect>, ok: bool)
      requires Valid()
      modifies Repr
      ensures Valid() && fresh(Repr - old(Repr)) && clients == old(clients)
      ensures Daemon.Outcome(State, dial, None, log, ok) == Daemon.UpdateNodeAddressCache(old(State), r)
    {
      hide NodesValid;
      dial, log, ok := None, [], true;
      var a := r.addr;
      SameKeys();
      if a in nodes { Apart(a); }
      if a in nodes && nodes[a].state == Resolved {
        if r.code == Daemon.KOK { SetNetAddressAt(a, r.net); } else { SetResolveStateAt(a, NotResolved); }
      } else if a !in nodes {
        if r.code != Daemon.KOK { ok := false; return; }
        var node := AddNewNode(a);
        SetNetAddressAt(a, r.net);
      } else if r.code == Daemon.KOK {
        SetNetAddressAt(a, r.net);
      }
      SameKeys();
      Apart(a);
      SetSame(a);
      dial, log, ok := ConnectWaiting(a);
    }

    /** The connection attempt of UpdateNodeAddressCache. */
    method ConnectWaiting(a: u32) returns (dial: Option<NetAddress>, log: seq<Effect>, ok: bool)
      requires Valid() && a in nodes && a in State.nodes
      modifies this`nodesIndex, this`State
      ensures Valid()
      ensures var n := old(State).nodes[a];
              if n.queue == [] || n.conn.Some? || !n.state.Resolved? then dial == None && log == [] && ok
                  && State == old(State)
              else if n.net.None? then dial == None && log == [] && !ok && State == old(State)
              else dial == n.net && log == [Dialled(a)] && ok == (n.net.value !in old(State).index)
                   && State == if ok then old(State).(index := old(State).index[n.net.value := a]) else old(State)
    {
      hide NodesValid;
      dial, log, ok := None, [], true;
      Apart(a);
      var has := nodes[a].HasCachedMessage();
      if has && !nodes[a].Connected() && nodes[a].state == Resolved {
        if nodes[a].net.None? { return None, [], false; }
        dial := nodes[a].net;
        log := [Dialled(a)];
        ok := RegisterNode(nodes[a]);
      }
    }

    /** Writing back what is there changes nothing. */
    lemma SetSame(a: u32)
      requires a in State.nodes
      ensures Daemon.WithNode(State, a, State.nodes[a]) == State
    {
    }

    /** kind: the type in the message header; a message that is no response closes the connection, unread. */
    method HandleResolveServerMessage(kind: int, r: Daemon.Response)
      returns (closes: bool, dial: Option<NetAddress>, log: seq<Effect>, ok: bool)
      requires Valid()
      modifies Repr
      ensures Valid() && fresh(Repr - old(Repr)) && clients == old(clients)
      ensures closes <==> kind != Protocol.KRESOLVE_RESPONSE
      ensures Daemon.Outcome(State, dial, None, log, ok) ==
              if closes then Daemon.Outcome(old(State), None, None, [], true) else Daemon.HandleResponse(old(State), r)
    {
      hide NodesValid, Daemon.UpdateNodeAddressCache, Create;
      closes, dial, log, ok := kind != Protocol.KRESOLVE_RESPONSE, None, [], true;
      if closes { return; }
      if r.kind == Daemon.KUPDATE_SELF {
        UpdateSelfAddress(r);
      } else if r.kind == Daemon.KUPDATE_CACHE {
        dial, log, ok := UpdateNodeAddressCache(r);
      }
    }

    /** The request written on the new connection asks for this daemon's own address. */
    method OnConnectedToResolveServer(c: ConnId) returns (request: Registry.Request)
      requires Valid()
      modifies this`resolveServerConn, this`State
      ensures Valid() && State == old(State).(resolveConn := Some(c))
      ensures request == Registry.Request(Registry.KINITIALIZE_SELF, 0, messageServerPort, 0)
    {
      request := Registry.Request(Registry.KINITIALIZE_SELF, 0, messageServerPort, 0);
      resolveServerConn := Some(c);
      State := State.(resolveConn := Some(c));
    }

    /** retryAfter: milliseconds until the next attempt. */
    method OnConnectedToResolveServerError() returns (retryAfter: nat)
      requires Valid()
      ensures Valid() && retryAfter == 2000
    {
      retryAfter := RETRY_INTERVAL;
    }

    method OnResolveServerDisconnected() returns (retryAfter: nat)
      requires Valid()
      modifies this`resolveServerConn, this`State
      ensures Valid() && State == old(State).(resolveConn := None) && retryAfter == 2000
    {
      retryAfter := RETRY_INTERVAL;
      resolveServerConn := None;
      State := State.(resolveConn := None);
    }

    method OnConnectedToRemoteNode(k: NetAddress, c: ConnId, accepts: nat -> bool) returns (log: seq<Effect>, ok: bool)
      requires Valid()
      modifies Repr
      ensures Valid() && fresh(Repr - old(Repr)) && clients == old(clients)
      ensures Daemon.Outcome(State, None, None, log, ok) == Daemon.OnConnected(old(State), k, c, accepts)
    {
      hide NodesValid;
      if k !in nodesIndex { return [], false; }
      Pointer(k);
      log, ok := AttachAt(nodesIndex[k].addr, c, accepts);
    }

    method OnConnectToRemoteNodeError(k: NetAddress) returns (ok: bool)
      requires Valid()
      modifies Repr
      ensures Valid() && fresh(Repr - old(Repr)) && clients == old(clients)
      ensures Daemon.Outcome(State, None, None, [], ok) == Daemon.OnConnectError(old(State), k)
    {
      hide NodesValid;
      if k !in nodesIndex { return false; }
      Pointer(k);
      var a := nodesIndex[k].addr;
      SetConnectingAt(a, false);
      Apart(a);
      ok := UnRegisterNode(nodes[a]);
    }

    method OnRemoteNodeDisconnected(k: NetAddress) returns (ok: bool)
      requires Valid()
      modifies Repr
      ensures Valid() && fresh(Repr - old(Repr)) && clients == old(clients)
      ensures Daemon.Outcome(State, None, None, [], ok) == Daemon.OnDisconnected(old(State), k)
    {
      hide NodesValid;
      if k !in nodesIndex { return false; }
      Pointer(k);
      var a := nodesIndex[k].addr;
      ClearConnectionAt(a);
      Apart(a);
      ok := UnRegisterNode(nodes[a]);
    }

    // ---------------------------------------------------------------- local clients

    ghost function Inputs(): (buses: map<u32, seq<Record>>)
      reads this, clients.Values
      ensures buses.Keys == clients.Keys
    {
      map c | c in clients :: clients[c].input
    }

    ghost function Outputs(): map<u32, seq<Message>>
      reads this, clients.Values
    {
      map c | c in clients :: clients[c].output
    }

    lemma OwnClient(c: u32)
      requires Valid() && c in clients
      ensures selfAddress == State.self
      ensures clients[c].addr.client == c && clients[c] !in Repr
      ensures forall d :: d in clients && d != c ==> clients[d] != clients[c]
    {
    }

    /** The insertion at the end of HandleInitCommand: a client already there stays, with its own buses. input and
        output: what the restored or created buses hold. */
    method AddClient(name: seq<byte>, input: seq<Record>, output: seq<Message>)
      requires Valid()
      modifies this`clients
      ensures Valid() && State == old(State)
      ensures var c := Create(name).client;
              && clients.Keys == old(clients).Keys + {c}
              && (forall d :: d in old(clients) ==> clients[d] == old(clients)[d])
              && (c !in old(clients) ==>
                    fresh(clients[c]) && clients[c].name == name && clients[c].input == input
                        && clients[c].output == output)
    {
      hide Create, Holds;
      var addr := Create(name);
      if addr.client !in clients {
        var client := new ClientInfo(name, addr, input, output);
        clients := clients[addr.client := client];
      }
    }

    method Deposit(m: Message, room: bool)
      requires Valid()
      modifies clients.Values
      ensures Valid() && Inputs() == old(Inputs())
      ensures Outputs() == DeliverLocal(old(Outputs()), m, room)
    {
      hide NodesValid;
      if m.to.client in clients {
        OwnClient(m.to.client);
        clients[m.to.client].WriteMessage(m, room);
      }
    }

    /** Whether the message is for this node; a message for an absent client is dropped. */
    method HandleRemoteMessage(m: Message, room: bool) returns (expected: bool)
      requires Valid()
      modifies clients.Values
      ensures Valid() && Inputs() == old(Inputs())
      ensures expected <==> m.to.node == selfAddress
      ensures Outputs() == if expected then DeliverLocal(old(Outputs()), m, room) else old(Outputs())
    {
      expected := m.to.node == selfAddress;
      if expected { Deposit(m, room); }
    }

    method HandleToLocalMessage(m: Message, room: bool)
      requires Valid() && IsLocal(selfAddress, m) && m.from.client in clients
      modifies clients.Values
      ensures Valid() && Inputs() == old(Inputs())
      ensures Outputs() == DeliverLocal(old(Outputs()), m, room)
    {
      Deposit(m, room);
    }

    /** The body of HandleBusMessage's inner loop after the source was set. next: the number of the next routing to a
        remote node. */
    method RouteMessage(m: Message, next: nat, takes: bool)
      returns (next': nat, dial: Option<NetAddress>, lookup: Option<Daemon.Lookup>, log: seq<Effect>, ok: bool)
      requires Valid() && m.from.client in clients
      modifies Repr, clients.Values
      ensures Valid() && fresh(Repr - old(Repr)) && clients == old(clients) && Inputs() == old(Inputs())
      ensures State.self == old(State).self
      ensures Pumped(State, Outputs(), next', Only(dial), Only(lookup), log, ok) ==
              Deliver(Pumped(old(State), old(Outputs()), next, [], [], [], true), m, takes)
    {
      hide NodesValid, Daemon.HandleToRemote;
      SelfKept(State, Routed(next, m), takes);
      if m.to.node == selfAddress || m.to.node == 0 {
        HandleToLocalMessage(m, takes);
        next', dial, lookup, log, ok := next, None, None, [], true;
      } else {
        next' := next + 1;
        dial, lookup, log, ok := HandleToRemoteMessage(Routed(next, m), takes);
      }
    }

    /** ReadMessage on client c's bus. */
    method Pull(c: u32) returns (m: Option<Message>)
      requires Valid() && c in clients
      modifies clients.Values
      ensures Valid() && Outputs() == old(Outputs())
      ensures m == ReadFrom(old(Inputs())[c]) && Inputs() == old(Inputs())[c := Rest(old(Inputs())[c])]
    {
      hide NodesValid, ValidRecord;
      OwnClient(c);
      m := clients[c].ReadMessage();
    }

    /** RouteMessage, added to what a pump has done so far. */
    method RouteNext(m: Message, next: nat, takes: bool, dials: seq<NetAddress>, lookups: seq<Daemon.Lookup>,
                     log: seq<Effect>)
      returns (next': nat, dials': seq<NetAddress>, lookups': seq<Daemon.Lookup>, log': seq<Effect>, ok: bool)
      requires Valid() && m.from.client in clients
      modifies Repr, clients.Values
      ensures Valid() && fresh(Repr - old(Repr)) && clients == old(clients) && Inputs() == old(Inputs())
      ensures State.self == old(State).self
      ensures Pumped(State, Outputs(), next', dials', lookups', log', ok) ==
              Deliver(Pumped(old(State), old(Outputs()), next, dials, lookups, log, true), m, takes)
    {
      hide NodesValid, Deliver;
      DeliverAdds(Pumped(State, Outputs(), next, dials, lookups, log, true), m, takes);
      var n, dial, lookup, l, fine := RouteMessage(m, next, takes);
      next', dials', lookups', log', ok := n, dials + Only(dial), lookups + Only(lookup), log + l, fine;
    }

    /** The inner loop of HandleBusMessage: count messages were routed. */
    method DrainClient(c: u32, from: nat, next: nat, takes: nat -> bool)
      returns (count: nat, next': nat, dials: seq<NetAddress>, lookups: seq<Daemon.Lookup>, log: seq<Effect>, ok: bool)
      requires Valid() && c in clients
      modifies Repr, clients.Values
      ensures Valid() && fresh(Repr - old(Repr)) && clients == old(clients) && State.self == old(State).self
      ensures var bus := old(Inputs())[c]; var ms := StampAll(old(State).self, c, Taken(bus));
              && count <= |ms| && (ok ==> count == |ms| && Inputs() == old(Inputs())[c := Left(bus)])
              && Pumped(State, Outputs(), next', dials, lookups, log, ok) ==
                 DeliverAll(Pumped(old(State), old(Outputs()), next, [], [], [], true), ms[..count], from, takes)
    {
      hide *;
      OwnClient(c);
      ghost var inputs, self := Inputs(), State.self;
      ghost var p0 := Pumped(State, Outputs(), next, [], [], [], true);
      count, next', dials, lookups, log, ok := 0, next, [], [], [], true;
      var m := Pull(c);
      DrainingStart(p0, self, c, inputs, from, takes, m, Inputs());
      while m.Some?
        invariant Valid() && fresh(Repr - old(Repr)) && clients == old(clients) && State.self == self && ok
        invariant Draining(p0, self, c, inputs, from, takes, Pumped(State, Outputs(), next', dials, lookups, log, true),
                           count, m, Inputs())
        decreases |inputs[c]| - count, m.Some?
      {
        OwnClient(c);
        ghost var p := Pumped(State, Outputs(), next', dials, lookups, log, true);
        var body := Stamp(selfAddress, clients[c].addr.client, m.value);
        DrainingOne(p0, self, c, inputs, from, takes, p, count, m, Inputs());
        next', dials, lookups, log, ok := RouteNext(body, next', takes(from + count), dials, lookups, log);
        count := count + 1;
        if !ok { return; }
        ghost var before, last := Inputs(), m;
        m := Pull(c);
        DrainingStep(p0, self, c, inputs, from, takes, p, count - 1, last, before, m, Inputs());
      }
      DrainingEnd(p0, self, c, inputs, from, takes, Pumped(State, Outputs(), next', dials, lookups, log, true), count,
                  Inputs());
    }

    /** Pumps every client's bus until its first failed read. next: the number of the next routing to a remote node;
        takes: which of the routed messages find room on their bus or connection. */
    method HandleBusMessage(next: nat, takes: nat -> bool)
      returns (busy: bool, next': nat, dials: seq<NetAddress>, lookups: seq<Daemon.Lookup>, log: seq<Effect>, ok: bool)
      requires Valid()
      modifies Repr, clients.Values
      ensures Valid() && fresh(Repr - old(Repr)) && clients == old(clients)
      ensures var ms := Gathered(Ascending(clients.Keys), old(Inputs()), old(State).self);
              && Pumped(State, Outputs(), next', dials, lookups, log, ok) ==
                 DeliverAll(Pumped(old(State), old(Outputs()), next, [], [], [], true), ms, 0, takes)
              && (ok ==> (busy <==> ms != []))
      ensures ok ==> Delivered(old(Outputs()), Gathered(Ascending(clients.Keys), old(Inputs()), old(State).self),
                               old(State).self, takes)
      ensures var out := SentOut(Gathered(Ascending(clients.Keys), old(Inputs()), old(State).self), old(State).self,
                                 next);
              ok ==> next' == next + |out| && ArrivedIn(log) == out
      ensures ok ==> Inputs() == Drained(old(Inputs()), {})
    {
      hide *;
      ghost var inputs := Inputs();
      ghost var p0 := Pumped(State, Outputs(), next, [], [], [], true);
      ghost var sent: seq<Message> := [];
      busy, next', dials, lookups, log, ok := false, next, [], [], [], true;
      DrainedStart(inputs);
      PumpingStart(p0, inputs, 0, takes);
      var n, rest := 0, clients.Keys;
      while rest != {}
        invariant Valid() && fresh(Repr - old(Repr)) && clients == old(clients) && ok && State.self == p0.d.self
        invariant rest <= clients.Keys && Inputs() == Drained(inputs, rest)
        invariant n == |sent| && (busy <==> sent != [])
        invariant Pumping(p0, inputs, 0, takes, Pumped(State, Outputs(), next', dials, lookups, log, true), sent, rest)
        decreases |rest|
      {
        Smallest(rest);
        var c: u32 :| c in rest && forall y :: y in rest ==> c <= y;
        DrainedStep(inputs, rest, c);
        ghost var p := Pumped(State, Outputs(), next', dials, lookups, log, true);
        var count, after, ds, ls, l, fine := DrainClient(c, n, next', takes);
        PumpingStep(p0, inputs, 0, takes, p, sent, rest, c, count, Pumped(State, Outputs(), after, ds, ls, l, fine));
        next', dials, lookups, log, ok := after, dials + ds, lookups + ls, log + l, fine;
        if !ok { return; }
        busy := busy || count > 0;
        n, sent, rest := n + count, sent + StampAll(p0.d.self, c, Taken(inputs[c])), rest - {c};
      }
      PumpingEnd(p0, inputs, 0, takes, Pumped(State, Outputs(), next', dials, lookups, log, true), sent);
      PumpDelivers(p0, sent, 0, takes);
      DeliversTo(p0, sent, takes, Pumped(State, Outputs(), next', dials, lookups, log, true));
    }

    /** Every client got exactly those of the messages that were for it and found room. */
    ghost predicate Delivered(before: map<u32, seq<Message>>, ms: seq<Message>, self: u32, takes: nat -> bool)
      reads this, clients.Values
    {
      && before.Keys == clients.Keys
      && (forall c :: c in clients ==> clients[c].output == before[c] + KeptFor(ms, self, c, 0, takes))
    }

    lemma DeliversTo(p: Pumped, ms: seq<Message>, takes: nat -> bool, q: Pumped)
      requires q.outputs == Outputs() && p.log == [] && Delivers(p, ms, 0, takes, q)
      ensures Delivered(p.outputs, ms, p.d.self, takes)
      ensures q.next == p.next + |SentOut(ms, p.d.self, p.next)| && ArrivedIn(q.log) == SentOut(ms, p.d.self, p.next)
    {
      forall c | c in clients ensures clients[c].output == p.outputs[c] + KeptFor(ms, p.d.self, c, 0, takes) {
        assert Outputs()[c] == clients[c].output;
      }
    }

    /** The event loop's cron functor called times times with no new input: takes(i) is for call number i. More calls
        than there are invalid records on any bus empty every bus. */
    method PumpRepeatedly(times: nat, next: nat, takes: nat -> nat -> bool) returns (ok: bool)
      requires Valid()
      modifies Repr, clients.Values
      ensures Valid() && fresh(Repr - old(Repr)) && clients == old(clients)
      ensures ok ==> Inputs() == DrainedAfter(old(Inputs()), times)
      ensures ok && times > MostInvalid(old(Inputs())) ==> forall c :: c in clients ==> clients[c].input == []
    {
      hide *;
      ghost var inputs := Inputs();
      ok := true;
      var i, n := 0, next;
      DrainedNone(inputs);
      while i < times
        invariant Valid() && fresh(Repr - old(Repr)) && clients == old(clients) && ok
        invariant i <= times && Inputs() == DrainedAfter(inputs, i)
      {
        var busy, after, dials, lookups, log, fine := HandleBusMessage(n, takes(i));
        if !fine { return false; }
        DrainedOnce(inputs, i);
        i, n := i + 1, after;
      }
      PumpsEmptyAll(inputs, times);
      InputsEach();
    }

    lemma InputsEach()
      ensures forall c :: c in clients ==> clients[c].input == Inputs()[c]
    {
    }

    static lemma DrainedNone(buses: map<u32, seq<Record>>)
      ensures DrainedAfter(buses, 0) == buses
    {
    }

    lemma Smallest(s: set<u32>)
      requires s != {}
      ensures exists x :: x in s && forall y :: y in s ==> x <= y
    {
      var x := Least(s);
    }
  }
}
