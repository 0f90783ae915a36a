/** The daemon composed with the resolve server, the network in between, and its outbound connections. */
module Cluster {
  import opened Bytes
  import opened Messages
  import opened Nodes
  import opened Conf
  import opened Daemon
  import Registry

  datatype InFlight<T> = InFlight(conn: ConnId, item: T)

  /** attempts: connection attempts to nodes still without an outcome; byReply: those among the attempted addresses
      whose last attempt was started by a lookup reply; live: open outbound connections and their peers;
      requests and replies: what is on the wire, or stranded on a broken connection, in sending order;
      log: everything that happened to messages and nodes; ok: no assertion has failed. */
  datatype World = World(d: State, r: Registry.Server, attempts: multiset<NetAddress>, byReply: set<NetAddress>,
                         live: map<ConnId, NetAddress>, nextConn: nat,
                         requests: seq<InFlight<Registry.Request>>, replies: seq<InFlight<Response>>,
                         nextId: nat, log: seq<Effect>, ok: bool)

  function Boot(conf: ConfView): World {
    World(INITIAL, Registry.Boot(conf), multiset{}, {}, map[], 0, [], [], 0, [], true)
  }

  datatype Event =
    | Route(body: Message, writeOk: bool, sentOk: bool)
    | ConnectDone(net: NetAddress, accepts: nat -> bool)
    | ConnectFail(net: NetAddress)
    | Disconnect(conn: ConnId)
    | ResolveUp(port: int, sentOk: bool)
    | ResolveDown
    | ReadReply(i: nat)
    | ServerReads(i: nat)
    | ServerOther(e: Registry.Event)

  /** What a callback's outcome does to the world. */
  function Absorb(w: World, o: Outcome, sentOk: bool, viaReply: bool): World {
    w.(d := o.state,
       attempts := if o.dial.Some? then w.attempts + multiset{o.dial.value} else w.attempts,
       byReply := if o.dial.None? then w.byReply
                  else if viaReply then w.byReply + {o.dial.value} else w.byReply - {o.dial.value},
       requests := if o.lookup.Some? && sentOk then
                     w.requests + [InFlight(o.lookup.value.conn,
                                            Registry.Request(Registry.KLOOKUP_NODE, o.lookup.value.self, 0,
                                                             o.lookup.value.peer))]
                   else w.requests,
       log := w.log + o.log,
       ok := o.ok)
  }

  function Without<T>(s: seq<T>, i: nat): seq<T>
    requires i < |s|
  {
    s[..i] + s[i + 1..]
  }

  /** Entry i is the oldest of its connection. */
  predicate IsNext<T>(s: seq<InFlight<T>>, i: nat) {
    i < |s| && forall j :: 0 <= j < i ==> s[j].conn != s[i].conn
  }

  /** The resolve server handles one event; a reply to one of this daemon's connections goes on the wire. */
  function ServerStep(w: World, e: Registry.Event): World {
    var x := Registry.Next(w.r, e);
    w.(r := x.server, ok := x.ok,
       replies := if x.reply.Some? && e.Message? && e.c.Mine?
                  then w.replies + [InFlight(e.c.n, x.reply.value)] else w.replies)
  }

  /** One event; events that cannot happen, or come after a failed assertion, change nothing. */
  function Next(w: World, e: Event): World {
    if !w.ok then w else
    match e
    case Route(body, writeOk, sentOk) =>
      Absorb(w.(nextId := w.nextId + 1), HandleToRemote(w.d, Routed(w.nextId, body), writeOk), sentOk, false)
    case ConnectDone(k, accepts) =>
      if w.attempts[k] == 0 then w
      else Absorb(w.(attempts := w.attempts - multiset{k}, live := w.live[w.nextConn := k], nextConn := w.nextConn + 1),
                  OnConnected(w.d, k, w.nextConn, accepts), false, false)
    case ConnectFail(k) =>
      if w.attempts[k] == 0 then w
      else Absorb(w.(attempts := w.attempts - multiset{k}), OnConnectError(w.d, k), false, false)
    case Disconnect(c) =>
      if c !in w.live then w
      else Absorb(w.(live := w.live - {c}), OnDisconnected(w.d, w.live[c]), false, false)
    case ResolveUp(port, sentOk) =>
      if w.d.resolveConn.Some? then w
      else w.(d := w.d.(resolveConn := Some(w.nextConn)), nextConn := w.nextConn + 1,
              requests := if sentOk then w.requests
                  + [InFlight(w.nextConn, Registry.Request(Registry.KINITIALIZE_SELF, 0, port, 0))]
                          else w.requests)
    case ResolveDown => w.(d := w.d.(resolveConn := None))
    case ReadReply(i) =>
      if !IsNext(w.replies, i) || w.d.resolveConn != Some(w.replies[i].conn) then w
      else Absorb(w.(replies := Without(w.replies, i)), HandleResponse(w.d, w.replies[i].item), false, true)
    case ServerReads(i) =>
      if !IsNext(w.requests, i) then w
      else ServerStep(w.(requests := Without(w.requests, i)),
                      Registry.Message(Registry.Mine(w.requests[i].conn), w.requests[i].item))
    case ServerOther(x) =>
      if (x.Message? && x.c.Mine?) || (x.NewConnection? && x.c.Mine? && x.c.n >= w.nextConn) then w
      else ServerStep(w, x)
  }

  /** The world after a run. */
  function After(conf: ConfView, es: seq<Event>): World {
    if es == [] then Boot(conf) else Next(After(conf, es[..|es| - 1]), es[|es| - 1])
  }

  lemma AfterSnoc(conf: ConfView, es: seq<Event>, e: Event)
    ensures After(conf, es + [e]) == Next(After(conf, es), e)
  {
    hide Next;
    assert (es + [e])[..|es|] == es;
  }

  // ---------------------------------------------------------------- nodes

  ghost predicate NodeInv(n: NodeView) {
    && |n.queue| <= MAX_CACHED
    && (n.net.Some? <==> n.state.Resolved?)
    && (n.conn.Some? || n.connecting ==> n.state.Resolved?)
    && (n.state.Resolving? ==> n.queue != [])
  }

  ghost predicate NodesInv(w: World) {
    forall a :: a in w.d.nodes ==> NodeInv(w.d.nodes[a])
  }

  // ---------------------------------------------------------------- lookups

  function AskedFor(q: InFlight<Registry.Request>): Option<u32> {
    if q.item.kind == Registry.KLOOKUP_NODE then Some(q.item.peer) else None
  }

  function AnsweredFor(q: InFlight<Response>): Option<u32> {
    if q.item.kind == KUPDATE_CACHE then Some(q.item.addr) else None
  }

  function LookedFor(x: Effect): Option<u32> { if x.LookedUp? then Some(x.node) else None }

  /** How many entries concern a. */
  function Count<T>(s: seq<T>, f: T -> Option<u32>, a: u32): nat {
    if s == [] then 0 else Count(s[..|s| - 1], f, a) + if f(s[|s| - 1]) == Some(a) then 1 else 0
  }

  function InFlightFor(w: World, a: u32): nat { Count(w.requests, AskedFor, a) + Count(w.replies, AnsweredFor, a) }

  function LookupsEver(w: World, a: u32): nat { Count(w.log, LookedFor, a) }

  predicate Is(w: World, a: u32, s: ResolveState) { a in w.d.nodes && w.d.nodes[a].state == s }

  /** Lookups and answers under way for a: at most one, and only while a is being resolved. */
  ghost predicate LookupInv(w: World, a: u32) {
    && InFlightFor(w, a) <= (if Is(w, a, Resolving) then 1 else 0)
    && LookupsEver(w, a) == (if Is(w, a, Resolving) || Is(w, a, Resolved) then 1 else 0)
  }

  // ---------------------------------------------------------------- addresses

  /** Addresses in answers and in nodes come from the configuration. */
  ghost predicate AddressInv(w: World) {
    && Registry.Coherent(w.r)
    && (forall i :: 0 <= i < |w.replies| && w.replies[i].item.kind == KUPDATE_CACHE && w.replies[i].item.code == KOK ==>
          var a := w.replies[i].item.addr; a in w.r.conf.nodes && w.r.conf.nodes[a].net == w.replies[i].item.net)
    && (forall a :: a in w.d.nodes && w.d.nodes[a].net.Some? ==>
          a in w.r.conf.nodes && w.r.conf.nodes[a].net == w.d.nodes[a].net.value)
  }

  // ---------------------------------------------------------------- the index

  /** The node table, its index, and the sockets of outbound connections. */
  datatype Wiring = Wiring(nodes: map<u32, NodeView>, index: map<NetAddress, u32>, attempts: multiset<NetAddress>,
                           byReply: set<NetAddress>, live: map<ConnId, NetAddress>)

  function WiringOf(w: World): Wiring { Wiring(w.d.nodes, w.d.index, w.attempts, w.byReply, w.live) }

  /** An indexed address points to the node that has it, and has either one attempt or that node's connection. */
  ghost predicate KeyOk(x: Wiring, k: NetAddress)
    requires k in x.index
  {
    x.index[k] in x.nodes &&
    var n := x.nodes[x.index[k]];
    && n.net == Some(k)
    && x.attempts[k] == (if n.conn.None? then 1 else 0)
    && (n.conn.None? ==> (k in x.byReply <==> !n.connecting))
    && (n.conn.Some? ==> n.conn.value in x.live && x.live[n.conn.value] == k)
  }

  ghost predicate ConnOk(x: Wiring, c: ConnId)
    requires c in x.live
  {
    x.live[c] in x.index && x.index[x.live[c]] in x.nodes && x.nodes[x.index[x.live[c]]].conn == Some(c)
  }

  ghost predicate OwnerOk(x: Wiring, a: u32)
    requires a in x.nodes
  {
    var n := x.nodes[a];
    n.conn.Some? ==> n.net.Some? && n.net.value in x.index && x.index[n.net.value] == a
  }

  /** nodes_index_ holds exactly the addresses with an attempt in flight or a live connection, each pointing to the
      node that has this address. */
  ghost predicate Wired(x: Wiring) {
    && (forall k :: k in x.index ==> KeyOk(x, k))
    && (forall k :: k in x.attempts ==> k in x.index)
    && (forall c :: c in x.live ==> ConnOk(x, c))
    && (forall a :: a in x.nodes ==> OwnerOk(x, a))
  }

  ghost predicate IndexInv(w: World) {
    Wired(WiringOf(w)) && (forall c :: c in w.live ==> c < w.nextConn)
  }

  ghost predicate Inv(w: World) {
    NodesInv(w) && (forall a :: LookupInv(w, a)) && AddressInv(w) && IndexInv(w)
  }

  lemma InvNodes(w: World)
    requires Inv(w)
    ensures NodesInv(w) && forall a :: LookupInv(w, a)
  {
  }

  // ---------------------------------------------------------------- counting

  lemma {:induction false} CountAppend<T>(s: seq<T>, t: seq<T>, f: T -> Option<u32>, a: u32)
    ensures Count(s + t, f, a) == Count(s, f, a) + Count(t, f, a)
    decreases |t|
  {
    if t == [] {
      assert s + t == s;
    } else {
      var u := t[..|t| - 1];
      assert (s + t)[..|s + t| - 1] == s + u;
      CountAppend(s, u, f, a);
    }
  }

  lemma CountOne<T>(x: T, f: T -> Option<u32>, a: u32)
    ensures Count([x], f, a) == if f(x) == Some(a) then 1 else 0
  {
    assert [x][..0] == [];
  }

  lemma CountWithout<T>(s: seq<T>, i: nat, f: T -> Option<u32>, a: u32)
    requires i < |s|
    ensures Count(s, f, a) == Count(Without(s, i), f, a) + if f(s[i]) == Some(a) then 1 else 0
  {
    assert s == s[..i] + [s[i]] + s[i + 1..];
    CountAppend(s[..i] + [s[i]], s[i + 1..], f, a);
    CountAppend(s[..i], [s[i]], f, a);
    CountAppend(s[..i], s[i + 1..], f, a);
    CountOne(s[i], f, a);
  }

  lemma {:induction false} CountNone<T>(s: seq<T>, f: T -> Option<u32>, a: u32)
    requires forall i :: 0 <= i < |s| ==> f(s[i]) != Some(a)
    ensures Count(s, f, a) == 0
  {
    if s != [] { CountNone(s[..|s| - 1], f, a); }
  }
}
