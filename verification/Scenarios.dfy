/** Runs of ordinary events into every assertion that can fail and every way a message or a node is lost. */
module Scenarios {
  import opened Bytes
  import opened Addressing
  import opened Messages
  import opened Nodes
  import opened Conf
  import opened Daemon
  import opened Cluster
  import opened Resolution
  import opened Ledger
  import opened Dead
  import Registry

  lemma AfterTwo(conf: ConfView, es: seq<Event>, e: Event, f: Event)
    ensures After(conf, es + [e, f]) == Next(Next(After(conf, es), e), f)
  {
    hide Next, After;
    assert es + [e, f] == es + [e] + [f];
    AfterSnoc(conf, es, e);
    AfterSnoc(conf, es + [e], f);
  }

  lemma AfterFour(conf: ConfView, es: seq<Event>, e: Event, f: Event, g: Event, h: Event)
    ensures After(conf, es + [e, f, g, h]) == Next(Next(Next(Next(After(conf, es), e), f), g), h)
  {
    hide Next, After;
    assert es + [e, f, g, h] == es + [e, f] + [g, h];
    AfterTwo(conf, es, e, f);
    AfterTwo(conf, es + [e, f], g, h);
  }

  // ---------------------------------------------------------------- start-up

  /** The daemon runs on the configured node with this address, whose path hashes to it. */
  ghost predicate Hosts(conf: ConfView, b: u32, net: NetAddress) {
    && net in conf.byNet && conf.byNet[net] == b
    && b in conf.nodes && conf.nodes[b].addr == b && Create(conf.nodes[b].path).node == b
  }

  function StartUp(net: NetAddress): seq<Event> {
    [ResolveUp(net.port, true), ServerOther(Registry.NewConnection(Registry.Mine(0), net.ip)),
     ServerReads(0), ReadReply(0)]
  }

  /** The resolve server has the daemon's first connection, from this ip, registered as node b. */
  ghost predicate Serving(r: Registry.Server, conf: ConfView, b: u32, ip: seq<byte>) {
    && r.conf == conf && r.ips == map[Registry.Mine(0) := ip]
    && r.contexts == map[Registry.Mine(0) := Registry.NodeAddr(b)] && r.registered == map[b := Registry.Mine(0)]
  }

  /** The daemon is registered with the resolve server as node b on its first connection; nothing else has happened. */
  ghost predicate Registered(w: World, conf: ConfView, b: u32, ip: seq<byte>) {
    && w.ok && w.d == State(map[], map[], b, Some(0))
    && Serving(w.r, conf, b, ip) && w.r.seen == {Registry.Mine(0)}
    && w.requests == [] && w.replies == [] && w.attempts == multiset{} && w.live == map[]
    && w.nextConn == 1 && w.nextId == 0
  }

  /** Connected, and the init request on the wire. */
  ghost predicate Greeted(w: World, conf: ConfView, net: NetAddress) {
    && w.ok && w.d == State(map[], map[], 0, Some(0))
    && w.r == Registry.Server(conf, map[Registry.Mine(0) := net.ip], map[Registry.Mine(0) := Registry.Timer(0)], map[],
                              map[0 := Registry.Mine(0)], 1, {Registry.Mine(0)})
    && w.requests == [InFlight(0, Registry.Request(Registry.KINITIALIZE_SELF, 0, net.port, 0))] && w.replies == []
    && w.attempts == multiset{} && w.live == map[] && w.nextConn == 1 && w.nextId == 0
  }

  lemma BootGreets(conf: ConfView, net: NetAddress)
    ensures Greeted(Next(Next(Boot(conf), ResolveUp(net.port, true)),
                         ServerOther(Registry.NewConnection(Registry.Mine(0), net.ip))), conf, net)
  {
  }

  lemma ServerRegisters(w: World, conf: ConfView, b: u32, net: NetAddress)
    requires Greeted(w, conf, net) && Hosts(conf, b, net)
    ensures var v := Next(w, ServerReads(0));
            && v.replies == [InFlight(0, Response(KOK, KUPDATE_SELF, b, net, conf.nodes[b].path))]
            && v.ok && v.d == w.d && v.requests == []
            && v.r.conf == conf && v.r.seen == w.r.seen && v.r.ips == w.r.ips
            && v.r.contexts == map[Registry.Mine(0) := Registry.NodeAddr(b)]
               && v.r.registered == map[b := Registry.Mine(0)]
            && v.attempts == w.attempts && v.live == w.live && v.nextConn == w.nextConn && v.nextId == w.nextId
  {
    hide Create;
  }

  lemma LearnsSelf(w: World, conf: ConfView, b: u32, net: NetAddress)
    requires Hosts(conf, b, net) && w.ok && w.d == State(map[], map[], 0, Some(0))
    requires w.replies == [InFlight(0, Response(KOK, KUPDATE_SELF, b, net, conf.nodes[b].path))]
    ensures var v := Next(w, ReadReply(0));
            && v.ok && v.d == State(map[], map[], b, Some(0)) && v.r == w.r && v.requests == w.requests
               && v.replies == []
            && v.attempts == w.attempts && v.live == w.live && v.nextConn == w.nextConn && v.nextId == w.nextId
  {
    hide Create;
  }

  lemma StartUpRegisters(conf: ConfView, b: u32, net: NetAddress)
    requires Hosts(conf, b, net)
    ensures Registered(After(conf, StartUp(net)), conf, b, net.ip)
  {
    var es := StartUp(net);
    BootAfter(conf);
    assert es == [] + [es[0], es[1], es[2], es[3]];
    hide After, Next, Hosts;
    AfterFour(conf, [], es[0], es[1], es[2], es[3]);
    BootGreets(conf, net);
    var w := Next(Next(Boot(conf), es[0]), es[1]);
    ServerRegisters(w, conf, b, net);
    LearnsSelf(Next(w, es[2]), conf, b, net);
  }

  lemma BootAfter(conf: ConfView)
    ensures After(conf, []) == Boot(conf)
  {
  }

  // ---------------------------------------------------------------- a lookup

  /** The first message for a node has been cached and the node looked up. */
  ghost predicate Asked(w: World, conf: ConfView, b: u32, ip: seq<byte>, m: Message) {
    var a := m.to.node;
    && w.ok && w.d == State(map[a := NodeView(false, Resolving, None, [Routed(0, m)], None)], map[], b, Some(0))
    && Serving(w.r, conf, b, ip)
    && w.requests == [InFlight(0, Registry.Request(Registry.KLOOKUP_NODE, b, 0, a))] && w.replies == []
    && w.attempts == multiset{} && w.live == map[] && w.nextConn == 1 && w.nextId == 1
  }

  lemma RouteAsks(w: World, conf: ConfView, b: u32, ip: seq<byte>, m: Message)
    requires Registered(w, conf, b, ip)
    ensures Asked(Next(w, Route(m, true, true)), conf, b, ip, m)
  {
    assert [] + [Routed(0, m)] == [Routed(0, m)];
    var a, n := m.to.node, NEW_NODE.(queue := [Routed(0, m)], state := Resolving);
    assert WithCached(NEW_NODE, Routed(0, m)).(state := Resolving) == n;
    assert w.d.nodes[a := n] == map[a := n];
  }

  /** The server's answer to that lookup. */
  function AnswerFor(conf: ConfView, a: u32): Response {
    if a in conf.nodes then Response(KOK, KUPDATE_CACHE, a, conf.nodes[a].net, conf.nodes[a].path)
    else Registry.CodeOnly(Registry.KNODE_NOT_FOUND).(kind := KUPDATE_CACHE, addr := a)
  }

  lemma ServerAnswersLookup(w: World, conf: ConfView, b: u32, ip: seq<byte>, m: Message)
    requires Asked(w, conf, b, ip, m) && (m.to.node in conf.nodes ==> conf.nodes[m.to.node].addr == m.to.node)
    ensures var v := Next(w, ServerReads(0));
            && v.ok && v.d == w.d && v.requests == [] && v.replies == [InFlight(0, AnswerFor(conf, m.to.node))]
            && v.r == w.r && v.attempts == w.attempts && v.live == w.live && v.nextConn == w.nextConn
               && v.nextId == w.nextId
  {
  }

  function LookUp(m: Message): seq<Event> { [Route(m, true, true), ServerReads(0)] }

  lemma LookedUp(conf: ConfView, b: u32, net: NetAddress, m: Message)
    requires ConfOk(conf) && Hosts(conf, b, net)
    ensures var v := After(conf, StartUp(net) + LookUp(m)); var a := m.to.node;
            && v.ok && v.d == State(map[a := NodeView(false, Resolving, None, [Routed(0, m)], None)], map[], b, Some(0))
            && Serving(v.r, conf, b, net.ip) && v.requests == [] && v.replies == [InFlight(0, AnswerFor(conf, a))]
            && v.attempts == multiset{} && v.live == map[] && v.nextConn == 1 && v.nextId == 1
  {
    StartUpRegisters(conf, b, net);
    var w := After(conf, StartUp(net));
    AfterTwo(conf, StartUp(net), Route(m, true, true), ServerReads(0));
    OwnAddress(conf, m.to.node);
    hide After, Registered, Next, ConfOk;
    RouteAsks(w, conf, b, net.ip, m);
    ServerAnswersLookup(Next(w, Route(m, true, true)), conf, b, net.ip, m);
  }

  lemma OwnAddress(conf: ConfView, a: u32)
    requires ConfOk(conf)
    ensures a in conf.nodes ==> conf.nodes[a].addr == a
  {
  }

  /** One attempt is under way, to node a at k; q waits for it. */
  ghost predicate Attempting(w: World, a: u32, k: NetAddress, connecting: bool, q: seq<Routed>, n: nat) {
    && w.ok && w.d.nodes == map[a := NodeView(connecting, Resolved, Some(k), q, None)] && w.d.index == map[k := a]
    && w.attempts == multiset{k} && w.live == map[] && w.nextConn == 1 && w.nextId == n
  }

  function Resolves(m: Message): seq<Event> { LookUp(m) + [ReadReply(0)] }

  lemma AnswerStep(w: World, a: u32, b: u32, q: seq<Routed>, r: Response)
    requires w.ok && w.d == State(map[a := NodeView(false, Resolving, None, q, None)], map[], b, Some(0)) && q != []
    requires w.replies == [InFlight(0, r)] && r.kind == KUPDATE_CACHE && r.code == KOK && r.addr == a
    requires w.attempts == multiset{} && w.live == map[] && w.nextConn == 1 && w.nextId == 1
    ensures var v := Next(w, ReadReply(0));
            && Attempting(v, a, r.net, false, q, 1) && r.net in v.byReply
            && v.r == w.r && v.requests == w.requests && v.replies == [] && v.d.self == b && v.d.resolveConn == Some(0)
  {
    var n := NodeView(false, Resolved, Some(r.net), q, None);
    assert w.d.nodes[a := n] == map[a := n];
    assert multiset{} + multiset{r.net} == multiset{r.net};
  }

  lemma AnswerDials(conf: ConfView, b: u32, net: NetAddress, m: Message)
    requires ConfOk(conf) && Hosts(conf, b, net) && m.to.node in conf.nodes
    ensures var w := After(conf, StartUp(net) + Resolves(m)); var k := conf.nodes[m.to.node].net;
            && Attempting(w, m.to.node, k, false, [Routed(0, m)], 1) && k in w.byReply
            && Serving(w.r, conf, b, net.ip) && w.requests == [] && w.replies == []
            && w.d.self == b && w.d.resolveConn == Some(0)
  {
    var es := StartUp(net) + LookUp(m);
    assert StartUp(net) + Resolves(m) == es + [ReadReply(0)];
    hide After, Next, StartUp, LookUp, Hosts, ConfOk, Attempting, Serving;
    LookedUp(conf, b, net, m);
    AfterSnoc(conf, es, ReadReply(0));
    AnswerStep(After(conf, es), m.to.node, b, [Routed(0, m)], AnswerFor(conf, m.to.node));
  }

  // ---------------------------------------------------------------- the registration window

  lemma SecondRouteFails(w: World, a: u32, k: NetAddress, q: seq<Routed>, m: Message)
    requires Attempting(w, a, k, false, q, 1) && m.to.node == a && k in w.byReply
    ensures InWindow(w, a, k) && !Next(w, Route(m, true, true)).ok
  {
  }

  /** A daemon that starts up, looks a node up for one message and routes a second message to it before the
      connection attempt has an outcome fails the assertion in RegisterNode. */
  lemma WindowIsReachable(conf: ConfView, b: u32, net: NetAddress, m: Message)
    requires ConfOk(conf) && Hosts(conf, b, net) && m.to.node in conf.nodes
    ensures var w := After(conf, StartUp(net) + Resolves(m));
            w.ok && InWindow(w, m.to.node, conf.nodes[m.to.node].net) && !Next(w, Route(m, true, true)).ok
  {
    AnswerDials(conf, b, net, m);
    hide After, Next, InWindow, ConfOk, Hosts;
    SecondRouteFails(After(conf, StartUp(net) + Resolves(m)), m.to.node, conf.nodes[m.to.node].net, [Routed(0, m)], m);
  }

  // ---------------------------------------------------------------- two nodes with one network address

  lemma SecondAsks(w: World, a: u32, k: NetAddress, q: seq<Routed>, b: u32, m: Message)
    requires Attempting(w, a, k, false, q, 1) && m.to.node != a && w.d.resolveConn == Some(0) && w.d.self == b
    requires w.requests == [] && w.replies == []
    ensures var v := Next(w, Route(m, true, true)); var c := m.to.node;
            && v.ok && v.d.nodes == w.d.nodes[c := NodeView(false, Resolving, None, [Routed(1, m)], None)]
            && v.d.index == w.d.index && v.d.resolveConn == Some(0) && v.r == w.r && v.attempts == w.attempts
            && v.requests == [InFlight(0, Registry.Request(Registry.KLOOKUP_NODE, b, 0, c))] && v.replies == []
  {
    assert [] + [Routed(1, m)] == [Routed(1, m)];
    assert WithCached(NEW_NODE, Routed(1, m)).(state := Resolving)
           == NodeView(false, Resolving, None, [Routed(1, m)], None);
  }

  lemma ServerAnswersSecond(w: World, conf: ConfView, b: u32, ip: seq<byte>, c: u32)
    requires w.ok && Serving(w.r, conf, b, ip) && c in conf.nodes && conf.nodes[c].addr == c
    requires w.requests == [InFlight(0, Registry.Request(Registry.KLOOKUP_NODE, b, 0, c))] && w.replies == []
    ensures var v := Next(w, ServerReads(0));
            v.ok && v.d == w.d && v.attempts == w.attempts && v.replies == [InFlight(0, AnswerFor(conf, c))]
  {
  }

  lemma SharedFails(w: World, a: u32, k: NetAddress, c: u32, q: seq<Routed>, r: Response)
    requires w.ok && a != c && a in w.d.nodes && w.d.nodes[a].net == Some(k) && k in w.d.index
             && w.attempts == multiset{k}
    requires c in w.d.nodes && w.d.nodes[c] == NodeView(false, Resolving, None, q, None) && q != []
    requires w.d.resolveConn == Some(0) && w.replies == [InFlight(0, r)]
    requires r.kind == KUPDATE_CACHE && r.code == KOK && r.addr == c && r.net == k
    ensures Registers(w, ReadReply(0), c, k) && Shared(w, c, k) && !Next(w, ReadReply(0)).ok
  {
  }

  /** Two configured nodes with one network address: looking up the second while the first is being connected to
      fails the assertion in RegisterNode. */
  lemma SharedIsReachable(conf: ConfView, b: u32, net: NetAddress, m: Message, o: Message)
    requires ConfOk(conf) && Hosts(conf, b, net) && m.to.node in conf.nodes && o.to.node in conf.nodes
    requires m.to.node != o.to.node && conf.nodes[m.to.node].net == conf.nodes[o.to.node].net
    ensures var w := After(conf, StartUp(net) + Resolves(m) + LookUp(o)); var c := o.to.node;
            && w.ok && Registers(w, ReadReply(0), c, conf.nodes[c].net) && Shared(w, c, conf.nodes[c].net)
            && !Next(w, ReadReply(0)).ok
  {
    var es, a, c, k := StartUp(net) + Resolves(m), m.to.node, o.to.node, conf.nodes[o.to.node].net;
    hide After, Next, StartUp, Resolves, Hosts, ConfOk, Serving, Registers, Shared;
    AnswerDials(conf, b, net, m);
    OwnAddress(conf, c);
    AfterTwo(conf, es, Route(o, true, true), ServerReads(0));
    var u := Next(After(conf, es), Route(o, true, true));
    SecondAsks(After(conf, es), a, k, [Routed(0, m)], b, o);
    ServerAnswersSecond(u, conf, b, net.ip, c);
    SharedFails(Next(u, ServerReads(0)), a, k, c, [Routed(1, o)], AnswerFor(conf, c));
  }

  // ---------------------------------------------------------------- a connection that does not take the cache

  lemma RefusedFlushFails(w: World, a: u32, k: NetAddress, q: seq<Routed>)
    requires Attempting(w, a, k, false, q, 1) && q != []
    ensures var e := ConnectDone(k, n => false); FlushFails(w, e) && !Next(w, e).ok
  {
  }

  /** A first connection that refuses the first write fails the assertion in SetConnection. */
  lemma FlushFailureIsReachable(conf: ConfView, b: u32, net: NetAddress, m: Message)
    requires ConfOk(conf) && Hosts(conf, b, net) && m.to.node in conf.nodes
    ensures var w := After(conf, StartUp(net) + Resolves(m));
            var e := ConnectDone(conf.nodes[m.to.node].net, n => false);
            w.ok && FlushFails(w, e) && !Next(w, e).ok
  {
    AnswerDials(conf, b, net, m);
    hide After, Next, FlushFails, ConfOk, Hosts;
    RefusedFlushFails(After(conf, StartUp(net) + Resolves(m)), m.to.node, conf.nodes[m.to.node].net, [Routed(0, m)]);
  }

  // ---------------------------------------------------------------- a second registration

  lemma SecondInitFails(w: World, conf: ConfView, b: u32, net: NetAddress)
    requires Registered(w, conf, b, net.ip) && Hosts(conf, b, net)
    ensures var u := Next(Next(w, ResolveDown), ResolveUp(net.port, true));
            var v := Next(u, ServerOther(Registry.NewConnection(Registry.Mine(1), net.ip)));
            v.ok && RegistrationFails(v, ServerReads(0)) && !Next(v, ServerReads(0)).ok
  {
    hide Create;
    var u := Next(Next(w, ResolveDown), ResolveUp(net.port, true));
    var init := Registry.Request(Registry.KINITIALIZE_SELF, 0, net.port, 0);
    assert u.requests == [InFlight(1, init)] && u.r == w.r && u.ok && u.nextConn == 2;
  }

  /** A daemon whose connection to the resolve server breaks and is replaced before the server notices fails the
      server's assertion when it registers again. */
  lemma RegistrationFailureIsReachable(conf: ConfView, b: u32, net: NetAddress)
    requires ConfOk(conf) && Hosts(conf, b, net)
    ensures var v := After(conf, StartUp(net) + [ResolveDown, ResolveUp(net.port, true)]
                                 + [ServerOther(Registry.NewConnection(Registry.Mine(1), net.ip))]);
            v.ok && RegistrationFails(v, ServerReads(0)) && !Next(v, ServerReads(0)).ok
  {
    StartUpRegisters(conf, b, net);
    hide After, Next, Registered, RegistrationFails, ConfOk, Hosts;
    AfterTwo(conf, StartUp(net), ResolveDown, ResolveUp(net.port, true));
    AfterSnoc(conf, StartUp(net) + [ResolveDown, ResolveUp(net.port, true)],
              ServerOther(Registry.NewConnection(Registry.Mine(1), net.ip)));
    SecondInitFails(After(conf, StartUp(net)), conf, b, net);
  }

  /** The old connection is gone at both ends. */
  ghost predicate Forgotten(w: World, conf: ConfView, b: u32) {
    && w.ok && w.d == State(map[], map[], b, None) && w.r.conf == conf && w.r.seen == {Registry.Mine(0)}
    && w.r.ips == map[] && w.r.contexts == map[] && w.r.registered == map[]
    && w.requests == [] && w.replies == [] && w.nextConn == 1
  }

  lemma ClosingForgets(w: World, conf: ConfView, b: u32, ip: seq<byte>)
    requires Registered(w, conf, b, ip)
    ensures Forgotten(Next(Next(w, ServerOther(Registry.ClosedByPeer(Registry.Mine(0)))), ResolveDown), conf, b)
  {
    var c := Registry.Mine(0);
    assert w.r.ips - {c} == map[] && w.r.contexts - {c} == map[] && w.r.registered - {b} == map[];
  }

  ghost predicate Returning(w: World, conf: ConfView, b: u32, net: NetAddress) {
    && w.ok && w.d == State(map[], map[], b, Some(1)) && w.r.conf == conf && w.replies == []
    && w.r.ips == map[Registry.Mine(1) := net.ip] && w.r.registered == map[]
    && Registry.Mine(1) in w.r.contexts && w.r.contexts[Registry.Mine(1)].Timer?
    && w.requests == [InFlight(1, Registry.Request(Registry.KINITIALIZE_SELF, 0, net.port, 0))]
  }

  lemma NewConnectionGreets(w: World, conf: ConfView, b: u32, net: NetAddress)
    requires Forgotten(w, conf, b)
    ensures Returning(Next(Next(w, ResolveUp(net.port, true)),
                           ServerOther(Registry.NewConnection(Registry.Mine(1), net.ip))), conf, b, net)
  {
  }

  lemma ServerTakesBack(w: World, conf: ConfView, b: u32, net: NetAddress)
    requires Returning(w, conf, b, net) && Hosts(conf, b, net)
    ensures var v := Next(w, ServerReads(0));
            && v.ok && v.d == w.d && v.r.registered == map[b := Registry.Mine(1)]
            && v.replies == [InFlight(1, Response(KOK, KUPDATE_SELF, b, net, conf.nodes[b].path))]
  {
    hide Create;
  }

  lemma LearnsAgain(w: World, conf: ConfView, b: u32, net: NetAddress)
    requires w.ok && w.d == State(map[], map[], b, Some(1)) && Hosts(conf, b, net)
    requires w.replies == [InFlight(1, Response(KOK, KUPDATE_SELF, b, net, conf.nodes[b].path))]
    ensures var v := Next(w, ReadReply(0)); v.ok && v.d == w.d && v.r == w.r
  {
    hide Create;
  }

  function Reconnects(net: NetAddress): seq<Event> {
    [ServerOther(Registry.ClosedByPeer(Registry.Mine(0))), ResolveDown, ResolveUp(net.port, true),
     ServerOther(Registry.NewConnection(Registry.Mine(1), net.ip))]
  }

  /** Once the server has seen the old connection close, the daemon registers again over a new one,
      and nothing fails. */
  lemma RejoinIsReachable(conf: ConfView, b: u32, net: NetAddress)
    requires ConfOk(conf) && Hosts(conf, b, net)
    ensures var w := After(conf, StartUp(net) + Reconnects(net) + [ServerReads(0), ReadReply(0)]);
            && w.ok && w.d.self == b && w.d.resolveConn == Some(1)
            && w.r.registered == map[b := Registry.Mine(1)]
  {
    StartUpRegisters(conf, b, net);
    var es := Reconnects(net);
    assert StartUp(net) + es == StartUp(net) + [es[0], es[1], es[2], es[3]];
    hide After, Next, Registered, ConfOk, Hosts, StartUp, Reconnects;
    AfterFour(conf, StartUp(net), es[0], es[1], es[2], es[3]);
    AfterTwo(conf, StartUp(net) + es, ServerReads(0), ReadReply(0));
    ClosingForgets(After(conf, StartUp(net)), conf, b, net.ip);
    var w := Next(Next(After(conf, StartUp(net)), es[0]), es[1]);
    NewConnectionGreets(w, conf, b, net);
    ServerTakesBack(After(conf, StartUp(net) + es), conf, b, net);
    LearnsAgain(Next(After(conf, StartUp(net) + es), ServerReads(0)), conf, b, net);
  }

  // ---------------------------------------------------------------- a lost message

  /** Node a is resolved and has neither connection nor attempt. */
  ghost predicate Idle(w: World, a: u32, k: NetAddress, q: seq<Routed>) {
    && w.ok && w.d.nodes == map[a := NodeView(false, Resolved, Some(k), q, None)] && w.d.index == map[]
    && w.attempts == multiset{} && w.live == map[] && w.nextConn == 1 && w.nextId == 1
  }

  lemma FailIdles(w: World, a: u32, k: NetAddress, q: seq<Routed>)
    requires Attempting(w, a, k, false, q, 1)
    ensures Idle(Next(w, ConnectFail(k)), a, k, q)
  {
    assert multiset{k} - multiset{k} == multiset{};
    assert map[k := a] - {k} == map[];
  }

  lemma IdleLoses(w: World, a: u32, k: NetAddress, q: seq<Routed>, m: Message)
    requires Idle(w, a, k, q) && m.to.node == a
    ensures Loses(w, Route(m, true, true), a) && Attempting(Next(w, Route(m, true, true)), a, k, true, q, 2)
  {
    var n := NodeView(true, Resolved, Some(k), q, None);
    assert w.d.nodes[a := n] == map[a := n];
    assert multiset{} + multiset{k} == multiset{k};
  }

  lemma FailThenRoute(w: World, a: u32, k: NetAddress, q: seq<Routed>, m: Message)
    requires Attempting(w, a, k, false, q, 1) && m.to.node == a
    ensures var u := Next(w, ConnectFail(k));
            && Loses(u, Route(m, true, true), a) && u.nextId == 1
            && Attempting(Next(u, Route(m, true, true)), a, k, true, q, 2)
  {
    hide Next, Attempting, Loses;
    FailIdles(w, a, k, q);
    IdleLoses(Next(w, ConnectFail(k)), a, k, q, m);
  }

  function Redials(m: Message, k: NetAddress): seq<Event> { Resolves(m) + [ConnectFail(k), Route(m, true, true)] }

  lemma RedialAttempts(conf: ConfView, b: u32, net: NetAddress, m: Message)
    requires ConfOk(conf) && Hosts(conf, b, net) && m.to.node in conf.nodes
    ensures var a := m.to.node; var k := conf.nodes[a].net;
            var es := StartUp(net) + Resolves(m);
            && Loses(Next(After(conf, es), ConnectFail(k)), Route(m, true, true), a)
            && Next(After(conf, es), ConnectFail(k)).nextId == 1
            && StartUp(net) + Redials(m, k) == es + [ConnectFail(k), Route(m, true, true)]
            && Attempting(After(conf, StartUp(net) + Redials(m, k)), a, k, true, [Routed(0, m)], 2)
  {
    var a, k, es := m.to.node, conf.nodes[m.to.node].net, StartUp(net) + Resolves(m);
    hide After, Next, Loses, Attempting, ConfOk, Hosts, StartUp, Resolves, Redials;
    AnswerDials(conf, b, net, m);
    FailThenRoute(After(conf, es), a, k, [Routed(0, m)], m);
    AfterTwo(conf, es, ConnectFail(k), Route(m, true, true));
    RedialsLast(net, m, k);
  }

  lemma RedialsLast(net: NetAddress, m: Message, k: NetAddress)
    ensures StartUp(net) + Redials(m, k) == (StartUp(net) + Resolves(m)) + [ConnectFail(k), Route(m, true, true)]
  {
    hide StartUp, Resolves;
  }

  /** A daemon whose first attempt fails loses the next message for that node: it starts a new attempt and is gone,
      while the message before it still waits. No assertion fails. */
  lemma LossIsReachable(conf: ConfView, b: u32, net: NetAddress, m: Message)
    requires ConfOk(conf) && Hosts(conf, b, net) && m.to.node in conf.nodes
    ensures var a := m.to.node; var w := After(conf, StartUp(net) + Redials(m, conf.nodes[a].net));
            w.ok && Routed(1, m) in AccountOf(w, a).lost && QueueOf(w.d, a) == [Routed(0, m)]
  {
    var a, k, es := m.to.node, conf.nodes[m.to.node].net, StartUp(net) + Resolves(m);
    RedialAttempts(conf, b, net, m);
    hide After, Next, Loses, AccountOf, ConfOk, Hosts;
    AfterTwo(conf, es, ConnectFail(k), Route(m, true, true));
    AccountStep(Next(After(conf, es), ConnectFail(k)), Route(m, true, true), a);
  }

  // ---------------------------------------------------------------- nodes that are given up

  /** An open connection to a, with nothing cached. */
  ghost predicate Linked(w: World, a: u32, k: NetAddress, connecting: bool) {
    && w.ok && w.d.nodes == map[a := NodeView(connecting, Resolved, Some(k), [], Some(1))] && w.live == map[1 := k]
  }

  lemma TakenWhole(n: nat)
    ensures Accepted(i => true, n) == n
  {
    if n > 0 { TakenWhole(n - 1); }
  }

  lemma DoneLinks(w: World, a: u32, k: NetAddress, connecting: bool, q: seq<Routed>, n: nat)
    requires Attempting(w, a, k, connecting, q, n)
    ensures Linked(Next(w, ConnectDone(k, i => true)), a, k, connecting)
  {
    hide Accepted, WrittenLog;
    TakenWhole(|q|);
    assert q[|q|..] == [];
    assert FlushDone(w.d.nodes[a], i => true);
  }

  /** After a failed first attempt, a second one started by a message, and a break of its connection, a is given up. */
  lemma BreakIsReachable(conf: ConfView, b: u32, net: NetAddress, m: Message)
    requires ConfOk(conf) && Hosts(conf, b, net) && m.to.node in conf.nodes
    ensures var a := m.to.node; var k := conf.nodes[a].net;
            var w := After(conf, StartUp(net) + Redials(m, k) + [ConnectDone(k, i => true)]);
            && w.ok && a in w.d.nodes && w.d.nodes[a].conn == Some(1) && w.d.nodes[a].connecting
            && GivenUp(Next(w, Disconnect(1)), a)
  {
    var a, k, es := m.to.node, conf.nodes[m.to.node].net, StartUp(net) + Redials(m, conf.nodes[m.to.node].net);
    RedialAttempts(conf, b, net, m);
    hide After, Next, Attempting, GivenUp, ConfOk, Hosts;
    DoneLinks(After(conf, es), a, k, true, [Routed(0, m)], 2);
    AfterSnoc(conf, es, ConnectDone(k, i => true));
    BrokenConnectionGivesUp(conf, es + [ConnectDone(k, i => true)], a, 1);
  }

  /** A node that is not configured is given up by the answer to its only lookup. */
  lemma FailedLookupIsReachable(conf: ConfView, b: u32, net: NetAddress, m: Message)
    requires ConfOk(conf) && Hosts(conf, b, net) && m.to.node !in conf.nodes
    ensures var w := After(conf, StartUp(net) + LookUp(m));
            && w.ok && IsNext(w.replies, 0) && w.replies[0].item.code == Registry.KNODE_NOT_FOUND
            && GivenUp(Next(w, ReadReply(0)), m.to.node)
  {
    LookedUp(conf, b, net, m);
    hide After, Next, GivenUp, ConfOk, Hosts;
    FailedLookupGivesUp(conf, StartUp(net) + LookUp(m), 0);
  }

  /** A configured node is given up when the connection breaks before its answer is read. */
  lemma LostLookupIsReachable(conf: ConfView, b: u32, net: NetAddress, m: Message)
    requires ConfOk(conf) && Hosts(conf, b, net)
    ensures var w := After(conf, StartUp(net) + LookUp(m));
            w.ok && Is(w, m.to.node, Resolving) && GivenUp(Next(w, ResolveDown), m.to.node)
  {
    LookedUp(conf, b, net, m);
    hide After, Next, GivenUp, ConfOk, Hosts;
    LostLookupGivesUp(conf, StartUp(net) + LookUp(m), m.to.node);
  }

  // ---------------------------------------------------------------- a message that jumps the queue

  /** A refused write on the first connection lets the next message overtake. */
  lemma JumpIsReachable(conf: ConfView, b: u32, net: NetAddress, m: Message)
    requires ConfOk(conf) && Hosts(conf, b, net) && m.to.node in conf.nodes
    ensures var a := m.to.node; var k := conf.nodes[a].net;
            var es := StartUp(net) + Resolves(m) + [ConnectDone(k, i => true)] + [Route(m, false, true)];
            && After(conf, es).ok && Jumps(After(conf, es), Route(m, true, true), a)
            && !OrderedThrough(conf, es + [Route(m, true, true)], |es| + 1, a)
  {
    var a, k, front := m.to.node, conf.nodes[m.to.node].net, StartUp(net) + Resolves(m);
    AnswerDials(conf, b, net, m);
    hide After, Next, Attempting, Jumps, Ordered, ConfOk, Hosts;
    DoneLinks(After(conf, front), a, k, false, [Routed(0, m)], 1);
    var es := front + [ConnectDone(k, i => true)];
    AfterSnoc(conf, front, ConnectDone(k, i => true));
    AfterSnoc(conf, es, Route(m, false, true));
    Reachable(conf, es);
    RefusedWriteJumps(After(conf, es), a, m);
    var all := es + [Route(m, false, true)] + [Route(m, true, true)];
    assert all[..|es| + 1] == es + [Route(m, false, true)] && all[|es| + 1] == Route(m, true, true);
    OrderedExactly(conf, all, |all|, a);
    JumpsRunning(After(conf, es + [Route(m, false, true)]), Route(m, true, true), a);
  }

  lemma JumpsRunning(w: World, e: Event, a: u32)
    requires Jumps(w, e, a)
    ensures w.ok
  {
  }
}
