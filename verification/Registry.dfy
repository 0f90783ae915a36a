/** The resolve server: connections, their contexts and kick-off timers, registration and lookup. */
module Registry {
  import opened Bytes
  import opened Nodes
  import opened Conf
  import opened Daemon

  /** A connection as the resolve server sees it; the daemon under study owns the first kind. */
  datatype Conn = Mine(n: nat) | Theirs(n: nat)

  type TimerId = nat

  /** A connection's context slot. */
  datatype Context = Timer(id: TimerId) | NodeAddr(addr: u32)

  const KINITIALIZE_SELF := 1
  const KLOOKUP_NODE := 2
  const KNODE_NOT_FOUND := -201

  datatype Request = Request(kind: int, self: u32, port: int, peer: u32)

  /** conf_, the open connections with peer ip and context, connections_, and the pending timers of the loop. */
  datatype Server = Server(conf: ConfView, ips: map<Conn, seq<byte>>, contexts: map<Conn, Context>,
                           registered: map<u32, Conn>, timers: map<TimerId, Conn>, nextTimer: nat, seen: set<Conn>)

  function Boot(conf: ConfView): Server { Server(conf, map[], map[], map[], map[], 0, {}) }

  /** The server after an event, the reply it wrote, and whether every assertion on the way held. */
  datatype Reaction = Reaction(server: Server, reply: Option<Response>, ok: bool)

  /** OnNewConnection: start the timer and keep its id as the context. */
  function Accept(s: Server, c: Conn, ip: seq<byte>): Server {
    s.(ips := s.ips[c := ip], contexts := s.contexts[c := Timer(s.nextTimer)],
       timers := s.timers[s.nextTimer := c], nextTimer := s.nextTimer + 1, seen := s.seen + {c})
  }

  /** Closing a connection runs OnClose in the same step. */
  function Drop(s: Server, c: Conn): Reaction {
    if c !in s.contexts then Reaction(s, None, true)
    else
      var t := s.(contexts := s.contexts - {c}, ips := s.ips - {c});
      match s.contexts[c]
      case Timer(_) => Reaction(t, None, true)
      case NodeAddr(a) =>
        if a in s.registered then Reaction(t.(registered := s.registered - {a}), None, true)
        else Reaction(t, None, false)
  }

  /** KickOffNode, when timer t expires. */
  function Expire(s: Server, t: TimerId): Reaction {
    if t !in s.timers then Reaction(s, None, true)
    else Drop(s.(timers := s.timers - {t}), s.timers[t])
  }

  function CodeOnly(code: int): Response { Response(code, 0, 0, NetAddress([], 0), []) }

  /** HandleNodeInit, followed by the write of the reply and, on failure, the close. */
  function Register(s: Server, c: Conn, req: Request): Reaction
    requires c in s.ips
  {
    match ByNetAddress(s.conf, NetAddress(s.ips[c], req.port))
    case None => Drop(s, c).(reply := Some(CodeOnly(KNODE_NOT_FOUND)))
    case Some(node) =>
      if node.addr in s.registered then Reaction(s, None, false)
      else
        var t := s.(registered := s.registered[node.addr := c]);
        if c !in s.contexts || !s.contexts[c].Timer? then Reaction(t, None, false)
        else
          Reaction(t.(timers := s.timers - {s.contexts[c].id}, contexts := s.contexts[c := NodeAddr(node.addr)]),
                   Some(Response(KOK, KUPDATE_SELF, node.addr, NetAddress(s.ips[c], req.port), node.path)), true)
  }

  /** HandleNodeLookup; a refused request is answered by closing the connection. */
  function Answer(s: Server, c: Conn, req: Request): Reaction {
    if c !in s.contexts then Reaction(s, None, false)
    else if req.self !in s.registered then Drop(s, c)
    else
      var holder := s.registered[req.self];
      if holder !in s.contexts || !s.contexts[holder].NodeAddr? then Reaction(s, None, false)
      else if s.contexts[holder].addr != req.self then Drop(s, c)
      else
        match ByAddress(s.conf, req.peer)
        case None => Reaction(s, Some(CodeOnly(KNODE_NOT_FOUND).(kind := KUPDATE_CACHE, addr := req.peer)), true)
        case Some(node) =>
          if node.addr != req.peer then Reaction(s, None, false)
          else Reaction(s, Some(Response(KOK, KUPDATE_CACHE, node.addr, node.net, node.path)), true)
  }

  function Receive(s: Server, c: Conn, req: Request): Reaction
    requires c in s.ips
  {
    if req.kind == KINITIALIZE_SELF then Register(s, c, req)
    else if req.kind == KLOOKUP_NODE then Answer(s, c, req)
    else Drop(s, c)
  }

  // ---------------------------------------------------------------- runs

  datatype Event =
    | NewConnection(c: Conn, ip: seq<byte>)
    | Message(c: Conn, req: Request)
    | ClosedByPeer(c: Conn)
    | TimerExpires(t: TimerId)

  /** One event; events that cannot happen leave the server alone. */
  function Next(s: Server, e: Event): Reaction {
    match e
    case NewConnection(c, ip) => Reaction(if c in s.seen then s else Accept(s, c, ip), None, true)
    case Message(c, req) => if c in s.ips then Receive(s, c, req) else Reaction(s, None, true)
    case ClosedByPeer(c) => Drop(s, c)
    case TimerExpires(t) => Expire(s, t)
  }

  /** connections_ and the contexts describe the same registrations, and exactly the open connections without one
      still have their own timer running. */
  ghost predicate Coherent(s: Server) {
    && ConfOk(s.conf)
    && s.ips.Keys == s.contexts.Keys
    && (forall c :: c in s.contexts ==> c in s.seen)
    && (forall a :: a in s.registered ==> a in s.conf.nodes)
    && (forall a :: a in s.registered ==> s.registered[a] in s.contexts && s.contexts[s.registered[a]] == NodeAddr(a))
    && (forall c :: c in s.contexts && s.contexts[c].NodeAddr? ==>
          s.contexts[c].addr in s.registered && s.registered[s.contexts[c].addr] == c)
    && (forall c :: c in s.contexts && s.contexts[c].Timer? ==>
          s.contexts[c].id in s.timers && s.timers[s.contexts[c].id] == c)
    && (forall t :: t in s.timers ==> t < s.nextTimer && s.timers[t] in s.seen)
    && (forall t :: t in s.timers && s.timers[t] in s.contexts ==> s.contexts[s.timers[t]] == Timer(t))
  }

  lemma CloseCoherent(s: Server, c: Conn)
    requires Coherent(s)
    ensures Drop(s, c).ok && Coherent(Drop(s, c).server)
  {
  }

  lemma AcceptCoherent(s: Server, c: Conn, ip: seq<byte>)
    requires Coherent(s)
    ensures c !in s.seen ==> Coherent(Accept(s, c, ip))
  {
  }

  lemma TimerCoherent(s: Server, t: TimerId)
    requires Coherent(s)
    ensures Expire(s, t).ok && Coherent(Expire(s, t).server)
  {
    if t in s.timers {
      var c := s.timers[t];
      if c in s.contexts {
        var u := s.(timers := s.timers - {t});
        var r := Drop(u, c);
        assert r.server == u.(contexts := s.contexts - {c}, ips := s.ips - {c});
      }
    }
  }

  /** The registration assertion's condition: the node is registered, or this connection already is. */
  ghost predicate InitConflicts(s: Server, c: Conn, req: Request)
    requires c in s.ips
  {
    var node := ByNetAddress(s.conf, NetAddress(s.ips[c], req.port));
    node.Some? && (node.value.addr in s.registered || (c in s.contexts && s.contexts[c].NodeAddr?))
  }

  ghost predicate Conflicts(s: Server, c: Conn, req: Request) {
    c in s.ips && req.kind == KINITIALIZE_SELF && InitConflicts(s, c, req)
  }

  lemma InitCoherent(s: Server, c: Conn, req: Request)
    requires Coherent(s) && c in s.ips
    ensures Register(s, c, req).ok <==> !InitConflicts(s, c, req)
    ensures Register(s, c, req).ok ==> Coherent(Register(s, c, req).server)
  {
    if Register(s, c, req).ok { RegisterKeeps(s, c, req); }
    if ByNetAddress(s.conf, NetAddress(s.ips[c], req.port)).None? { CloseCoherent(s, c); }
    assert Register(s, c, req).ok <==> !InitConflicts(s, c, req);
    hide Coherent;
  }

  lemma RegisterKeeps(s: Server, c: Conn, req: Request)
    requires Coherent(s) && c in s.ips && Register(s, c, req).ok
    ensures Coherent(Register(s, c, req).server)
  {
    if ByNetAddress(s.conf, NetAddress(s.ips[c], req.port)).None? { CloseCoherent(s, c); }
  }

  lemma LookupCoherent(s: Server, c: Conn, req: Request)
    requires Coherent(s) && c in s.ips
    ensures Answer(s, c, req).ok && Coherent(Answer(s, c, req).server)
    ensures req.self in s.registered ==> s.contexts[s.registered[req.self]].addr == req.self
  {
    CloseCoherent(s, c);
  }

  /** The only assertion of the resolve server that any run can reach is the registration one, and exactly when a
      request asks for a node that is registered already or comes from a connection that is. */
  lemma NextCoherent(s: Server, e: Event)
    requires Coherent(s)
    ensures Next(s, e).ok <==> !(e.Message? && Conflicts(s, e.c, e.req))
    ensures Next(s, e).ok ==> Coherent(Next(s, e).server)
  {
    hide Coherent, Register, Answer, Drop, Expire, Accept;
    match e
    case NewConnection(c, ip) => AcceptCoherent(s, c, ip);
    case Message(c, req) =>
      if c in s.ips {
        InitCoherent(s, c, req);
        LookupCoherent(s, c, req);
        CloseCoherent(s, c);
      }
    case ClosedByPeer(c) => CloseCoherent(s, c);
    case TimerExpires(t) => TimerCoherent(s, t);
  }

  lemma ConfFixed(s: Server, e: Event)
    ensures Next(s, e).server.conf == s.conf
  {
  }

  /** The server after a run, up to its first failed assertion. */
  function After(conf: ConfView, es: seq<Event>): Reaction {
    if es == [] then Reaction(Boot(conf), None, true)
    else
      var before := After(conf, es[..|es| - 1]);
      if before.ok then Next(before.server, es[|es| - 1]) else before
  }

  lemma {:induction false} AfterCoherent(conf: ConfView, es: seq<Event>)
    requires ConfOk(conf)
    ensures After(conf, es).ok ==> Coherent(After(conf, es).server)
    ensures After(conf, es).server.conf == conf
  {
    if es != [] {
      hide Coherent, Next;
      AfterCoherent(conf, es[..|es| - 1]);
      var before := After(conf, es[..|es| - 1]);
      if before.ok { NextCoherent(before.server, es[|es| - 1]); ConfFixed(before.server, es[|es| - 1]); }
    }
  }

  /** In every run a registered connection outlives every timer. */
  lemma NeverKicksOffRegistered(conf: ConfView, es: seq<Event>, t: TimerId, a: u32)
    requires ConfOk(conf)
    requires After(conf, es).ok && a in After(conf, es).server.registered
    ensures var s := After(conf, es).server; var r := Expire(s, t);
            && r.ok && a in r.server.registered && r.server.registered[a] == s.registered[a]
            && s.registered[a] in r.server.contexts
  {
    AfterCoherent(conf, es);
    hide After;
    var s := After(conf, es).server;
    if t in s.timers && s.timers[t] in s.contexts {
      assert s.contexts[s.timers[t]] == Timer(t);
    }
  }

  /** Replies about other nodes come only from lookups, name the node asked for, and carry its configured address. */
  lemma LookupReplies(s: Server, e: Event)
    requires Coherent(s)
    ensures var r := Next(s, e).reply; r.Some? && r.value.kind == KUPDATE_CACHE ==>
              && e.Message? && e.req.kind == KLOOKUP_NODE && r.value.addr == e.req.peer
              && (r.value.code == KOK <==> e.req.peer in s.conf.nodes)
              && (e.req.peer in s.conf.nodes ==> r.value.net == s.conf.nodes[e.req.peer].net)
  {
  }

  // ---------------------------------------------------------------- who closes, who registers, who is answered

  /** The connection an event closes: by its peer, by its own timer, or for an init request from an address that is
      not configured, a lookup by a node that is not registered, or a request of no known kind. */
  function ClosedBy(s: Server, e: Event): Option<Conn> {
    match e
    case NewConnection(_, _) => None
    case ClosedByPeer(c) => if c in s.ips then Some(c) else None
    case TimerExpires(t) => if t in s.timers && s.timers[t] in s.ips then Some(s.timers[t]) else None
    case Message(c, req) =>
      if c !in s.ips then None
      else if req.kind == KINITIALIZE_SELF then
        if NetAddress(s.ips[c], req.port) in s.conf.byNet then None else Some(c)
      else if req.kind == KLOOKUP_NODE && req.self in s.registered then None
      else Some(c)
  }

  /** The node an event registers. */
  function RegisteredBy(s: Server, e: Event): Option<u32> {
    if e.Message? && e.c in s.ips && e.req.kind == KINITIALIZE_SELF
        && NetAddress(s.ips[e.c], e.req.port) in s.conf.byNet
    then Some(s.conf.byNet[NetAddress(s.ips[e.c], e.req.port)]) else None
  }

  /** A closed connection is gone with its registration, and nothing else is. */
  lemma DropCloses(s: Server, c: Conn)
    requires Coherent(s) && c in s.ips
    ensures var t := Drop(s, c).server;
            && t.ips == s.ips - {c} && t.contexts == s.contexts - {c}
            && (forall a :: a in t.registered <==> a in s.registered && s.registered[a] != c)
            && (forall a :: a in t.registered ==> t.registered[a] == s.registered[a])
            && t.timers == s.timers && t.nextTimer == s.nextTimer && t.seen == s.seen && t.conf == s.conf
  {
    CloseCoherent(s, c);
  }

  /** Which requests are refused, and what an accepted one does. */
  lemma RefusedDrops(s: Server, c: Conn, req: Request)
    requires Coherent(s) && c in s.ips && ClosedBy(s, Message(c, req)).Some?
    ensures Next(s, Message(c, req)).server == Drop(s, c).server
  {
    hide Drop;
  }

  lemma AcceptedKeeps(s: Server, c: Conn, req: Request)
    requires Coherent(s) && c in s.ips && ClosedBy(s, Message(c, req)).None? && Next(s, Message(c, req)).ok
    ensures var t := Next(s, Message(c, req)).server;
            && t.ips == s.ips
            && (forall a :: a in s.registered ==> a in t.registered && t.registered[a] == s.registered[a])
            && (forall a :: a in t.registered && a !in s.registered <==> RegisteredBy(s, Message(c, req)) == Some(a))
            && (RegisteredBy(s, Message(c, req)).Some? ==> t.registered[RegisteredBy(s, Message(c, req)).value] == c)
  {
    hide Drop;
    if req.kind == KINITIALIZE_SELF { InitCoherent(s, c, req); } else { LookupCoherent(s, c, req); }
  }

  /** Connections come and go exactly as events open and close them. */
  lemma ConnectionsExactly(s: Server, e: Event)
    requires Coherent(s) && Next(s, e).ok
    ensures var t := Next(s, e).server;
            t.ips == if ClosedBy(s, e).Some? then s.ips - {ClosedBy(s, e).value}
                     else if e.NewConnection? && e.c !in s.seen then s.ips[e.c := e.ip] else s.ips
  {
    hide Receive;
    match e
    case NewConnection(_, _) =>
    case ClosedByPeer(_) =>
    case TimerExpires(_) =>
    case Message(c, req) =>
      if c in s.ips {
        if ClosedBy(s, e).Some? { RefusedDrops(s, c, req); DropCloses(s, c); } else { AcceptedKeeps(s, c, req); }
      }
  }

  /** A registration lasts exactly until its connection closes; only an init request makes one, for the node configured
      at the connection's address, and a connection that closes leaves none. */
  lemma RegistrationsExactly(s: Server, e: Event)
    requires Coherent(s) && Next(s, e).ok
    ensures var t := Next(s, e).server;
            && (forall a :: a in s.registered ==>
                  (a in t.registered <==> ClosedBy(s, e) != Some(s.registered[a]))
                  && (a in t.registered ==> t.registered[a] == s.registered[a]))
            && (forall a :: a in t.registered && a !in s.registered <==> RegisteredBy(s, e) == Some(a))
            && (RegisteredBy(s, e).Some? ==> t.registered[RegisteredBy(s, e).value] == e.c)
  {
    hide Receive;
    match e
    case NewConnection(_, _) =>
    case ClosedByPeer(c) => if c in s.ips { DropCloses(s, c); }
    case TimerExpires(_) =>
    case Message(c, req) =>
      if c in s.ips {
        if ClosedBy(s, e).Some? { RefusedDrops(s, c, req); DropCloses(s, c); } else { AcceptedKeeps(s, c, req); }
      }
  }

  /** A timer that expires closes its own connection unless that has registered or is gone, and is used up. */
  lemma TimersExactly(s: Server, t: TimerId)
    requires Coherent(s) && t in s.timers
    ensures var u := Next(s, TimerExpires(t)).server;
            && t !in u.timers && s.timers[t] !in u.ips
            && u.registered == s.registered
            && (forall c :: c in s.ips && c != s.timers[t] ==> c in u.ips)
  {
    TimerCoherent(s, t);
  }

  /** Who gets a reply, and what it says: an init request gets the configured node or not-found; a lookup is answered
      exactly when the asker is registered, with the configured node or not-found; nothing else gets one. */
  lemma RepliesExactly(s: Server, c: Conn, req: Request)
    requires Coherent(s) && c in s.ips && Next(s, Message(c, req)).ok
    ensures var k := NetAddress(s.ips[c], req.port);
            Next(s, Message(c, req)).reply ==
            if req.kind == KINITIALIZE_SELF then
              if k in s.conf.byNet then
                Some(Response(KOK, KUPDATE_SELF, s.conf.byNet[k], k, s.conf.nodes[s.conf.byNet[k]].path))
              else Some(Response(KNODE_NOT_FOUND, 0, 0, NetAddress([], 0), []))
            else if req.kind == KLOOKUP_NODE && req.self in s.registered then
              if req.peer in s.conf.nodes then
                Some(Response(KOK, KUPDATE_CACHE, req.peer, s.conf.nodes[req.peer].net, s.conf.nodes[req.peer].path))
              else Some(Response(KNODE_NOT_FOUND, KUPDATE_CACHE, req.peer, NetAddress([], 0), []))
            else None
  {
    InitCoherent(s, c, req);
    LookupCoherent(s, c, req);
    CloseCoherent(s, c);
    hide Coherent;
    assert ConfOk(s.conf) by { ConfIsOk(s); }
  }

  lemma ConfIsOk(s: Server)
    requires Coherent(s)
    ensures ConfOk(s.conf)
  {
  }

  lemma AfterSnoc(conf: ConfView, es: seq<Event>, e: Event)
    requires After(conf, es).ok
    ensures After(conf, es + [e]) == Next(After(conf, es).server, e)
  {
    hide Next;
    assert (es + [e])[..|es|] == es;
  }

  /** In every run: once the server has seen a daemon's connection close, the daemon registers again over a new one,
      with a reply that says so and no failed assertion. */
  lemma ClosedMayRejoin(conf: ConfView, es: seq<Event>, a: u32, c: Conn, d: Conn, ip: seq<byte>, port: int)
    requires ConfOk(conf) && After(conf, es).ok && d !in After(conf, es).server.seen
    requires a in After(conf, es).server.registered && After(conf, es).server.registered[a] == c
    requires NetAddress(ip, port) in conf.byNet && conf.byNet[NetAddress(ip, port)] == a
    ensures var r := After(conf, es + [ClosedByPeer(c)] + [NewConnection(d, ip)]
                                 + [Message(d, Request(KINITIALIZE_SELF, 0, port, 0))]);
            && r.ok && a in r.server.registered && r.server.registered[a] == d && c !in r.server.ips
            && r.reply == Some(Response(KOK, KUPDATE_SELF, a, NetAddress(ip, port), conf.nodes[a].path))
  {
    AfterCoherent(conf, es);
    var s, req := After(conf, es).server, Request(KINITIALIZE_SELF, 0, port, 0);
    hide After;
    var e0, e1, e2 := ClosedByPeer(c), NewConnection(d, ip), Message(d, req);
    var t := Next(s, e0).server;
    assert c in s.seen && c in s.ips;
    Rejoin(s, a, c, d, ip, port);
    AfterSnoc(conf, es, e0);
    AfterSnoc(conf, es + [e0], e1);
    AfterSnoc(conf, es + [e0] + [e1], e2);
  }

  lemma Rejoin(s: Server, a: u32, c: Conn, d: Conn, ip: seq<byte>, port: int)
    requires Coherent(s) && d !in s.seen && a in s.registered && s.registered[a] == c
    requires NetAddress(ip, port) in s.conf.byNet && s.conf.byNet[NetAddress(ip, port)] == a
    ensures var t := Next(s, ClosedByPeer(c));
            var u := Next(t.server, NewConnection(d, ip));
            var r := Next(u.server, Message(d, Request(KINITIALIZE_SELF, 0, port, 0)));
            && t.ok && u.ok && r.ok && a in r.server.registered && r.server.registered[a] == d && c !in r.server.ips
            && r.reply == Some(Response(KOK, KUPDATE_SELF, a, NetAddress(ip, port), s.conf.nodes[a].path))
  {
    var req := Request(KINITIALIZE_SELF, 0, port, 0);
    assert c in s.ips && c in s.seen;
    hide Next, Coherent, InitConflicts;
    var e0, e1, e2 := ClosedByPeer(c), NewConnection(d, ip), Message(d, req);
    NextCoherent(s, e0);
    var t := Next(s, e0).server;
    ConnectionsExactly(s, e0);
    RegistrationsExactly(s, e0);
    ConfFixed(s, e0);
    SeenStays(s, e0);
    NextCoherent(t, e1);
    var u := Next(t, e1).server;
    ConnectionsExactly(t, e1);
    RegistrationsExactly(t, e1);
    ConfFixed(t, e1);
    assert a !in u.registered;
    NoConflict(t, d, ip, req);
    NextCoherent(u, e2);
    ConnectionsExactly(u, e2);
    RegistrationsExactly(u, e2);
    RepliesExactly(u, d, req);
  }

  lemma SeenStays(s: Server, e: Event)
    requires !e.NewConnection?
    ensures Next(s, e).server.seen == s.seen
  {
  }

  /** A connection that has just been opened is not registered. */
  lemma NoConflict(s: Server, d: Conn, ip: seq<byte>, req: Request)
    requires Coherent(s) && d !in s.seen && req.kind == KINITIALIZE_SELF
    requires NetAddress(ip, req.port) in s.conf.byNet && s.conf.byNet[NetAddress(ip, req.port)] !in s.registered
    ensures !Conflicts(Next(s, NewConnection(d, ip)).server, d, req)
  {
  }

  // ---------------------------------------------------------------- the class

  class ResolveServer {
    const conf: ConfView
    var ips: map<Conn, seq<byte>>
    var contexts: map<Conn, Context>
    var connections: map<u32, Conn>
    var timers: map<TimerId, Conn>
    var nextTimer: nat
    var seen: set<Conn>

    ghost function View(): Server
      reads this
    {
      Server(conf, ips, contexts, connections, timers, nextTimer, seen)
    }

    constructor (conf: ConfView)
      ensures View() == Boot(conf)
    {
      this.conf := conf;
      ips, contexts, connections, timers, nextTimer, seen := map[], map[], map[], map[], 0, {};
    }

    method OnNewConnection(c: Conn, ip: seq<byte>)
      modifies this
      ensures View() == Accept(old(View()), c, ip)
    {
      var timerid := nextTimer;
      nextTimer := nextTimer + 1;
      timers := timers[timerid := c];
      ips, seen := ips[c := ip], seen + {c};
      contexts := contexts[c := Timer(timerid)];
    }

    method OnClose(c: Conn) returns (ok: bool)
      modifies this
      ensures Reaction(View(), None, ok) == Drop(old(View()), c)
    {
      ok := true;
      if c in contexts {
        var context := contexts[c];
        contexts, ips := contexts - {c}, ips - {c};
        if context.NodeAddr? {
          ok := context.addr in connections;
          if ok { connections := connections - {context.addr}; }
        }
      }
    }

    /** The timer's functor: the weak pointer no longer locks once the connection is gone. */
    method KickOffNode(t: TimerId) returns (ok: bool)
      modifies this
      ensures Reaction(View(), None, ok) == Expire(old(View()), t)
    {
      ok := true;
      if t in timers {
        var c := timers[t];
        timers := timers - {t};
        ok := OnClose(c);
      }
    }

    method HandleNodeInit(c: Conn, req: Request) returns (reply: Option<Response>, preserve: bool, ok: bool)
      requires c in ips
      modifies this
      ensures preserve && ok ==> Reaction(View(), reply, true) == Register(old(View()), c, req)
      ensures !ok ==> reply == None && Register(old(View()), c, req) == Reaction(View(), None, false)
      ensures !preserve ==> ok && unchanged(this) && Register(View(), c, req) == Drop(View(), c).(reply := reply)
    {
      reply, preserve, ok := None, true, true;
      var node := ByNetAddress(conf, NetAddress(ips[c], req.port));
      if node.None? {
        return Some(CodeOnly(KNODE_NOT_FOUND)), false, true;
      }
      var a := node.value.addr;
      if a in connections { return None, true, false; }
      connections := connections[a := c];
      if c !in contexts || !contexts[c].Timer? { return None, true, false; }
      timers := timers - {contexts[c].id};
      contexts := contexts[c := NodeAddr(a)];
      reply := Some(Response(KOK, KUPDATE_SELF, a, NetAddress(ips[c], req.port), node.value.path));
    }

    method HandleNodeLookup(c: Conn, req: Request) returns (reply: Option<Response>, preserve: bool, ok: bool)
      requires c in ips
      ensures preserve ==> Reaction(View(), reply, ok) == Answer(View(), c, req)
      ensures !preserve ==> ok && Answer(View(), c, req) == Drop(View(), c)
    {
      reply, preserve, ok := None, true, true;
      if c !in contexts { return None, true, false; }
      if req.self !in connections { return None, false, true; }
      var holder := connections[req.self];
      if holder !in contexts || !contexts[holder].NodeAddr? { return None, true, false; }
      if contexts[holder].addr != req.self { return None, false, true; }
      var node := ByAddress(conf, req.peer);
      if node.None? {
        reply := Some(CodeOnly(KNODE_NOT_FOUND).(kind := KUPDATE_CACHE, addr := req.peer));
      } else if node.value.addr != req.peer {
        ok := false;
      } else {
        reply := Some(Response(KOK, KUPDATE_CACHE, node.value.addr, node.value.net, node.value.path));
      }
    }

    method OnMessage(c: Conn, req: Request) returns (reply: Option<Response>, ok: bool)
      requires c in ips
      modifies this
      ensures Reaction(View(), reply, ok) == Receive(old(View()), c, req)
    {
      var preserve := false;
      reply, ok := None, true;
      if req.kind == KINITIALIZE_SELF {
        reply, preserve, ok := HandleNodeInit(c, req);
      } else if req.kind == KLOOKUP_NODE {
        reply, preserve, ok := HandleNodeLookup(c, req);
        if !preserve { reply := None; }
      }
      if ok && !preserve {
        ok := OnClose(c);
      }
    }
  }
}
