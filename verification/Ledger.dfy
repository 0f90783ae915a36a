/** Where every routed message ends up, node by node: written, cached, evicted or lost with its connection trigger. */
module Ledger {
  import opened Bytes
  import opened Messages
  import opened Nodes
  import opened Conf
  import opened Daemon
  import opened Cluster
  import opened Resolution
  import Registry

  /** What the log says about one node; recent: cached since a connection last took over the cache. */
  datatype Account = Account(arrived: seq<Routed>, written: seq<Routed>, evicted: seq<Routed>, lost: seq<Routed>,
                             recent: seq<Routed>)

  const EMPTY := Account([], [], [], [], [])

  function Post(l: Account, x: Effect, a: u32): Account {
    if x.node != a then l else
    match x
    case Arrived(_, m) => l.(arrived := l.arrived + [m])
    case Written(_, _, m) => l.(written := l.written + [m])
    case Cached(_, m) => l.(recent := l.recent + [m])
    case Evicted(_, m) => l.(evicted := l.evicted + [m])
    case TriggerLost(_, m) => l.(lost := l.lost + [m])
    case Flushed(_) => l.(recent := [])
    case _ => l
  }

  function PostAll(l: Account, log: seq<Effect>, a: u32): Account
    decreases |log|
  {
    if log == [] then l else PostAll(Post(l, log[0], a), log[1..], a)
  }

  function AccountOf(w: World, a: u32): Account { PostAll(EMPTY, w.log, a) }

  function QueueOf(s: State, a: u32): seq<Routed> { if a in s.nodes then s.nodes[a].queue else [] }

  lemma {:induction false} PostAppend(l: Account, s: seq<Effect>, t: seq<Effect>, a: u32)
    ensures PostAll(l, s + t, a) == PostAll(PostAll(l, s, a), t, a)
    decreases |s|
  {
    if s == [] {
      assert s + t == t;
    } else {
      assert (s + t)[1..] == s[1..] + t;
      PostAppend(Post(l, s[0], a), s[1..], t, a);
    }
  }

  lemma PostOne(l: Account, x: Effect, a: u32)
    ensures PostAll(l, [x], a) == Post(l, x, a)
  {
    assert PostAll(Post(l, x, a), [x][1..], a) == Post(l, x, a);
  }

  lemma {:induction false} PostOther(l: Account, log: seq<Effect>, a: u32)
    requires forall i :: 0 <= i < |log| ==> log[i].node != a
    ensures PostAll(l, log, a) == l
    decreases |log|
  {
    if log != [] { PostOther(l, log[1..], a); }
  }

  lemma PostCacheLog(l: Account, a: u32, n: NodeView, m: Routed)
    ensures PostAll(l, CacheLog(a, n, m), a) ==
            l.(evicted := if |n.queue| == MAX_CACHED then l.evicted + [n.queue[0]] else l.evicted,
               recent := l.recent + [m])
  {
    var d := PushOn(n.queue, MAX_CACHED, m).dropped;
    if d.Some? {
      PostAppend(l, [Evicted(a, d.value)], [Cached(a, m)], a);
      PostOne(l, Evicted(a, d.value), a);
      PostOne(Post(l, Evicted(a, d.value), a), Cached(a, m), a);
    } else {
      assert [] + [Cached(a, m)] == [Cached(a, m)];
      PostOne(l, Cached(a, m), a);
    }
  }

  lemma {:induction false} PostWrittenLog(l: Account, a: u32, c: ConnId, ms: seq<Routed>)
    ensures PostAll(l, WrittenLog(a, c, ms), a) == l.(written := l.written + ms)
    decreases |ms|
  {
    if ms == [] {
      assert l.written + ms == l.written;
    } else {
      var log := WrittenLog(a, c, ms);
      assert log[1..] == WrittenLog(a, c, ms[1..]);
      PostWrittenLog(Post(l, log[0], a), a, c, ms[1..]);
      assert l.written + [ms[0]] + ms[1..] == l.written + ms;
    }
  }

  // ---------------------------------------------------------------- conservation

  /** Everything that arrived is written, cached, evicted or lost, once each. */
  ghost predicate Balanced(l: Account, q: seq<Routed>) {
    multiset(l.arrived) == multiset(l.written) + multiset(q) + multiset(l.evicted) + multiset(l.lost)
  }

  /** The cache is exactly the last 128 messages cached since a connection last took over. */
  ghost predicate CacheExact(l: Account, q: seq<Routed>) {
    q == LastN(l.recent, 128)
  }

  /** What routing m does to the account and the queue of its node. */
  datatype Fate = WasWritten | WasCached | WasLost

  ghost predicate RouteFate(l: Account, q: seq<Routed>, m: Routed, fate: Fate, l': Account, q': seq<Routed>) {
    match fate
    case WasWritten => l' == l.(arrived := l.arrived + [m], written := l.written + [m]) && q' == q
    case WasLost => l' == l.(arrived := l.arrived + [m], lost := l.lost + [m]) && q' == q
    case WasCached =>
      && q' == PushOn(q, MAX_CACHED, m).queue
      && l' == l.(arrived := l.arrived + [m], recent := l.recent + [m],
                  evicted := if |q| == MAX_CACHED then l.evicted + [q[0]] else l.evicted)
  }

  /** A message for a is offered to an open connection. */
  predicate TakesDirectly(s: State, a: u32) {
    a in s.nodes && !s.nodes[a].state.NotResolved? && s.nodes[a].conn.Some?
  }

  /** The message that makes the daemon connect to a resolved node is neither sent nor kept. */
  predicate LosesTrigger(s: State, a: u32) {
    a in s.nodes && s.nodes[a].state.Resolved? && s.nodes[a].conn.None? && !s.nodes[a].connecting
  }

  lemma RoutePosts(s: State, m: Routed, writeOk: bool, l: Account) returns (fate: Fate)
    ensures var o, a := HandleToRemote(s, m, writeOk), m.body.to.node;
            RouteFate(l, QueueOf(s, a), m, fate, PostAll(l, o.log, a), QueueOf(o.state, a))
    ensures fate.WasWritten? <==> TakesDirectly(s, m.body.to.node) && writeOk
    ensures fate.WasLost? <==> LosesTrigger(s, m.body.to.node)
  {
    hide PostAll, CacheLog, Post;
    var o, a := HandleToRemote(s, m, writeOk), m.body.to.node;
    var n := if a in s.nodes then s.nodes[a] else NEW_NODE;
    var h := l.(arrived := l.arrived + [m]);
    PostHead(l, a, m);
    PostCacheLog(h, a, n, m);
    if o.log == [Arrived(a, m)] + CacheLog(a, n, m) {
      fate := WasCached;
      PostAppend(l, [Arrived(a, m)], CacheLog(a, n, m), a);
    } else if o.log == [Arrived(a, m), LookedUp(a)] + CacheLog(a, n, m) {
      fate := WasCached;
      PostAppend(l, [Arrived(a, m), LookedUp(a)], CacheLog(a, n, m), a);
    } else if n.conn.Some? && writeOk {
      fate := WasWritten;
    } else {
      fate := WasLost;
    }
  }

  lemma PostHead(l: Account, a: u32, m: Routed)
    ensures var h := l.(arrived := l.arrived + [m]);
            && PostAll(l, [Arrived(a, m)], a) == h
            && PostAll(l, [Arrived(a, m), LookedUp(a)], a) == h
            && (forall c :: PostAll(l, [Arrived(a, m), Written(a, c, m)], a) == h.(written := l.written + [m]))
            && PostAll(l, [Arrived(a, m), TriggerLost(a, m)], a) == h.(lost := l.lost + [m])
            && PostAll(l, [Arrived(a, m), TriggerLost(a, m), Dialled(a)], a) == h.(lost := l.lost + [m])
  {
    hide PostAll;
    var h := l.(arrived := l.arrived + [m]);
    PostOne(l, Arrived(a, m), a);
    forall x: Effect ensures PostAll(l, [Arrived(a, m), x], a) == Post(h, x, a) {
      assert [Arrived(a, m), x] == [Arrived(a, m)] + [x];
      PostAppend(l, [Arrived(a, m)], [x], a);
      PostOne(h, x, a);
    }
    var t := [Arrived(a, m), TriggerLost(a, m)];
    assert t + [Dialled(a)] == [Arrived(a, m), TriggerLost(a, m), Dialled(a)];
    PostAppend(l, t, [Dialled(a)], a);
    PostOne(PostAll(l, t, a), Dialled(a), a);
  }

  lemma FateBalances(l: Account, q: seq<Routed>, m: Routed, fate: Fate, l': Account, q': seq<Routed>)
    requires RouteFate(l, q, m, fate, l', q') && Balanced(l, q)
    ensures Balanced(l', q')
    ensures CacheExact(l, q) ==> CacheExact(l', q')
  {
    if fate.WasCached? {
      PushKeepsLast(l.recent, MAX_CACHED, m);
      if |q| == MAX_CACHED { assert q == [q[0]] + q[1..]; }
    }
  }

  // ---------------------------------------------------------------- one event

  ghost predicate Unmoved(w: World, v: World, a: u32) {
    AccountOf(v, a) == AccountOf(w, a) && QueueOf(v.d, a) == QueueOf(w.d, a)
  }

  ghost predicate RoutedTo(w: World, v: World, e: Event, a: u32, fate: Fate) {
    && e.Route? && e.body.to.node == a
    && RouteFate(AccountOf(w, a), QueueOf(w.d, a), Routed(w.nextId, e.body), fate, AccountOf(v, a), QueueOf(v.d, a))
  }

  /** A flush moves the accepted prefix of the cache to the written messages. */
  ghost predicate FlushedTo(w: World, v: World, e: Event, a: u32) {
    && e.ConnectDone? && a in w.d.nodes && e.net in w.d.index && w.d.index[e.net] == a
    && var l, q := AccountOf(w, a), QueueOf(w.d, a);
    && var k := Accepted(e.accepts, |q|);
    && QueueOf(v.d, a) == q[k..]
    && AccountOf(v, a) == l.(written := l.written + q[..k], recent := if k == |q| then [] else l.recent)
  }

  lemma AbsorbAccount(w: World, v: World, o: Outcome, sentOk: bool, viaReply: bool, a: u32)
    requires v.log == w.log
    ensures AccountOf(Absorb(v, o, sentOk, viaReply), a) == PostAll(AccountOf(w, a), o.log, a)
  {
    PostAppend(EMPTY, w.log, o.log, a);
  }

  lemma RouteAccount(w: World, e: Event, a: u32) returns (fate: Fate)
    requires e.Route? && w.ok
    ensures e.body.to.node == a ==> RoutedTo(w, Next(w, e), e, a, fate)
    ensures e.body.to.node != a ==> Unmoved(w, Next(w, e), a)
    ensures fate.WasWritten? <==> TakesDirectly(w.d, e.body.to.node) && e.writeOk
    ensures fate.WasLost? <==> LosesTrigger(w.d, e.body.to.node)
  {
    hide PostAll, RouteFate;
    var m := Routed(w.nextId, e.body);
    var o := HandleToRemote(w.d, m, e.writeOk);
    fate := RoutePosts(w.d, m, e.writeOk, AccountOf(w, a));
    if e.body.to.node != a { RouteOther(w.d, m, e.writeOk, a); PostOther(AccountOf(w, a), o.log, a); }
    hide HandleToRemote;
    AbsorbAccount(w, w.(nextId := w.nextId + 1), o, e.sentOk, false, a);
  }

  lemma RouteOther(s: State, m: Routed, writeOk: bool, a: u32)
    requires m.body.to.node != a
    ensures var o := HandleToRemote(s, m, writeOk);
            QueueOf(o.state, a) == QueueOf(s, a) && forall i :: 0 <= i < |o.log| ==> o.log[i].node != a
  {
  }

  lemma DoneAccount(w: World, e: Event, a: u32)
    requires e.ConnectDone? && w.ok
    ensures Unmoved(w, Next(w, e), a) || FlushedTo(w, Next(w, e), e, a)
  {
    hide PostAll;
    var o := OnConnected(w.d, e.net, w.nextConn, e.accepts);
    if w.attempts[e.net] > 0 {
      AbsorbAccount(w, w.(attempts := w.attempts - multiset{e.net}, live := w.live[w.nextConn := e.net],
                          nextConn := w.nextConn + 1),
                    o, false, false, a);
      var l := AccountOf(w, a);
      if e.net in w.d.index && w.d.index[e.net] in w.d.nodes && w.d.index[e.net] == a {
        var q := QueueOf(w.d, a);
        var k := Accepted(e.accepts, |q|);
        PostWrittenLog(l, a, w.nextConn, q[..k]);
        PostAppend(l, WrittenLog(a, w.nextConn, q[..k]), if k == |q| then [Flushed(a)] else [], a);
        PostOne(PostAll(l, WrittenLog(a, w.nextConn, q[..k]), a), Flushed(a), a);
        PostOther(PostAll(l, WrittenLog(a, w.nextConn, q[..k]), a), [], a);
      } else {
        PostOther(l, o.log, a);
      }
    }
  }

  lemma OtherAccount(w: World, e: Event, a: u32)
    requires !e.Route? && !e.ConnectDone?
    ensures Unmoved(w, Next(w, e), a)
  {
    if w.ok {
      match e
      case ReadReply(i) =>
        hide PostAll, HandleResponse;
        if IsNext(w.replies, i) {
          var o := HandleResponse(w.d, w.replies[i].item);
          ReplyPosts(w.d, w.replies[i].item, AccountOf(w, a), a);
          AbsorbAccount(w, w.(replies := Without(w.replies, i)), o, false, true, a);
        }
      case ConnectFail(k) =>
        hide PostAll, OnConnectError;
        ReleasePosts(w.d, k, AccountOf(w, a), a);
        AbsorbAccount(w, w.(attempts := w.attempts - multiset{k}), OnConnectError(w.d, k), false, false, a);
      case Disconnect(c) =>
        hide PostAll, OnDisconnected;
        if c in w.live {
          ReleasePosts(w.d, w.live[c], AccountOf(w, a), a);
          AbsorbAccount(w, w.(live := w.live - {c}), OnDisconnected(w.d, w.live[c]), false, false, a);
        }
      case ServerReads(_) => hide Registry.Next;
      case ServerOther(_) => hide Registry.Next;
      case _ =>
    }
  }

  lemma ReleasePosts(s: State, k: NetAddress, l: Account, a: u32)
    ensures PostAll(l, OnConnectError(s, k).log, a) == l && QueueOf(OnConnectError(s, k).state, a) == QueueOf(s, a)
    ensures PostAll(l, OnDisconnected(s, k).log, a) == l && QueueOf(OnDisconnected(s, k).state, a) == QueueOf(s, a)
  {
  }

  lemma ReplyPosts(s: State, r: Response, l: Account, a: u32)
    ensures PostAll(l, HandleResponse(s, r).log, a) == l
    ensures QueueOf(HandleResponse(s, r).state, a) == QueueOf(s, a)
  {
    var log := HandleResponse(s, r).log;
    if log != [] {
      PostOne(l, log[0], a);
      assert log == [log[0]];
    }
  }

  // ---------------------------------------------------------------- every run

  /** The messages routed to a before a failed assertion, with their numbers. */
  function Routings(conf: ConfView, es: seq<Event>, a: u32): seq<Routed> {
    if es == [] then []
    else
      var w, e := After(conf, es[..|es| - 1]), es[|es| - 1];
      Routings(conf, es[..|es| - 1], a)
      + if w.ok && e.Route? && e.body.to.node == a then [Routed(w.nextId, e.body)] else []
  }

  predicate Loses(w: World, e: Event, a: u32) { w.ok && e.Route? && e.body.to.node == a && LosesTrigger(w.d, a) }

  /** Those of them that met a resolved node with neither a connection nor the connecting mark. */
  function Losses(conf: ConfView, es: seq<Event>, a: u32): seq<Routed> {
    if es == [] then []
    else
      var w, e := After(conf, es[..|es| - 1]), es[|es| - 1];
      Losses(conf, es[..|es| - 1], a) + if Loses(w, e, a) then [Routed(w.nextId, e.body)] else []
  }

  lemma AccountStep(w: World, e: Event, a: u32)
    ensures var l, k := AccountOf(w, a), AccountOf(Next(w, e), a);
            && k.arrived == l.arrived + (if w.ok && e.Route? && e.body.to.node == a then [Routed(w.nextId, e.body)]
                                         else [])
            && k.lost == l.lost + if Loses(w, e, a) then [Routed(w.nextId, e.body)] else []
  {
    hide AccountOf, QueueOf, Next, LosesTrigger;
    if !w.ok { HaltedStays(w, e); }
    else if e.Route? { var fate := RouteAccount(w, e, a); }
    else if e.ConnectDone? { DoneAccount(w, e, a); }
    else { OtherAccount(w, e, a); }
  }

  /** What arrives is exactly what was routed, and what is lost exactly those routings that met such a node. */
  lemma {:induction false} EveryRoutingArrives(conf: ConfView, es: seq<Event>, a: u32)
    ensures AccountOf(After(conf, es), a).arrived == Routings(conf, es, a)
    ensures AccountOf(After(conf, es), a).lost == Losses(conf, es, a)
  {
    if es != [] {
      hide AccountOf, Next, Loses;
      EveryRoutingArrives(conf, es[..|es| - 1], a);
      AccountStep(After(conf, es[..|es| - 1]), es[|es| - 1], a);
    }
  }

  /** Every message routed to a is written, cached, evicted or lost, once each. */
  lemma {:induction false} AlwaysBalanced(conf: ConfView, es: seq<Event>, a: u32)
    requires ConfOk(conf)
    ensures var w := After(conf, es);
            && Balanced(AccountOf(w, a), QueueOf(w.d, a))
            && (w.ok ==> CacheExact(AccountOf(w, a), QueueOf(w.d, a)))
            && AccountOf(w, a).arrived == Routings(conf, es, a) && AccountOf(w, a).lost == Losses(conf, es, a)
  {
    hide AccountOf, QueueOf, Next, Inv, RouteFate, Balanced, CacheExact, Routings, Losses;
    EveryRoutingArrives(conf, es, a);
    if es == [] {
      BootBalanced(conf, a);
    } else {
      AlwaysBalanced(conf, es[..|es| - 1], a);
      var w, e := After(conf, es[..|es| - 1]), es[|es| - 1];
      if w.ok {
        Reachable(conf, es[..|es| - 1]);
        BalanceStep(w, e, a);
      } else {
        HaltedStays(w, e);
      }
    }
  }

  lemma BootBalanced(conf: ConfView, a: u32)
    ensures var w := After(conf, []);
            Balanced(AccountOf(w, a), QueueOf(w.d, a)) && CacheExact(AccountOf(w, a), QueueOf(w.d, a))
  {
  }

  // ---------------------------------------------------------------- losses

  ghost predicate NoLossBefore(conf: ConfView, es: seq<Event>, n: nat, a: u32)
    requires n <= |es|
  {
    forall i :: 0 <= i < n ==> !Loses(After(conf, es[..i]), es[i], a)
  }

  lemma {:induction false} LostThrough(conf: ConfView, es: seq<Event>, n: nat, a: u32)
    requires n <= |es|
    ensures AccountOf(After(conf, es[..n]), a).lost == [] <==> NoLossBefore(conf, es, n, a)
  {
    hide AccountOf, Next, Loses, After;
    if n == 0 {
      assert es[..0] == [];
      BootUnlost(conf, a);
    } else {
      LostThrough(conf, es, n - 1, a);
      AfterTake(conf, es, n - 1);
      AccountStep(After(conf, es[..n - 1]), es[n - 1], a);
    }
  }

  lemma AfterTake(conf: ConfView, es: seq<Event>, n: nat)
    requires n < |es|
    ensures After(conf, es[..n + 1]) == Next(After(conf, es[..n]), es[n])
  {
    hide Next, After;
    assert es[..n + 1] == es[..n] + [es[n]];
    AfterSnoc(conf, es[..n], es[n]);
  }

  lemma BootUnlost(conf: ConfView, a: u32)
    ensures AccountOf(After(conf, []), a).lost == []
  {
  }

  /** No message to a is ever lost exactly when none met a resolved node with neither connection nor mark. */
  lemma NothingLostExactly(conf: ConfView, es: seq<Event>, a: u32)
    ensures AccountOf(After(conf, es), a).lost == [] <==> NoLossBefore(conf, es, |es|, a)
  {
    hide After, Loses, AccountOf;
    assert es[..|es|] == es;
    LostThrough(conf, es, |es|, a);
  }

  /** A message routed to a starts a connection attempt, or fails the assertion on the way there. */
  predicate Attempts(w: World, e: Event, a: u32) {
    w.ok && e.Route? && e.body.to.node == a && Next(w, e).attempts != w.attempts
  }

  predicate FailsAttempt(w: World, e: Event, a: u32) {
    w.ok && e.Route? && e.body.to.node == a && !Next(w, e).ok
  }

  lemma LossDials(s: State, m: Routed, writeOk: bool)
    requires m.body.to.node in s.nodes ==> NodeInv(s.nodes[m.body.to.node])
    ensures var o := HandleToRemote(s, m, writeOk);
            && (LosesTrigger(s, m.body.to.node) <==> o.dial.Some? || !o.ok)
            && !(o.dial.Some? && !o.ok)
  {
    hide CacheLog, WithCached;
  }

  lemma LossIsAttempt(w: World, e: Event, a: u32)
    requires w.ok ==> Inv(w)
    ensures Loses(w, e, a) <==> Attempts(w, e, a) || FailsAttempt(w, e, a)
    ensures !(Attempts(w, e, a) && FailsAttempt(w, e, a))
  {
    hide LosesTrigger, HandleToRemote, Wired, LookupInv, Registry.Coherent, NodeInv;
    if w.ok && e.Route? {
      var o := HandleToRemote(w.d, Routed(w.nextId, e.body), e.writeOk);
      LossDials(w.d, Routed(w.nextId, e.body), e.writeOk);
      if o.dial.Some? { assert (w.attempts + multiset{o.dial.value})[o.dial.value] == w.attempts[o.dial.value] + 1; }
    }
  }

  function AttemptsByRouting(conf: ConfView, es: seq<Event>, a: u32): nat {
    if es == [] then 0
    else AttemptsByRouting(conf, es[..|es| - 1], a)
         + if Attempts(After(conf, es[..|es| - 1]), es[|es| - 1], a) then 1 else 0
  }

  function FailedAttempts(conf: ConfView, es: seq<Event>, a: u32): nat {
    if es == [] then 0
    else FailedAttempts(conf, es[..|es| - 1], a)
         + if FailsAttempt(After(conf, es[..|es| - 1]), es[|es| - 1], a) then 1 else 0
  }

  /** The lost messages are one for one the attempts started by routing, and the one that fails the assertion. */
  lemma {:induction false} LostPerAttempt(conf: ConfView, es: seq<Event>, a: u32)
    requires ConfOk(conf)
    ensures |AccountOf(After(conf, es), a).lost| == AttemptsByRouting(conf, es, a) + FailedAttempts(conf, es, a)
    ensures FailedAttempts(conf, es, a) <= if After(conf, es).ok then 0 else 1
  {
    hide AccountOf, Next, Loses, Attempts, Inv;
    if es != [] {
      var front := es[..|es| - 1];
      LostPerAttempt(conf, front, a);
      Reachable(conf, front);
      AccountStep(After(conf, front), es[|es| - 1], a);
      LossIsAttempt(After(conf, front), es[|es| - 1], a);
      if !After(conf, front).ok { HaltedStays(After(conf, front), es[|es| - 1]); }
    } else {
      EveryRoutingArrives(conf, es, a);
    }
  }

  lemma HaltedStays(w: World, e: Event)
    requires !w.ok
    ensures Next(w, e) == w
  {
  }

  lemma BalanceStep(w: World, e: Event, a: u32)
    requires w.ok && Inv(w)
    requires Balanced(AccountOf(w, a), QueueOf(w.d, a)) && CacheExact(AccountOf(w, a), QueueOf(w.d, a))
    ensures var v := Next(w, e);
            Balanced(AccountOf(v, a), QueueOf(v.d, a)) && (v.ok ==> CacheExact(AccountOf(v, a), QueueOf(v.d, a)))
  {
    hide AccountOf, QueueOf, Next, Inv, RouteFate, Balanced, CacheExact;
    var v := Next(w, e);
    var l, q := AccountOf(w, a), QueueOf(w.d, a);
    if e.Route? {
      var fate := RouteAccount(w, e, a);
      if e.body.to.node == a { FateBalances(l, q, Routed(w.nextId, e.body), fate, AccountOf(v, a), QueueOf(v.d, a)); }
    } else if e.ConnectDone? {
      DoneAccount(w, e, a);
      if FlushedTo(w, v, e, a) && !Unmoved(w, v, a) {
        var k := Accepted(e.accepts, |q|);
        FlushBalances(l, q, k);
        if v.ok { DoneOk(w, e, a); }
      }
    } else {
      OtherAccount(w, e, a);
    }
  }

  lemma FlushBalances(l: Account, q: seq<Routed>, k: nat)
    requires k <= |q| && Balanced(l, q)
    ensures Balanced(l.(written := l.written + q[..k]), q[k..])
    ensures forall r :: Balanced(l.(written := l.written + q[..k], recent := r), q[k..])
    ensures k == |q| ==> CacheExact(l.(written := l.written + q[..k], recent := []), q[k..])
  {
    assert q == q[..k] + q[k..];
  }

  lemma DoneOk(w: World, e: Event, a: u32)
    requires w.ok && Inv(w) && e.ConnectDone? && Next(w, e).ok && a in w.d.nodes && e.net in w.d.index
             && w.d.index[e.net] == a
    ensures w.attempts[e.net] > 0 ==> Accepted(e.accepts, |QueueOf(w.d, a)|) == |QueueOf(w.d, a)|
    ensures w.attempts[e.net] == 0 ==> Unmoved(w, Next(w, e), a)
  {
    hide PostAll;
    DoneIndex(w, e);
  }

  // ---------------------------------------------------------------- order

  /** The connection takes every message it is offered in this event. */
  ghost predicate Writable(e: Event) {
    (e.Route? ==> e.writeOk) && (e.ConnectDone? ==> forall i: nat :: e.accepts(i))
  }

  /** s without the entries that are gone, in the same order. */
  function Kept(s: seq<Routed>, gone: seq<Routed>): seq<Routed> {
    if s == [] then [] else Kept(s[..|s| - 1], gone) + if s[|s| - 1] in gone then [] else [s[|s| - 1]]
  }

  lemma {:induction false} KeptIn(s: seq<Routed>, gone: seq<Routed>, x: Routed)
    ensures x in Kept(s, gone) ==> x in s && x !in gone
  {
    if s != [] { KeptIn(s[..|s| - 1], gone, x); }
  }

  lemma {:induction false} KeptSame(s: seq<Routed>, g: seq<Routed>, h: seq<Routed>)
    requires forall x :: x in s ==> (x in g <==> x in h)
    ensures Kept(s, g) == Kept(s, h)
  {
    if s != [] { KeptSame(s[..|s| - 1], g, h); }
  }

  lemma KeptSnoc(s: seq<Routed>, m: Routed, gone: seq<Routed>)
    ensures Kept(s + [m], gone) == Kept(s, gone) + if m in gone then [] else [m]
  {
    assert (s + [m])[..|s|] == s;
  }

  /** Removing one more entry, when all entries are different. */
  lemma {:induction false} KeptEvict(s: seq<Routed>, g: seq<Routed>, x: Routed, h: seq<Routed>, u: seq<Routed>,
                                     v: seq<Routed>)
    requires forall i, j :: 0 <= i < j < |s| ==> s[i] != s[j]
    requires forall y :: y in h <==> y in g || y == x
    requires Kept(s, g) == u + [x] + v
    ensures Kept(s, h) == u + v
  {
    var t, y := s[..|s| - 1], s[|s| - 1];
    if y in g {
      KeptEvict(t, g, x, h, u, v);
    } else if v == [] {
      var k := Kept(t, g);
      assert k + [y] == u + [x] + v && |k + [y]| == |u| + 1;
      assert k == (k + [y])[..|u|] && y == (k + [y])[|u|];
      assert k == u && y == x;
      KeptSame(t, g, h);
    } else {
      var v', k := v[..|v| - 1], Kept(t, g);
      assert k + [y] == (u + [x] + v') + [v[|v| - 1]];
      assert k == (k + [y])[..|k|] && |k| == |u + [x] + v'|;
      assert k == u + [x] + v' && y == v[|v| - 1];
      KeptEvict(t, g, x, h, u, v');
      KeptIn(t, g, x);
      assert x == k[|u|];
      assert u + v' + [y] == u + v;
    }
  }

  /** Written then cached is exactly what arrived, in order, minus what was evicted or lost. */
  ghost predicate Ordered(w: World, a: u32) {
    var l := AccountOf(w, a);
    l.written + QueueOf(w.d, a) == Kept(l.arrived, l.evicted + l.lost)
  }

  /** A message for a is written at once although older ones are still cached. */
  ghost predicate Jumps(w: World, e: Event, a: u32) {
    w.ok && e.Route? && e.body.to.node == a && TakesDirectly(w.d, a) && e.writeOk && QueueOf(w.d, a) != []
  }

  /** A node with a connection has nothing cached. */
  ghost predicate ConnectedIsEmpty(s: State, a: u32) {
    a in s.nodes && s.nodes[a].conn.Some? ==> s.nodes[a].queue == []
  }

  /** Arrivals are numbered in increasing order, and everything accounted for has arrived. */
  ghost predicate Numbered(w: World, a: u32) {
    var l := AccountOf(w, a);
    && (forall i :: 0 <= i < |l.arrived| ==> l.arrived[i].id < w.nextId)
    && (forall i, j :: 0 <= i < j < |l.arrived| ==> l.arrived[i].id < l.arrived[j].id)
  }

  lemma NumberStep(w: World, e: Event, a: u32)
    requires w.ok && Numbered(w, a)
    ensures Numbered(Next(w, e), a)
  {
    hide AccountOf, QueueOf;
    if e.Route? {
      var fate := RouteAccount(w, e, a);
    } else if e.ConnectDone? {
      DoneAccount(w, e, a);
    } else {
      OtherAccount(w, e, a);
      NumberKept(w, e);
    }
  }

  lemma NumberKept(w: World, e: Event)
    requires !e.Route?
    ensures Next(w, e).nextId == w.nextId
  {
    hide Registry.Next;
  }

  lemma {:induction false} AlwaysNumbered(conf: ConfView, es: seq<Event>, a: u32)
    ensures Numbered(After(conf, es), a)
  {
    if es != [] {
      hide Numbered, Next;
      var w, e := After(conf, es[..|es| - 1]), es[|es| - 1];
      AlwaysNumbered(conf, es[..|es| - 1], a);
      if w.ok { NumberStep(w, e, a); } else { HaltedStays(w, e); }
    }
  }

  /** Nothing evicted or lost so far can be the message routed next, nor can anything that arrived. */
  lemma NewIsNew(w: World, a: u32, m: Routed)
    requires Numbered(w, a) && Balanced(AccountOf(w, a), QueueOf(w.d, a)) && m.id == w.nextId
    ensures var l := AccountOf(w, a); m !in l.arrived && m !in l.evicted + l.lost && m !in l.written + QueueOf(w.d, a)
    ensures var l := AccountOf(w, a); forall i, j :: 0 <= i < j < |l.arrived| ==> l.arrived[i] != l.arrived[j]
  {
    hide AccountOf, QueueOf;
    var l, q := AccountOf(w, a), QueueOf(w.d, a);
    assert m !in l.arrived;
    assert m !in multiset(l.arrived);
    assert m !in multiset(l.written) + multiset(q) + multiset(l.evicted) + multiset(l.lost);
  }

  lemma FateOrders(l: Account, q: seq<Routed>, m: Routed, fate: Fate, l': Account, q': seq<Routed>)
    requires RouteFate(l, q, m, fate, l', q')
    requires l.written + q == Kept(l.arrived, l.evicted + l.lost)
    requires m !in l.arrived && m !in l.evicted + l.lost && m !in l.written + q
    requires forall i, j :: 0 <= i < j < |l.arrived| ==> l.arrived[i] != l.arrived[j]
    ensures l'.written + q' == Kept(l'.arrived, l'.evicted + l'.lost) <==> !(fate.WasWritten? && q != [])
  {
    var gone, gone' := l.evicted + l.lost, l'.evicted + l'.lost;
    KeptSnoc(l.arrived, m, gone');
    match fate
    case WasWritten =>
      if q == [] {
        assert l'.written + q' == (l.written + q) + [m];
      } else {
        assert (l'.written + q')[|l.written|] == m;
        assert ((l.written + q) + [m])[|l.written|] == q[0] && q[0] in l.written + q;
      }
    case WasLost => KeptSame(l.arrived, gone, gone');
    case WasCached =>
      if |q| == MAX_CACHED {
        assert l.written + q == l.written + [q[0]] + q[1..];
        assert q[0] in l.written + q;
        KeptEvict(l.arrived, gone, q[0], gone', l.written, q[1..]);
        assert l'.written + q' == (l.written + q[1..]) + [m];
      } else {
        assert l'.written + q' == (l.written + q) + [m];
      }
  }

  lemma FlushOrders(w: World, v: World, e: Event, a: u32)
    requires FlushedTo(w, v, e, a)
    ensures AccountOf(v, a).written + QueueOf(v.d, a) == AccountOf(w, a).written + QueueOf(w.d, a)
    ensures var l, l' := AccountOf(w, a), AccountOf(v, a);
            l'.arrived == l.arrived && l'.evicted == l.evicted && l'.lost == l.lost
  {
    hide AccountOf, QueueOf;
    var l, q := AccountOf(w, a), QueueOf(w.d, a);
    var k := Accepted(e.accepts, |q|);
    assert q[..k] + q[k..] == q;
  }

  /** One event keeps the order exactly when no message jumps the queue. */
  lemma OrderStep(w: World, e: Event, a: u32)
    requires w.ok && Ordered(w, a) && Numbered(w, a) && Balanced(AccountOf(w, a), QueueOf(w.d, a))
    ensures Ordered(Next(w, e), a) <==> !Jumps(w, e, a)
  {
    hide AccountOf, QueueOf, Numbered, Balanced, RouteFate, Kept, Next, TakesDirectly;
    var v := Next(w, e);
    if e.ConnectDone? {
      DoneAccount(w, e, a);
      if FlushedTo(w, v, e, a) { FlushOrders(w, v, e, a); }
    } else if e.Route? {
      var m := Routed(w.nextId, e.body);
      var fate := RouteAccount(w, e, a);
      if e.body.to.node == a {
        NewIsNew(w, a, m);
        FateOrders(AccountOf(w, a), QueueOf(w.d, a), m, fate, AccountOf(v, a), QueueOf(v.d, a));
      }
    } else {
      OtherAccount(w, e, a);
    }
  }

  ghost predicate OrderedThrough(conf: ConfView, es: seq<Event>, n: nat, a: u32)
    requires n <= |es|
  {
    forall i :: 0 <= i <= n ==> Ordered(After(conf, es[..i]), a)
  }

  ghost predicate NoJumpBefore(conf: ConfView, es: seq<Event>, n: nat, a: u32)
    requires n <= |es|
  {
    forall i :: 0 <= i < n ==> !Jumps(After(conf, es[..i]), es[i], a)
  }

  lemma OrderAt(conf: ConfView, es: seq<Event>, n: nat, a: u32)
    requires ConfOk(conf) && n < |es| && Ordered(After(conf, es[..n]), a)
    ensures Ordered(After(conf, es[..n + 1]), a) <==> !Jumps(After(conf, es[..n]), es[n], a)
  {
    hide Next, Ordered, Jumps, Numbered, Balanced, AccountOf, QueueOf, CacheExact;
    var w := After(conf, es[..n]);
    AlwaysBalanced(conf, es[..n], a);
    AlwaysNumbered(conf, es[..n], a);
    assert es[..n + 1][..n] == es[..n] && es[..n + 1][n] == es[n];
    if w.ok { OrderStep(w, es[n], a); } else { HaltedStays(w, es[n]); HaltedNeverJumps(w, es[n], a); }
  }

  /** At every point of a run the node's messages are in order, exactly when none of its events lets a message jump
      the queue. */
  lemma {:induction false} OrderedExactly(conf: ConfView, es: seq<Event>, n: nat, a: u32)
    requires ConfOk(conf) && n <= |es|
    ensures OrderedThrough(conf, es, n, a) <==> NoJumpBefore(conf, es, n, a)
  {
    hide After, Ordered, Jumps;
    if n == 0 {
      assert es[..0] == [];
      BootOrdered(conf, a);
    } else {
      OrderedExactly(conf, es, n - 1, a);
      if Ordered(After(conf, es[..n - 1]), a) { OrderAt(conf, es, n - 1, a); }
    }
  }

  /** In terms of the routings themselves. */
  lemma OrderedMeans(conf: ConfView, es: seq<Event>, a: u32)
    ensures Ordered(After(conf, es), a) <==>
            AccountOf(After(conf, es), a).written + QueueOf(After(conf, es).d, a)
            == Kept(Routings(conf, es, a), AccountOf(After(conf, es), a).evicted + Losses(conf, es, a))
  {
    hide AccountOf, QueueOf, After, Routings, Losses, Kept;
    EveryRoutingArrives(conf, es, a);
  }

  lemma BootOrdered(conf: ConfView, a: u32)
    ensures Ordered(After(conf, []), a)
  {
  }

  lemma HaltedNeverJumps(w: World, e: Event, a: u32)
    requires !w.ok
    ensures !Jumps(w, e, a)
  {
  }

  ghost predicate NoNewConn(s: State, t: State, a: u32) {
    a in t.nodes && t.nodes[a].conn.Some? ==> a in s.nodes && s.nodes[a].conn.Some?
  }

  lemma CallbacksKeepConn(s: State, m: Routed, writeOk: bool, r: Response, k: NetAddress, a: u32)
    ensures NoNewConn(s, HandleToRemote(s, m, writeOk).state, a)
    ensures NoNewConn(s, HandleResponse(s, r).state, a)
    ensures NoNewConn(s, OnConnectError(s, k).state, a)
    ensures NoNewConn(s, OnDisconnected(s, k).state, a)
  {
    RouteKeepsConn(s, m, writeOk, a);
    ResponseKeepsConn(s, r, a);
    hide HandleToRemote, HandleResponse;
  }

  lemma RouteKeepsConn(s: State, m: Routed, writeOk: bool, a: u32)
    ensures NoNewConn(s, HandleToRemote(s, m, writeOk).state, a)
  {
    hide CacheLog;
  }

  lemma ResponseKeepsConn(s: State, r: Response, a: u32)
    ensures NoNewConn(s, HandleResponse(s, r).state, a)
  {
  }

  /** Only a completed attempt gives a node a connection. */
  lemma ConnKept(w: World, e: Event, a: u32)
    requires !e.ConnectDone?
    ensures NoNewConn(w.d, Next(w, e).d, a)
  {
    hide Registry.Next, HandleToRemote, HandleResponse, OnConnectError, OnDisconnected;
    var m := if e.Route? then Routed(w.nextId, e.body) else Routed(0, DEFAULT);
    var r := if e.ReadReply? && e.i < |w.replies| then w.replies[e.i].item
        else Response(0, 0, 0, NetAddress([], 0), []);
    var k := if e.ConnectFail? then e.net else if e.Disconnect? && e.conn in w.live then w.live[e.conn]
        else NetAddress([], 0);
    CallbacksKeepConn(w.d, m, e.Route? && e.writeOk, r, k, a);
  }

  lemma DoneConn(w: World, e: Event, a: u32)
    requires e.ConnectDone? && w.ok && Writable(e) && ConnectedIsEmpty(w.d, a)
    ensures ConnectedIsEmpty(Next(w, e).d, a)
  {
  }

  lemma RouteConn(w: World, e: Event, a: u32)
    requires e.Route? && w.ok && Writable(e) && NodesInv(w) && ConnectedIsEmpty(w.d, a)
    ensures ConnectedIsEmpty(Next(w, e).d, a)
  {
    hide CacheLog;
    assert a in w.d.nodes ==> NodeInv(w.d.nodes[a]);
  }

  lemma {:induction false} WritableIsEmpty(conf: ConfView, es: seq<Event>, a: u32)
    requires ConfOk(conf)
    requires forall i :: 0 <= i < |es| ==> Writable(es[i])
    ensures ConnectedIsEmpty(After(conf, es).d, a)
  {
    if es != [] {
      hide Next, Inv, NodesInv, Writable, AccountOf;
      var front := es[..|es| - 1];
      var w, e := After(conf, front), es[|es| - 1];
      WritableIsEmpty(conf, front, a);
      if w.ok {
        Reachable(conf, front);
        InvNodes(w);
        if e.ConnectDone? { DoneConn(w, e, a); }
        else if e.Route? { RouteConn(w, e, a); }
        else { ConnKept(w, e, a); OtherAccount(w, e, a); }
      } else {
        HaltedStays(w, e);
      }
    }
  }

  /** When open connections take what they are offered nothing ever jumps the queue, so every run is in order. */
  lemma WritableRunsAreOrdered(conf: ConfView, es: seq<Event>, a: u32)
    requires ConfOk(conf)
    requires forall i :: 0 <= i < |es| ==> Writable(es[i])
    ensures Ordered(After(conf, es), a)
  {
    hide After, Ordered, Writable, AccountOf;
    forall n | 0 <= n < |es| ensures !Jumps(After(conf, es[..n]), es[n], a) {
      WritableIsEmpty(conf, es[..n], a);
    }
    OrderedExactly(conf, es, |es|, a);
    assert es[..|es|] == es;
  }

  /** Two messages for a connected node, the first refused by its connection: the second jumps the queue. */
  lemma RefusedWriteJumps(w: World, a: u32, m: Message)
    requires w.ok && Inv(w) && a in w.d.nodes && w.d.nodes[a].conn.Some? && m.to.node == a
    ensures Jumps(Next(w, Route(m, false, true)), Route(m, true, true), a)
  {
    assert NodeInv(w.d.nodes[a]);
  }
}
