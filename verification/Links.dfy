/** What each outbound connection carried: the messages written on it, in order, and their bytes. */
module Links {
  import opened Bytes
  import opened Messages
  import opened Framing
  import opened Codecs
  import opened Nodes
  import opened Conf
  import opened Daemon
  import opened Cluster
  import opened Resolution
  import opened Ledger

  predicate On(x: Effect, c: ConnId) { x.Written? && x.conn == c }

  /** Where the log says that something was written on c. */
  function Positions(log: seq<Effect>, c: ConnId): (ps: seq<nat>)
    ensures forall i :: 0 <= i < |ps| ==> ps[i] < |log| && On(log[ps[i]], c)
    ensures forall i, j :: 0 <= i < j < |ps| ==> ps[i] < ps[j]
  {
    if log == [] then []
    else
      var n := |log| - 1;
      Positions(log[..n], c) + if On(log[n], c) then [n] else []
  }

  function WrittenOn(log: seq<Effect>, c: ConnId): (ms: seq<Routed>)
    ensures |ms| == |Positions(log, c)|
    ensures forall i :: 0 <= i < |ms| ==> ms[i] == log[Positions(log, c)[i]].m
  {
    var ps := Positions(log, c);
    seq(|ps|, i requires 0 <= i < |ps| => log[ps[i]].m)
  }

  function BodiesOf(ms: seq<Routed>): (bodies: seq<Message>)
    ensures |bodies| == |ms|
    ensures forall i :: 0 <= i < |ms| ==> bodies[i] == ms[i].body
  {
    seq(|ms|, i requires 0 <= i < |ms| => ms[i].body)
  }

  function BytesOn(log: seq<Effect>, c: ConnId): seq<byte> {
    Flat(EncodeAll(BodiesOf(WrittenOn(log, c))))
  }

  lemma {:induction false} PositionsGrow(log: seq<Effect>, more: seq<Effect>, c: ConnId)
    ensures Positions(log, c) <= Positions(log + more, c)
    decreases |more|
  {
    if more == [] {
      assert log + more == log;
    } else {
      var front := more[..|more| - 1];
      assert (log + more)[..|log + more| - 1] == log + front;
      PositionsGrow(log, front, c);
    }
  }

  /** A longer log only adds at the end of every connection. */
  lemma WrittenGrows(log: seq<Effect>, longer: seq<Effect>, c: ConnId)
    requires log <= longer
    ensures WrittenOn(log, c) <= WrittenOn(longer, c)
    ensures BytesOn(log, c) <= BytesOn(longer, c)
  {
    hide Positions, Encode;
    assert longer == log + longer[|log|..];
    PositionsGrow(log, longer[|log|..], c);
    var x, y := EncodeAll(BodiesOf(WrittenOn(log, c))), EncodeAll(BodiesOf(WrittenOn(longer, c)));
    assert y == x + y[|x|..];
    FlatAppend(x, y[|x|..]);
  }

  // ---------------------------------------------------------------- written at most once

  lemma {:induction false} PostKeeps(l: Account, log: seq<Effect>, a: u32, m: Routed)
    ensures multiset(l.written)[m] <= multiset(PostAll(l, log, a).written)[m]
    decreases |log|
  {
    if log != [] { PostKeeps(Post(l, log[0], a), log[1..], a, m); }
  }

  lemma PostPicks(l: Account, log: seq<Effect>, p: nat, a: u32)
    requires p < |log| && log[p].Written? && log[p].node == a
    ensures multiset(l.written)[log[p].m] < multiset(PostAll(l, log, a).written)[log[p].m]
  {
    hide PostAll;
    var m, k := log[p].m, PostAll(l, log[..p], a);
    assert log == log[..p] + ([log[p]] + log[p + 1..]);
    PostAppend(l, log[..p], [log[p]] + log[p + 1..], a);
    PostAppend(k, [log[p]], log[p + 1..], a);
    PostOne(k, log[p], a);
    PostKeeps(l, log[..p], a, m);
    PostKeeps(Post(k, log[p], a), log[p + 1..], a, m);
  }

  lemma PostTwice(log: seq<Effect>, p: nat, q: nat, a: u32)
    requires p < q < |log| && log[p].Written? && log[q].Written? && log[p].node == log[q].node == a
             && log[p].m == log[q].m
    ensures multiset(PostAll(EMPTY, log, a).written)[log[p].m] >= 2
  {
    hide PostAll;
    assert log == log[..q] + log[q..];
    PostAppend(EMPTY, log[..q], log[q..], a);
    PostPicks(EMPTY, log[..q], p, a);
    PostPicks(PostAll(EMPTY, log[..q], a), log[q..], 0, a);
  }

  /** Everything that ever arrived for a node is the routing with its number, addressed to that node, and every
      routing has arrived. */
  ghost predicate Faithful(w: World, routed: seq<Message>) {
    && |routed| == w.nextId
    && (forall a, x :: x in AccountOf(w, a).arrived ==>
          x.id < |routed| && x.body == routed[x.id] && x.body.to.node == a)
    && (forall i :: 0 <= i < |routed| ==> Routed(i, routed[i]) in AccountOf(w, routed[i].to.node).arrived)
  }

  lemma FaithfulStep(w: World, e: Event, routed: seq<Message>)
    requires Faithful(w, routed)
    ensures Faithful(Next(w, e), if w.ok && e.Route? then routed + [e.body] else routed)
  {
    hide AccountOf, Next, Loses;
    var v := Next(w, e);
    var routed' := if w.ok && e.Route? then routed + [e.body] else routed;
    NextIdStep(w, e);
    forall a, x | x in AccountOf(v, a).arrived
      ensures x.id < |routed'| && x.body == routed'[x.id] && x.body.to.node == a
    {
      AccountStep(w, e, a);
    }
    forall i | 0 <= i < |routed'| ensures Routed(i, routed'[i]) in AccountOf(v, routed'[i].to.node).arrived {
      AccountStep(w, e, routed'[i].to.node);
    }
  }

  lemma NextIdStep(w: World, e: Event)
    ensures Next(w, e).nextId == if w.ok && e.Route? then w.nextId + 1 else w.nextId
    ensures w.log <= Next(w, e).log
  {
    hide HandleToRemote, HandleResponse, OnConnected, OnConnectError, OnDisconnected;
    hide Registry.Next;
  }

  /** What a log entry wrote was routed to that node. */
  lemma WrittenArrived(conf: ConfView, es: seq<Event>, routed: seq<Message>, p: nat)
    requires ConfOk(conf) && Faithful(After(conf, es), routed)
    requires p < |After(conf, es).log| && After(conf, es).log[p].Written?
    ensures var x := After(conf, es).log[p];
            && x.m in AccountOf(After(conf, es), x.node).arrived
            && x.m.id < |routed| && x.m.body == routed[x.m.id] && x.m.body.to.node == x.node
  {
    var w := After(conf, es);
    var x := w.log[p];
    AlwaysBalanced(conf, es, x.node);
    hide After, PostAll;
    PostPicks(EMPTY, w.log, p, x.node);
    var l := AccountOf(w, x.node);
    assert x.m in multiset(l.written);
    assert x.m in multiset(l.arrived);
  }

  /** No routing is written twice, on whatever connections. */
  lemma WrittenOnce(conf: ConfView, es: seq<Event>, routed: seq<Message>, p: nat, q: nat)
    requires ConfOk(conf) && Faithful(After(conf, es), routed)
    requires p < q < |After(conf, es).log| && After(conf, es).log[p].Written? && After(conf, es).log[q].Written?
    ensures After(conf, es).log[p].m.id != After(conf, es).log[q].m.id
  {
    var w := After(conf, es);
    var x, y := w.log[p], w.log[q];
    WrittenArrived(conf, es, routed, p);
    WrittenArrived(conf, es, routed, q);
    if x.m.id == y.m.id {
      AlwaysBalanced(conf, es, x.node);
      AlwaysNumbered(conf, es, x.node);
      hide After, PostAll;
      PostTwice(w.log, p, q, x.node);
      DistinctOnce(AccountOf(w, x.node).arrived, x.m);
      assert false;
    }
  }

  /** So messages at different places of connections are different routings. */
  lemma SentOnce(conf: ConfView, es: seq<Event>, routed: seq<Message>, c: ConnId, i: nat, d: ConnId, j: nat)
    requires ConfOk(conf) && Faithful(After(conf, es), routed) && (c, i) != (d, j)
    requires i < |WrittenOn(After(conf, es).log, c)| && j < |WrittenOn(After(conf, es).log, d)|
    ensures WrittenOn(After(conf, es).log, c)[i].id != WrittenOn(After(conf, es).log, d)[j].id
  {
    hide After, Faithful;
    var log := After(conf, es).log;
    var p, q := Positions(log, c)[i], Positions(log, d)[j];
    assert On(log[p], c) && On(log[q], d);
    if p < q { WrittenOnce(conf, es, routed, p, q); } else { WrittenOnce(conf, es, routed, q, p); }
  }

  lemma {:induction false} DistinctOnce(s: seq<Routed>, m: Routed)
    requires forall i, j :: 0 <= i < j < |s| ==> s[i].id < s[j].id
    ensures multiset(s)[m] <= 1
  {
    if s != [] {
      var t := s[..|s| - 1];
      DistinctOnce(t, m);
      assert s == t + [s[|s| - 1]];
      if s[|s| - 1] == m { assert m !in t; }
    }
  }

  // ---------------------------------------------------------------- written in the order of routing

  lemma {:induction false} PostExtends(l: Account, log: seq<Effect>, a: u32)
    ensures l.written <= PostAll(l, log, a).written
    decreases |log|
  {
    if log != [] { PostExtends(Post(l, log[0], a), log[1..], a); }
  }

  ghost predicate Increasing(s: seq<Routed>) {
    forall i, j :: 0 <= i < j < |s| ==> s[i].id < s[j].id
  }

  lemma {:induction false} KeptIncreasing(s: seq<Routed>, gone: seq<Routed>)
    requires Increasing(s)
    ensures Increasing(Kept(s, gone))
  {
    if s != [] {
      var t := s[..|s| - 1];
      KeptIncreasing(t, gone);
      forall x | x in Kept(t, gone) ensures x.id < s[|s| - 1].id { KeptIn(t, gone, x); }
    }
  }

  /** While a node's messages are in order, its writes are numbered in increasing order. */
  lemma WrittenInOrder(conf: ConfView, es: seq<Event>, p: nat, q: nat, a: u32)
    requires Ordered(After(conf, es), a)
    requires p < q < |After(conf, es).log|
    requires var x, y := After(conf, es).log[p], After(conf, es).log[q];
             x.Written? && y.Written? && x.node == y.node == a
    ensures After(conf, es).log[p].m.id < After(conf, es).log[q].m.id
  {
    AlwaysNumbered(conf, es, a);
    var w := After(conf, es);
    hide After, PostAll;
    var l := AccountOf(w, a);
    KeptIncreasing(l.arrived, l.evicted + l.lost);
    assert Increasing(l.written + QueueOf(w.d, a));
    var k := PostAll(EMPTY, w.log[..q], a);
    PostPicks(EMPTY, w.log[..q], p, a);
    assert w.log == w.log[..q] + ([w.log[q]] + w.log[q + 1..]);
    PostAppend(EMPTY, w.log[..q], [w.log[q]] + w.log[q + 1..], a);
    PostAppend(k, [w.log[q]], w.log[q + 1..], a);
    PostOne(k, w.log[q], a);
    PostExtends(Post(k, w.log[q], a), w.log[q + 1..], a);
    assert w.log[p].m in multiset(k.written);
    var i :| 0 <= i < |k.written| && k.written[i] == w.log[p].m;
    var all := l.written + QueueOf(w.d, a);
    assert k.written + [w.log[q].m] <= l.written;
    assert all[i] == w.log[p].m && all[|k.written|] == w.log[q].m;
  }
}
