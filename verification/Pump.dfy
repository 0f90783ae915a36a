/** One pump of all client buses as a function: what is routed, and what routing it does. */
module Pump {
  import opened Bytes
  import opened Addressing
  import opened Messages
  import opened Nodes
  import opened Bus
  import Daemon

  /** The iteration order of std::map: ascending keys. */
  ghost function Least(s: set<u32>): (x: u32)
    requires s != {}
    ensures x in s && forall y :: y in s ==> x <= y
    decreases |s|
  {
    var x :| x in s;
    if s == {x} then x
    else
      assert |s - {x}| == |s| - 1;
      var y := Least(s - {x});
      assert forall z :: z in s ==> z == x || z in s - {x};
      if x <= y then x else y
  }

  ghost function Ascending(s: set<u32>): (order: seq<u32>)
    decreases |s|
  {
    if s == {} then []
    else
      assert |s - {Least(s)}| < |s|;
      [Least(s)] + Ascending(s - {Least(s)})
  }

  lemma AscendingStep(s: set<u32>, x: u32)
    requires x in s && forall y :: y in s ==> x <= y
    ensures Ascending(s) == [x] + Ascending(s - {x})
  {
    assert x == Least(s);
  }

  /** Each key once, in increasing order. */
  lemma {:induction false} AscendingLists(s: set<u32>)
    ensures forall x :: x in Ascending(s) <==> x in s
    ensures forall i, j :: 0 <= i < j < |Ascending(s)| ==> Ascending(s)[i] < Ascending(s)[j]
    decreases |s|
  {
    if s != {} {
      var x := Least(s);
      assert |s - {x}| < |s|;
      AscendingLists(s - {x});
      var t := Ascending(s - {x});
      var all := [x] + t;
      assert Ascending(s) == all;
      hide Ascending, Least;
      forall j | 1 <= j < |all| ensures x < all[j] {
        assert all[j] == t[j - 1] && t[j - 1] in t;
      }
      forall i, j | 0 <= i < j < |all| ensures all[i] < all[j] {
        if i > 0 { assert all[i] == t[i - 1] && all[j] == t[j - 1]; }
      }
    }
  }

  /** What the buses of these clients give, client by client, with the source stamped. */
  function Gathered(order: seq<u32>, buses: map<u32, seq<Record>>, self: u32): seq<Message> {
    if order == [] then []
    else
      var share := if order[0] in buses then StampAll(self, order[0], Taken(buses[order[0]])) else [];
      share + Gathered(order[1..], buses, self)
  }

  /** The node table, the output buses, the number of the next routing to a remote node, what was asked of the
      network and logged, and whether no assertion failed. */
  datatype Pumped = Pumped(d: Daemon.State, outputs: map<u32, seq<Message>>, next: nat, dials: seq<NetAddress>,
                           lookups: seq<Daemon.Lookup>, log: seq<Effect>, ok: bool)

  /** Server::HandleToLocalMessage and the delivery in HandleRemoteMessage. */
  function DeliverLocal(outputs: map<u32, seq<Message>>, m: Message, room: bool): map<u32, seq<Message>> {
    if m.to.client in outputs && room then outputs[m.to.client := outputs[m.to.client] + [m]] else outputs
  }

  predicate IsLocal(self: u32, m: Message) { m.to.node == self || m.to.node == 0 }

  function Only<T>(x: Option<T>): seq<T> { if x.Some? then [x.value] else [] }

  /** Routing one message; nothing happens after a failed assertion. takes: whether the bus or connection takes it. */
  function Deliver(p: Pumped, m: Message, takes: bool): Pumped {
    if !p.ok then p
    else if IsLocal(p.d.self, m) then p.(outputs := DeliverLocal(p.outputs, m, takes))
    else
      var o := Daemon.HandleToRemote(p.d, Routed(p.next, m), takes);
      Pumped(o.state, p.outputs, p.next + 1, p.dials + Only(o.dial), p.lookups + Only(o.lookup), p.log + o.log, o.ok)
  }

  /** takes(from) is for the first of the messages. */
  function DeliverAll(p: Pumped, ms: seq<Message>, from: nat, takes: nat -> bool): Pumped {
    if ms == [] then p
    else
      var n := |ms| - 1;
      Deliver(DeliverAll(p, ms[..n], from, takes), ms[n], takes(from + n))
  }

  lemma DeliverSnoc(p: Pumped, ms: seq<Message>, m: Message, from: nat, takes: nat -> bool)
    ensures DeliverAll(p, ms + [m], from, takes) == Deliver(DeliverAll(p, ms, from, takes), m, takes(from + |ms|))
  {
    hide Deliver;
    assert (ms + [m])[..|ms|] == ms;
  }

  /** One more message of a client's share. */
  lemma DeliverStamped(p: Pumped, self: u32, c: u32, bus: seq<Record>, k: nat, m: Message, from: nat,
                       takes: nat -> bool)
    requires k < Leading(bus) && m == Stamp(self, c, bus[k].msg)
    ensures var ms := StampAll(self, c, Taken(bus));
            && m.from.client == c
            && DeliverAll(p, ms[..k + 1], from, takes)
               == Deliver(DeliverAll(p, ms[..k], from, takes), m, takes(from + k))
  {
    hide Deliver, DeliverAll;
    var ms := StampAll(self, c, Taken(bus));
    assert ms[..k + 1] == ms[..k] + [m];
    DeliverSnoc(p, ms[..k], m, from, takes);
  }

  lemma DeliverNone(p: Pumped, from: nat, takes: nat -> bool)
    ensures DeliverAll(p, [], from, takes) == p
  {
  }

  function Bare(p: Pumped): Pumped { p.(dials := [], lookups := [], log := []) }

  /** q's requests and log come after p's. */
  function Onto(p: Pumped, q: Pumped): Pumped {
    q.(dials := p.dials + q.dials, lookups := p.lookups + q.lookups, log := p.log + q.log)
  }

  /** Routing does not look at what was asked and logged before. */
  lemma DeliverAdds(p: Pumped, m: Message, takes: bool)
    ensures Deliver(p, m, takes) == Onto(p, Deliver(Bare(p), m, takes))
  {
    hide Daemon.HandleToRemote, DeliverLocal;
  }

  lemma {:induction false} DeliverAllAdds(p: Pumped, ms: seq<Message>, from: nat, takes: nat -> bool)
    ensures DeliverAll(p, ms, from, takes) == Onto(p, DeliverAll(Bare(p), ms, from, takes))
  {
    hide Deliver;
    if ms != [] {
      var n := |ms| - 1;
      var q, r := DeliverAll(Bare(p), ms[..n], from, takes), DeliverAll(p, ms[..n], from, takes);
      DeliverAllAdds(p, ms[..n], from, takes);
      DeliverAdds(q, ms[n], takes(from + n));
      DeliverAdds(r, ms[n], takes(from + n));
      assert Bare(q) == Bare(r);
    }
  }

  lemma {:induction false} DeliverAppend(p: Pumped, ms: seq<Message>, ns: seq<Message>, from: nat, takes: nat -> bool)
    ensures DeliverAll(p, ms + ns, from, takes) == DeliverAll(DeliverAll(p, ms, from, takes), ns, from + |ms|, takes)
    decreases |ns|
  {
    hide Deliver;
    if ns == [] {
      assert ms + ns == ms;
    } else {
      var front := ns[..|ns| - 1];
      assert ms + ns == (ms + front) + [ns[|ns| - 1]];
      DeliverAppend(p, ms, front, from, takes);
      DeliverSnoc(p, ms + front, ns[|ns| - 1], from, takes);
    }
  }

  lemma {:induction false} DeliverStops(p: Pumped, ms: seq<Message>, rest: seq<Message>, from: nat, takes: nat -> bool)
    requires !DeliverAll(p, ms, from, takes).ok
    ensures DeliverAll(p, ms + rest, from, takes) == DeliverAll(p, ms, from, takes)
    decreases |rest|
  {
    if rest == [] {
      assert ms + rest == ms;
    } else {
      var front := rest[..|rest| - 1];
      assert ms + rest == (ms + front) + [rest[|rest| - 1]];
      DeliverStops(p, ms, front, from, takes);
      DeliverSnoc(p, ms + front, rest[|rest| - 1], from, takes);
    }
  }

  /** Buses when the clients in rest have not been drained yet. */
  function Drained(buses: map<u32, seq<Record>>, rest: set<u32>): map<u32, seq<Record>> {
    map c | c in buses :: if c in rest then buses[c] else Left(buses[c])
  }

  lemma DrainedStep(buses: map<u32, seq<Record>>, rest: set<u32>, c: u32)
    requires c in rest && c in buses
    ensures Drained(buses, rest)[c] == buses[c]
    ensures Drained(buses, rest)[c := Left(buses[c])] == Drained(buses, rest - {c})
  {
    hide Left;
  }

  lemma DrainedStart(buses: map<u32, seq<Record>>)
    ensures Drained(buses, buses.Keys) == buses
  {
    hide Left;
  }

  lemma GatheredStep(rest: set<u32>, c: u32, buses: map<u32, seq<Record>>, self: u32)
    requires c in rest && c in buses && forall y :: y in rest ==> c <= y
    ensures Gathered(Ascending(rest), buses, self)
            == StampAll(self, c, Taken(buses[c])) + Gathered(Ascending(rest - {c}), buses, self)
  {
    hide Taken, Ascending;
    AscendingStep(rest, c);
  }

  lemma GatheredNone(buses: map<u32, seq<Record>>, self: u32)
    ensures Gathered(Ascending({}), buses, self) == []
  {
  }

  /** A pump that has routed sent goes on with share; a failure stops it there. */
  lemma DeliverShare(p0: Pumped, sent: seq<Message>, share: seq<Message>, from: nat, takes: nat -> bool, p: Pumped,
                     q: Pumped)
    requires p == DeliverAll(p0, sent, from, takes)
    requires q == DeliverAll(Bare(p), share, from + |sent|, takes)
    ensures Onto(p, q) == DeliverAll(p0, sent + share, from, takes)
    ensures !q.ok ==> forall ms :: sent + share <= ms ==> Onto(p, q) == DeliverAll(p0, ms, from, takes)
  {
    hide Deliver, DeliverAll;
    DeliverAllAdds(p, share, from + |sent|, takes);
    DeliverAppend(p0, sent, share, from, takes);
    if !q.ok {
      forall ms | sent + share <= ms ensures DeliverAll(p0, ms, from, takes)
          == DeliverAll(p0, sent + share, from, takes) {
        assert ms == (sent + share) + ms[|sent + share|..];
        DeliverStops(p0, sent + share, ms[|sent + share|..], from, takes);
      }
    }
  }

  /** A pump of these buses has routed sent; the clients in rest are still to come. */
  ghost predicate Pumping(p0: Pumped, buses: map<u32, seq<Record>>, from: nat, takes: nat -> bool,
                          p: Pumped, sent: seq<Message>, rest: set<u32>) {
    && p.ok && p.d.self == p0.d.self && rest <= buses.Keys
    && p == DeliverAll(p0, sent, from, takes)
    && Gathered(Ascending(buses.Keys), buses, p0.d.self) == sent + Gathered(Ascending(rest), buses, p0.d.self)
  }

  lemma PumpingStart(p0: Pumped, buses: map<u32, seq<Record>>, from: nat, takes: nat -> bool)
    requires p0.ok
    ensures Pumping(p0, buses, from, takes, p0, [], buses.Keys)
  {
    hide Gathered, Ascending;
    DeliverNone(p0, from, takes);
  }

  lemma PumpingEnd(p0: Pumped, buses: map<u32, seq<Record>>, from: nat, takes: nat -> bool, p: Pumped,
                   sent: seq<Message>)
    requires Pumping(p0, buses, from, takes, p, sent, {})
    ensures sent == Gathered(Ascending(buses.Keys), buses, p0.d.self) && p == DeliverAll(p0, sent, from, takes)
  {
    hide Gathered, Ascending, DeliverAll;
    GatheredNone(buses, p0.d.self);
  }

  lemma PumpingStep(p0: Pumped, buses: map<u32, seq<Record>>, from: nat, takes: nat -> bool, p: Pumped,
                    sent: seq<Message>,
                    rest: set<u32>, c: u32, count: nat, q: Pumped)
    requires Pumping(p0, buses, from, takes, p, sent, rest)
    requires c in rest && forall y :: y in rest ==> c <= y
    requires var share := StampAll(p0.d.self, c, Taken(buses[c]));
             && count <= |share| && (q.ok ==> count == |share|)
             && q == DeliverAll(Pumped(p.d, p.outputs, p.next, [], [], [], true), share[..count], from + |sent|, takes)
             && q.d.self == p.d.self
    ensures var r := Pumped(q.d, q.outputs, q.next, p.dials + q.dials, p.lookups + q.lookups, p.log + q.log, q.ok);
            if q.ok then
              Pumping(p0, buses, from, takes, r, sent + StampAll(p0.d.self, c, Taken(buses[c])), rest - {c})
            else
              r == DeliverAll(p0, Gathered(Ascending(buses.Keys), buses, p0.d.self), from, takes)
  {
    hide Gathered, Ascending, DeliverAll, Taken;
    var share := StampAll(p0.d.self, c, Taken(buses[c]));
    GatheredStep(rest, c, buses, p0.d.self);
    DeliverShare(p0, sent, share[..count], from, takes, p, q);
    if q.ok {
      assert share[..count] == share;
    } else {
      assert sent + share[..count] <= Gathered(Ascending(buses.Keys), buses, p0.d.self);
    }
  }

  /** What ReadMessage takes from a bus, and what it leaves. */
  function ReadFrom(bus: seq<Record>): Option<Message> {
    if bus != [] && ValidRecord(bus[0]) then Some(bus[0].msg) else None
  }

  function Rest(bus: seq<Record>): seq<Record> { if bus == [] then [] else bus[1..] }

  /** count messages of client c's bus have been routed and m was read next. */
  ghost predicate Draining(p0: Pumped, self: u32, c: u32, inputs: map<u32, seq<Record>>, from: nat, takes: nat -> bool,
                           p: Pumped, count: nat, m: Option<Message>, now: map<u32, seq<Record>>) {
    && c in inputs && p.ok && count <= |inputs[c]|
    && var bus := inputs[c]; var share := StampAll(self, c, Taken(bus));
    && count <= |share| && p == DeliverAll(p0, share[..count], from, takes)
    && m == ReadFrom(bus[count..]) && now == inputs[c := Rest(bus[count..])]
  }

  lemma DrainingStart(p0: Pumped, self: u32, c: u32, inputs: map<u32, seq<Record>>, from: nat, takes: nat -> bool,
                      m: Option<Message>, now: map<u32, seq<Record>>)
    requires p0.ok && c in inputs && m == ReadFrom(inputs[c]) && now == inputs[c := Rest(inputs[c])]
    ensures Draining(p0, self, c, inputs, from, takes, p0, 0, m, now)
  {
    hide ReadFrom, Rest, DeliverAll, Taken;
    DeliverNone(p0, from, takes);
    assert inputs[c][0..] == inputs[c];
    assert StampAll(self, c, Taken(inputs[c]))[..0] == [];
  }

  /** Routing m is the next message of the share. */
  lemma DrainingOne(p0: Pumped, self: u32, c: u32, inputs: map<u32, seq<Record>>, from: nat, takes: nat -> bool,
                    p: Pumped, count: nat, m: Option<Message>, now: map<u32, seq<Record>>)
    requires Draining(p0, self, c, inputs, from, takes, p, count, m, now) && m.Some?
    ensures c in inputs && count < |inputs[c]| && count < |StampAll(self, c, Taken(inputs[c]))|
    ensures Stamp(self, c, m.value).from.client == c
    ensures Deliver(p, Stamp(self, c, m.value), takes(from + count)) ==
            DeliverAll(p0, StampAll(self, c, Taken(inputs[c]))[..count + 1], from, takes)
  {
    hide Deliver, DeliverAll, Rest, ValidRecord;
    var bus := inputs[c];
    ReadAt(bus, count);
    DeliverStamped(p0, self, c, bus, count, Stamp(self, c, m.value), from, takes);
  }

  lemma DrainingStep(p0: Pumped, self: u32, c: u32, inputs: map<u32, seq<Record>>, from: nat, takes: nat -> bool,
                     p: Pumped, count: nat, m: Option<Message>, now: map<u32, seq<Record>>,
                     next: Option<Message>, after: map<u32, seq<Record>>)
    requires Draining(p0, self, c, inputs, from, takes, p, count, m, now) && m.Some?
    requires next == ReadFrom(now[c]) && after == now[c := Rest(now[c])]
    requires Deliver(p, Stamp(self, c, m.value), takes(from + count)).ok
    ensures Draining(p0, self, c, inputs, from, takes, Deliver(p, Stamp(self, c, m.value), takes(from + count)),
                     count + 1, next, after)
  {
    hide Deliver, DeliverAll, ValidRecord, Taken;
    DrainingOne(p0, self, c, inputs, from, takes, p, count, m, now);
    assert inputs[c][count..][1..] == inputs[c][count + 1..];
  }

  lemma DrainingEnd(p0: Pumped, self: u32, c: u32, inputs: map<u32, seq<Record>>, from: nat, takes: nat -> bool,
                    p: Pumped, count: nat, now: map<u32, seq<Record>>)
    requires Draining(p0, self, c, inputs, from, takes, p, count, None, now)
    ensures count == |StampAll(self, c, Taken(inputs[c]))| && now == inputs[c := Left(inputs[c])]
    ensures p == DeliverAll(p0, StampAll(self, c, Taken(inputs[c]))[..count], from, takes)
  {
    hide DeliverAll, ValidRecord, Left;
    ReadAt(inputs[c], count);
  }

  lemma SelfKept(s: Daemon.State, m: Routed, takes: bool)
    ensures Daemon.HandleToRemote(s, m, takes).state.self == s.self
  {
  }

  /** The messages with this client as source. */
  function FromClient(ms: seq<Message>, c: u32): seq<Message> {
    if ms == [] then [] else (if ms[0].from.client == c then [ms[0]] else []) + FromClient(ms[1..], c)
  }

  lemma {:induction false} FromAppend(ms: seq<Message>, ns: seq<Message>, c: u32)
    ensures FromClient(ms + ns, c) == FromClient(ms, c) + FromClient(ns, c)
  {
    if ms == [] {
      assert ms + ns == ns;
    } else {
      var head := if ms[0].from.client == c then [ms[0]] else [];
      assert (ms + ns)[1..] == ms[1..] + ns && (ms + ns)[0] == ms[0];
      FromAppend(ms[1..], ns, c);
      assert FromClient(ms + ns, c) == head + (FromClient(ms[1..], c) + FromClient(ns, c));
      assert FromClient(ms, c) == head + FromClient(ms[1..], c);
    }
  }

  lemma {:induction false} FromStamped(ms: seq<Message>, d: u32, c: u32)
    requires forall i :: 0 <= i < |ms| ==> ms[i].from.client == d
    ensures FromClient(ms, c) == if c == d then ms else []
  {
    if ms != [] { FromStamped(ms[1..], d, c); }
  }

  lemma {:induction false} GatheredPerClient(order: seq<u32>, buses: map<u32, seq<Record>>, self: u32, c: u32)
    requires forall i, j :: 0 <= i < j < |order| ==> order[i] != order[j]
    ensures FromClient(Gathered(order, buses, self), c) ==
            if c in order && c in buses then StampAll(self, c, Taken(buses[c])) else []
  {
    if order != [] {
      var d := order[0];
      var mine := if d in buses then StampAll(self, d, Taken(buses[d])) else [];
      GatheredPerClient(order[1..], buses, self, c);
      FromAppend(mine, Gathered(order[1..], buses, self), c);
      FromStamped(mine, d, c);
      assert forall i :: 0 <= i < |order[1..]| ==> order[1..][i] == order[i + 1];
    }
  }

  /** Of every client a pump routes exactly the valid records before its first invalid one, once each and in order,
      with the daemon's and the client's own address as source. */
  lemma PumpRoutesExactly(buses: map<u32, seq<Record>>, self: u32, c: u32)
    ensures FromClient(Gathered(Ascending(buses.Keys), buses, self), c) ==
            if c in buses then StampAll(self, c, Taken(buses[c])) else []
    ensures c in buses ==>
              var share := FromClient(Gathered(Ascending(buses.Keys), buses, self), c);
              && |share| == Leading(buses[c])
              && forall i :: 0 <= i < |share| ==> share[i] == buses[c][i].msg.(from := Address(self, c))
  {
    hide Gathered, Ascending, Taken, FromClient;
    AscendingLists(buses.Keys);
    GatheredPerClient(Ascending(buses.Keys), buses, self, c);
  }

  // ---------------------------------------------------------------- what stays and what leaves

  /** Of these messages, those for local client c that found room: addressed to node 0 or to the own address. */
  function KeptFor(ms: seq<Message>, self: u32, c: u32, from: nat, takes: nat -> bool): seq<Message> {
    if ms == [] then []
    else
      var n := |ms| - 1;
      KeptFor(ms[..n], self, c, from, takes)
      + if (ms[n].to.node == 0 || ms[n].to.node == self) && ms[n].to.client == c && takes(from + n) then [ms[n]] else []
  }

  /** Those for other nodes, numbered. */
  function SentOut(ms: seq<Message>, self: u32, next: nat): seq<Routed> {
    if ms == [] then []
    else
      var n := |ms| - 1;
      var front := SentOut(ms[..n], self, next);
      if ms[n].to.node != 0 && ms[n].to.node != self then front + [Routed(next + |front|, ms[n])] else front
  }

  /** What a log says was routed. */
  function ArrivedIn(log: seq<Effect>): seq<Routed> {
    if log == [] then []
    else
      var x := log[|log| - 1];
      ArrivedIn(log[..|log| - 1]) + if x.Arrived? then [x.m] else []
  }

  lemma {:induction false} ArrivedAppend(log: seq<Effect>, more: seq<Effect>)
    ensures ArrivedIn(log + more) == ArrivedIn(log) + ArrivedIn(more)
    decreases |more|
  {
    if more == [] {
      assert log + more == log;
    } else {
      assert (log + more)[..|log + more| - 1] == log + more[..|more| - 1];
      ArrivedAppend(log, more[..|more| - 1]);
    }
  }

  lemma {:induction false} NoneArrived(log: seq<Effect>)
    requires forall i :: 0 <= i < |log| ==> !log[i].Arrived?
    ensures ArrivedIn(log) == []
  {
    if log != [] { NoneArrived(log[..|log| - 1]); }
  }

  lemma RoutesOnce(s: Daemon.State, m: Routed, writeOk: bool)
    ensures ArrivedIn(Daemon.HandleToRemote(s, m, writeOk).log) == [m]
  {
    var log := Daemon.HandleToRemote(s, m, writeOk).log;
    assert log == [Arrived(m.body.to.node, m)] + log[1..];
    assert forall i :: 1 <= i < |log| ==> !log[i].Arrived?;
    hide Daemon.HandleToRemote;
    assert [log[0]][..0] == [];
    ArrivedAppend([log[0]], log[1..]);
    NoneArrived(log[1..]);
  }

  /** A message for this node or node 0 goes to its client if it is there and has room, and does nothing else. */
  lemma StaysHere(p: Pumped, m: Message, takes: bool)
    requires p.ok && (m.to.node == 0 || m.to.node == p.d.self)
    ensures Deliver(p, m, takes) == p.(outputs :=
              if m.to.client in p.outputs && takes
              then p.outputs[m.to.client := p.outputs[m.to.client] + [m]] else p.outputs)
  {
    hide Daemon.HandleToRemote;
  }

  /** A message for any other node touches no output bus and is routed exactly once. */
  lemma LeavesHere(p: Pumped, m: Message, takes: bool)
    requires p.ok && m.to.node != 0 && m.to.node != p.d.self
    ensures var q := Deliver(p, m, takes);
            && q.outputs == p.outputs && q.next == p.next + 1 && q.d.self == p.d.self
            && ArrivedIn(q.log) == ArrivedIn(p.log) + [Routed(p.next, m)]
    ensures var q, o := Deliver(p, m, takes), Daemon.HandleToRemote(p.d, Routed(p.next, m), takes);
            && q.d == o.state && q.log == p.log + o.log && (q.ok <==> o.ok)
            && q.dials == (if o.dial.Some? then p.dials + [o.dial.value] else p.dials)
            && q.lookups == (if o.lookup.Some? then p.lookups + [o.lookup.value] else p.lookups)
  {
    RoutesOnce(p.d, Routed(p.next, m), takes);
    SelfKept(p.d, Routed(p.next, m), takes);
    hide Daemon.HandleToRemote, ArrivedIn;
    ArrivedAppend(p.log, Daemon.HandleToRemote(p.d, Routed(p.next, m), takes).log);
  }

  /** A message to a client's bare name stays on this daemon, whatever its own address is. */
  lemma NamedClientStays(p: Pumped, name: seq<byte>, m: Message, takes: bool)
    requires p.ok && SLASH !in name && m.to == Create(name)
    ensures var c := HashOf(name);
            Deliver(p, m, takes) == p.(outputs :=
              if c in p.outputs && takes then p.outputs[c := p.outputs[c] + [m]] else p.outputs)
  {
    hide HashOf;
    assert [] + name == name;
    CreateByParts([], name);
    StaysHere(p, m, takes);
  }

  /** A whole pump: every local client's bus gets exactly the messages for it that found room, in order; every message
      for another node is routed exactly once, in order; if there is none the daemon's state does not change. */
  ghost predicate Delivers(p: Pumped, ms: seq<Message>, from: nat, takes: nat -> bool, q: Pumped) {
    && q.d.self == p.d.self && q.outputs.Keys == p.outputs.Keys
    && (forall c :: c in p.outputs ==> q.outputs[c] == p.outputs[c] + KeptFor(ms, p.d.self, c, from, takes))
    && q.next == p.next + |SentOut(ms, p.d.self, p.next)|
    && ArrivedIn(q.log) == ArrivedIn(p.log) + SentOut(ms, p.d.self, p.next)
    && (SentOut(ms, p.d.self, p.next) == [] ==>
          q.d == p.d && q.log == p.log && q.dials == p.dials && q.lookups == p.lookups)
  }

  lemma {:induction false} PumpDelivers(p: Pumped, ms: seq<Message>, from: nat, takes: nat -> bool)
    requires p.ok && DeliverAll(p, ms, from, takes).ok
    ensures Delivers(p, ms, from, takes, DeliverAll(p, ms, from, takes))
  {
    hide Deliver, ArrivedIn, Delivers;
    if ms == [] {
      DeliversNone(p, from, takes);
    } else {
      var n := |ms| - 1;
      var q := DeliverAll(p, ms[..n], from, takes);
      if !q.ok { StaysFailed(q, ms[n], takes(from + n)); }
      PumpDelivers(p, ms[..n], from, takes);
      DeliversOne(p, ms, from, takes, q);
    }
  }

  lemma DeliversNone(p: Pumped, from: nat, takes: nat -> bool)
    ensures Delivers(p, [], from, takes, p)
  {
  }

  lemma DeliversOne(p: Pumped, ms: seq<Message>, from: nat, takes: nat -> bool, q: Pumped)
    requires q.ok && ms != [] && Delivers(p, ms[..|ms| - 1], from, takes, q)
    ensures Delivers(p, ms, from, takes, Deliver(q, ms[|ms| - 1], takes(from + |ms| - 1)))
  {
    hide Deliver, ArrivedIn, Daemon.HandleToRemote;
    var n := |ms| - 1;
    var k := takes(from + n);
    if ms[n].to.node == 0 || ms[n].to.node == p.d.self {
      StaysHere(q, ms[n], k);
      assert SentOut(ms, p.d.self, p.next) == SentOut(ms[..n], p.d.self, p.next);
    } else {
      LeavesHere(q, ms[n], k);
      assert SentOut(ms, p.d.self, p.next) == SentOut(ms[..n], p.d.self, p.next) + [Routed(q.next, ms[n])];
      hide SentOut;
    }
  }

  lemma StaysFailed(p: Pumped, m: Message, takes: bool)
    requires !p.ok
    ensures Deliver(p, m, takes) == p
  {
  }

  // ---------------------------------------------------------------- repeated pumps of all buses

  /** What pumps calls leave on the buses, with no new input. */
  function DrainedAfter(buses: map<u32, seq<Record>>, pumps: nat): (left: map<u32, seq<Record>>)
    ensures left.Keys == buses.Keys
    decreases pumps
  {
    if pumps == 0 then buses else DrainedAfter(Drained(buses, {}), pumps - 1)
  }

  lemma {:induction false} DrainedEach(buses: map<u32, seq<Record>>, pumps: nat)
    ensures forall c :: c in buses ==> DrainedAfter(buses, pumps)[c] == LeftAfter(buses[c], pumps)
    decreases pumps
  {
    hide Left;
    if pumps > 0 {
      DrainedEach(Drained(buses, {}), pumps - 1);
    }
  }

  lemma {:induction false} DrainedOnce(buses: map<u32, seq<Record>>, pumps: nat)
    ensures Drained(DrainedAfter(buses, pumps), {}) == DrainedAfter(buses, pumps + 1)
    decreases pumps
  {
    hide Drained;
    if pumps > 0 {
      DrainedOnce(Drained(buses, {}), pumps - 1);
    } else {
      assert DrainedAfter(Drained(buses, {}), 0) == Drained(buses, {});
    }
  }

  /** The largest number of invalid records on any bus. */
  ghost function MostInvalid(buses: map<u32, seq<Record>>): (n: nat)
    ensures forall c :: c in buses ==> Invalid(buses[c]) <= n
    ensures n > 0 ==> exists c :: c in buses && Invalid(buses[c]) == n
    decreases |buses|
  {
    if buses == map[] then 0
    else
      var c :| c in buses;
      assert buses == (buses - {c})[c := buses[c]];
      var n := MostInvalid(buses - {c});
      if n < Invalid(buses[c]) then Invalid(buses[c]) else n
  }

  /** With no new input, one more pump than the largest number of invalid records on any bus empties all of them, and
      fewer than that number leave a record on some bus. */
  lemma PumpsEmptyAll(buses: map<u32, seq<Record>>, pumps: nat)
    ensures pumps > MostInvalid(buses) ==> forall c :: c in buses ==> DrainedAfter(buses, pumps)[c] == []
    ensures pumps < MostInvalid(buses) ==> exists c :: c in buses && DrainedAfter(buses, pumps)[c] != []
  {
    hide DrainedAfter, LeftAfter, TakenBy, MostInvalid;
    DrainedEach(buses, pumps);
    forall c | c in buses
      ensures pumps > Invalid(buses[c]) ==> LeftAfter(buses[c], pumps) == []
      ensures pumps < Invalid(buses[c]) ==> LeftAfter(buses[c], pumps) != []
    {
      PumpsEmpty(buses[c], pumps);
    }
  }

  /** What the next pump after some pumps routes for a client, and that these shares make up what PumpsEmpty says. */
  lemma NextShare(buses: map<u32, seq<Record>>, pumps: nat, self: u32, c: u32)
    requires c in buses
    ensures FromClient(Gathered(Ascending(buses.Keys), DrainedAfter(buses, pumps), self), c)
            == StampAll(self, c, Taken(LeftAfter(buses[c], pumps)))
    ensures TakenBy(buses[c], pumps + 1) == TakenBy(buses[c], pumps) + Taken(LeftAfter(buses[c], pumps))
  {
    hide Gathered, Ascending, FromClient, DrainedAfter, Taken, LeftAfter, TakenBy;
    DrainedEach(buses, pumps);
    PumpRoutesExactly(DrainedAfter(buses, pumps), self, c);
    TakenNext(buses[c], pumps);
  }

  lemma {:induction false} TakenNext(bus: seq<Record>, pumps: nat)
    ensures TakenBy(bus, pumps + 1) == TakenBy(bus, pumps) + Taken(LeftAfter(bus, pumps))
    decreases pumps
  {
    hide Taken, Left;
    if pumps > 0 {
      TakenNext(Left(bus), pumps - 1);
      Regroup(Taken(bus), TakenBy(Left(bus), pumps - 1), Taken(LeftAfter(bus, pumps)));
    } else {
      assert TakenBy(bus, 1) == Taken(bus) + TakenBy(Left(bus), 0);
    }
  }
}
