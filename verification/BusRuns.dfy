/** A pump of all buses is a run of single readings: the loops of HandleBusMessage against the two-daemon system. */
module BusRuns {
  import opened Bytes
  import opened Messages
  import opened Nodes
  import opened Bus
  import opened Pump
  import opened Framing
  import opened Links
  import opened Delivery
  import Cluster
  import Daemon

  function RunFrom(s: Pair, xs: seq<Step>): Pair {
    if xs == [] then s else Delivery.Next(RunFrom(s, xs[..|xs| - 1]), xs[|xs| - 1])
  }

  lemma {:induction false} RunAppend(s: Pair, xs: seq<Step>, ys: seq<Step>)
    ensures RunFrom(s, xs + ys) == RunFrom(RunFrom(s, xs), ys)
    decreases |ys|
  {
    hide Delivery.Next;
    if ys == [] {
      assert xs + ys == xs;
    } else {
      assert (xs + ys)[..|xs + ys| - 1] == xs + ys[..|ys| - 1];
      RunAppend(s, xs, ys[..|ys| - 1]);
    }
  }

  lemma RunOne(s: Pair, x: Step)
    ensures RunFrom(s, [x]) == Delivery.Next(s, x)
  {
    hide Delivery.Next;
    assert [x][..0] == [];
    assert RunFrom(s, []) == s;
  }

  /** What a client's bus still holds. */
  function BusOf(s: Pair, c: u32): seq<Record> {
    var t := TapeOf(s, c);
    if t.next <= |t.records| then t.records[t.next..] else []
  }

  /** A's world is where the pump is; base is the log before it. */
  ghost predicate Agree(base: seq<Effect>, s: Pair, p: Pumped) {
    s.a.d == p.d && s.a.ok == p.ok && s.a.nextId == p.next && s.a.log == base + p.log
  }

  lemma RouteAgrees(base: seq<Effect>, s: Pair, p: Pumped, m: Message, takes: bool)
    requires Agree(base, s, p) && p.ok && !IsLocal(p.d.self, m)
    ensures Agree(base, StepA(s, Cluster.Route(m, takes, true)), Deliver(p, m, takes))
  {
    hide Daemon.HandleToRemote;
  }

  /** Reading a valid record is one more message of the pump. */
  lemma ReadAgrees(base: seq<Effect>, s: Pair, p: Pumped, c: u32, takes: bool)
    requires Agree(base, s, p) && p.ok && BusOf(s, c) != [] && ValidRecord(BusOf(s, c)[0])
    ensures var t := Delivery.Next(s, ReadBus(c, takes, true));
            && Agree(base, t, Deliver(p, Stamp(p.d.self, c, BusOf(s, c)[0].msg), takes))
            && BusOf(t, c) == BusOf(s, c)[1..] && (forall d :: d != c ==> BusOf(t, d) == BusOf(s, d))
  {
    hide Cluster.Next, Deliver, ValidRecord;
    var t := TapeOf(s, c);
    var u := s.(tapes := s.tapes[c := t.(next := t.next + 1)]);
    var m := Stamp(p.d.self, c, t.records[t.next].msg);
    if IsLocal(p.d.self, m) { LocalStays(p, m, takes); } else { RouteAgrees(base, u, p, m, takes); }
  }

  lemma LocalStays(p: Pumped, m: Message, takes: bool)
    requires p.ok && IsLocal(p.d.self, m)
    ensures Deliver(p, m, takes) == p.(outputs := DeliverLocal(p.outputs, m, takes))
  {
  }

  /** The failed read that ends a client's turn consumes an invalid record, or finds nothing. */
  lemma LastReadAgrees(base: seq<Effect>, s: Pair, p: Pumped, c: u32)
    requires Agree(base, s, p) && p.ok && TapeOf(s, c).next <= |TapeOf(s, c).records|
    requires BusOf(s, c) != [] ==> !ValidRecord(BusOf(s, c)[0])
    ensures var t := Delivery.Next(s, ReadBus(c, true, true));
            && Agree(base, t, p)
            && BusOf(t, c) == (if BusOf(s, c) == [] then [] else BusOf(s, c)[1..])
            && (forall d :: d != c ==> BusOf(t, d) == BusOf(s, d))
  {
    hide Cluster.Next, ValidRecord;
  }

  /** The pump's share of one client, up to count messages. */
  lemma {:induction false} ShareIsRun(base: seq<Effect>, s: Pair, p: Pumped, c: u32, count: nat, from: nat,
                                      takes: nat -> bool)
    returns (xs: seq<Step>)
    requires Agree(base, s, p) && p.ok && count <= Leading(BusOf(s, c))
    ensures forall i :: 0 <= i < |xs| ==> xs[i].ReadBus?
    ensures var share := StampAll(p.d.self, c, Taken(BusOf(s, c)))[..count];
            var q, t := DeliverAll(p, share, from, takes), RunFrom(s, xs);
            && Agree(base, t, q) && q.d.self == p.d.self
            && (q.ok ==> BusOf(t, c) == BusOf(s, c)[count..])
            && (forall d :: d != c ==> BusOf(t, d) == BusOf(s, d))
    decreases count
  {
    hide Delivery.Next, Deliver, ValidRecord, BusOf, Agree;
    var bus := BusOf(s, c);
    var share := StampAll(p.d.self, c, Taken(bus));
    if count == 0 {
      xs := [];
      DeliverNone(p, from, takes);
      assert share[..0] == [] && bus[0..] == bus;
    } else {
      var k := count - 1;
      xs := ShareIsRun(base, s, p, c, k, from, takes);
      var q, t := DeliverAll(p, share[..k], from, takes), RunFrom(s, xs);
      DeliverStamped(p, p.d.self, c, bus, k, share[k], from, takes);
      if q.ok {
        ReadAt(bus, k);
        ReadAgrees(base, t, q, c, takes(from + k));
        SelfStays(q, share[k], takes(from + k));
        RunAppend(s, xs, [ReadBus(c, takes(from + k), true)]);
        RunOne(t, ReadBus(c, takes(from + k), true));
        assert bus[k..][1..] == bus[count..];
        xs := xs + [ReadBus(c, takes(from + k), true)];
      } else {
        StaysFailed(q, share[k], takes(from + k));
      }
    }
  }

  lemma SelfStays(p: Pumped, m: Message, takes: bool)
    ensures Deliver(p, m, takes).d.self == p.d.self
  {
    hide Daemon.HandleToRemote;
    SelfKept(p.d, Routed(p.next, m), takes);
  }

  ghost predicate TapesOk(s: Pair) { forall c :: TapeOf(s, c).next <= |TapeOf(s, c).records| }

  lemma {:induction false} TapesStayOk(s: Pair, xs: seq<Step>)
    requires TapesOk(s)
    ensures TapesOk(RunFrom(s, xs))
  {
    if xs != [] {
      hide Delivery.Next;
      TapesStayOk(s, xs[..|xs| - 1]);
      TapesStep(RunFrom(s, xs[..|xs| - 1]), xs[|xs| - 1]);
    }
  }

  lemma TapesStep(s: Pair, x: Step)
    requires TapesOk(s)
    ensures TapesOk(Delivery.Next(s, x))
  {
    hide Cluster.Next, ValidRecord, OnRead, BytesOn, HandOver;
    var t := Delivery.Next(s, x);
    forall c ensures TapeOf(t, c).next <= |TapeOf(t, c).records| {
      assert TapeOf(s, c).next <= |TapeOf(s, c).records|;
    }
  }

  /** A client's turn: its share, then the read that fails. */
  lemma TurnIsRun(base: seq<Effect>, s: Pair, p: Pumped, c: u32, from: nat, takes: nat -> bool) returns (xs: seq<Step>)
    requires Agree(base, s, p) && p.ok && TapesOk(s)
    ensures forall i :: 0 <= i < |xs| ==> xs[i].ReadBus?
    ensures var share := StampAll(p.d.self, c, Taken(BusOf(s, c)));
            var q, t := DeliverAll(p, share, from, takes), RunFrom(s, xs);
            && Agree(base, t, q) && TapesOk(t) && q.d.self == p.d.self
            && (q.ok ==> BusOf(t, c) == Left(BusOf(s, c)))
            && (forall d :: d != c ==> BusOf(t, d) == BusOf(s, d))
  {
    hide Delivery.Next, Deliver, DeliverAll, ValidRecord, BusOf, Agree, Leading, RunFrom, Left, TapeOf;
    var bus := BusOf(s, c);
    var share := StampAll(p.d.self, c, Taken(bus));
    assert share[..|share|] == share;
    xs := ShareIsRun(base, s, p, c, Leading(bus), from, takes);
    var q, t := DeliverAll(p, share, from, takes), RunFrom(s, xs);
    TapesStayOk(s, xs);
    if q.ok {
      ReadAt(bus, Leading(bus));
      LastReadAgrees(base, t, q, c);
      RunAppend(s, xs, [ReadBus(c, true, true)]);
      RunOne(t, ReadBus(c, true, true));
      xs := xs + [ReadBus(c, true, true)];
      TapesStayOk(s, xs);
    }
  }

  /** The turns of all clients in order. */
  lemma {:induction false} TurnsAreRun(base: seq<Effect>, s: Pair, p: Pumped, order: seq<u32>,
                                       buses: map<u32, seq<Record>>,
                                       from: nat, takes: nat -> bool) returns (xs: seq<Step>)
    requires Agree(base, s, p) && p.ok && TapesOk(s)
    requires forall i, j :: 0 <= i < j < |order| ==> order[i] != order[j]
    requires forall c :: c in order ==> c in buses && buses[c] == BusOf(s, c)
    ensures forall i :: 0 <= i < |xs| ==> xs[i].ReadBus?
    ensures var q, t := DeliverAll(p, Gathered(order, buses, p.d.self), from, takes), RunFrom(s, xs);
            && Agree(base, t, q)
            && (q.ok ==> forall c :: BusOf(t, c) == if c in order then Left(BusOf(s, c)) else BusOf(s, c))
    decreases |order|
  {
    hide Delivery.Next, Deliver, DeliverAll, BusOf, Agree, RunFrom, Taken, Left, TapesOk;
    if order == [] {
      xs := [];
      DeliverNone(p, from, takes);
      RunNone(s);
    } else {
      var c, rest := order[0], order[1..];
      var share := StampAll(p.d.self, c, Taken(buses[c]));
      xs := TurnIsRun(base, s, p, c, from, takes);
      var q, t := DeliverAll(p, share, from, takes), RunFrom(s, xs);
      assert forall i :: 0 <= i < |rest| ==> rest[i] == order[i + 1];
      if q.ok {
        var ys := TurnsAreRun(base, t, q, rest, buses, from + |share|, takes);
        RunAppend(s, xs, ys);
        DeliverAppend(p, share, Gathered(rest, buses, p.d.self), from, takes);
        xs := xs + ys;
      } else {
        DeliverStops(p, share, Gathered(rest, buses, p.d.self), from, takes);
      }
    }
  }

  lemma RunNone(s: Pair)
    ensures RunFrom(s, []) == s
  {
  }

  /** What HandleBusMessage does to the daemon is what some run of single readings does to A's world: the same node
      table, routing numbers, log and assertion outcome, and the same records left on every bus. */
  lemma PumpIsRun(s: Pair, buses: map<u32, seq<Record>>, outputs: map<u32, seq<Message>>, takes: nat -> bool)
    returns (xs: seq<Step>)
    requires TapesOk(s) && s.a.ok
    requires forall c :: c in buses ==> buses[c] == BusOf(s, c)
    ensures forall i :: 0 <= i < |xs| ==> xs[i].ReadBus?
    ensures var p := Pumped(s.a.d, outputs, s.a.nextId, [], [], [], true);
            var q, t := DeliverAll(p, Gathered(Ascending(buses.Keys), buses, s.a.d.self), 0, takes), RunFrom(s, xs);
            && t.a.d == q.d && t.a.nextId == q.next && t.a.log == s.a.log + q.log && (t.a.ok <==> q.ok)
            && (q.ok ==> forall c :: BusOf(t, c) == if c in buses then Drained(buses, {})[c] else BusOf(s, c))
  {
    hide DeliverAll, Gathered, Ascending, RunFrom, BusOf, Left;
    var p := Pumped(s.a.d, outputs, s.a.nextId, [], [], [], true);
    AscendingLists(buses.Keys);
    xs := TurnsAreRun(s.a.log, s, p, Ascending(buses.Keys), buses, 0, takes);
  }
}
