/** Two daemons: from a client bus of A, over A's outbound connections, cut anywhere, to a client bus of B. */
module Delivery {
  import opened Bytes
  import opened Addressing
  import opened Messages
  import opened Framing
  import opened Codecs
  import opened Nodes
  import opened Bus
  import opened Conf
  import opened Daemon
  import opened Cluster
  import opened Ledger
  import opened Links
  import Pump

  /** Everything a client of A has put on its bus, and how much of it was read. */
  datatype Tape = Tape(records: seq<Record>, next: nat)

  /** A routing to a remote node: record pos of this client's bus, when A's own address was self. */
  datatype Reading = Reading(client: u32, pos: nat, self: u32)

  /** The receiving side of one of A's connections: bytes that arrived so far, and B's stream. */
  datatype Link = Link(arrived: nat, stream: Stream)

  /** A successful WriteMessage of B: frame number at of this connection, when B's own address was self. */
  datatype Handed = Handed(conn: ConnId, at: nat, self: u32, client: u32, msg: Message)

  /** past: the events of A's world; routed: the messages A handed to HandleToRemoteMessage, by routing number,
      and where each came from; links: those of A's connections that lead to B. */
  datatype Pair = Pair(a: World, past: seq<Event>, tapes: map<u32, Tape>, routed: seq<Message>, readings: seq<Reading>,
                       links: map<ConnId, Link>, self: u32, clients: set<u32>, handed: seq<Handed>)

  function Boot(conf: ConfView): Pair { Pair(Cluster.Boot(conf), [], map[], [], [], map[], 0, {}, []) }

  datatype Step =
    | ClientWrites(c: u32, r: Record)
    | ReadBus(c: u32, writeOk: bool, sentOk: bool)
    | Event(e: Cluster.Event)
    | Arrives(conn: ConnId, n: nat, room: nat -> bool)
    | AddressOfB(self: u32)
    | ClientOfB(c: u32)

  function TapeOf(s: Pair, c: u32): Tape { if c in s.tapes then s.tapes[c] else Tape([], 0) }

  function LinkOf(s: Pair, c: ConnId): Link { if c in s.links then s.links[c] else Link(0, FRESH) }

  function StepA(s: Pair, e: Cluster.Event): Pair { s.(a := Cluster.Next(s.a, e), past := s.past + [e]) }

  /** HandleRemoteNodeMessage: a frame for another node closes the connection. */
  predicate Rejects(self: u32, frame: seq<byte>) { |frame| >= MIN_SIZE && Decode(frame).to.node != self }

  /** Frames from number at on go to the clients they are for, if there is room on the bus. */
  function HandOver(self: u32, clients: set<u32>, conn: ConnId, frames: seq<seq<byte>>, at: nat,
                    room: nat -> bool): seq<Handed>
    requires at <= |frames|
    decreases |frames| - at
  {
    if at == |frames| then []
    else
      (if |frames[at]| >= MIN_SIZE && !Rejects(self, frames[at]) && Decode(frames[at]).to.client in clients && room(at)
       then [Handed(conn, at, self, Decode(frames[at]).to.client, Decode(frames[at]))] else [])
      + HandOver(self, clients, conn, frames, at + 1, room)
  }

  /** One step of either daemon, its clients or the network; impossible ones change nothing. */
  function Next(s: Pair, x: Step): Pair {
    match x
    case ClientWrites(c, r) =>
      s.(tapes := s.tapes[c := Tape(TapeOf(s, c).records + [r], TapeOf(s, c).next)])
    case ReadBus(c, writeOk, sentOk) =>
      var t := TapeOf(s, c);
      if t.next >= |t.records| || !s.a.ok then s
      else
        var u := s.(tapes := s.tapes[c := t.(next := t.next + 1)]);
        var m := Stamp(s.a.d.self, c, t.records[t.next].msg);
        if !ValidRecord(t.records[t.next]) || Pump.IsLocal(s.a.d.self, m) then u
        else StepA(u, Route(m, writeOk, sentOk)).(routed := s.routed + [m],
                                                  readings := s.readings + [Reading(c, t.next, s.a.d.self)])
    case Event(e) => if e.Route? then s else StepA(s, e)
    case Arrives(c, n, room) =>
      var l, sent := LinkOf(s, c), BytesOn(s.a.log, c);
      if l.arrived + n > |sent| then s
      else
        var t := OnRead(MessageFormat, frame => Rejects(s.self, frame), l.stream, sent[l.arrived..l.arrived + n]);
        s.(links := s.links[c := Link(l.arrived + n, t)],
           handed := s.handed + if |l.stream.delivered| <= |t.delivered|
                                then HandOver(s.self, s.clients, c, t.delivered, |l.stream.delivered|, room) else [])
    case AddressOfB(x) => s.(self := x)
    case ClientOfB(c) => s.(clients := s.clients + {c})
  }

  function After(conf: ConfView, xs: seq<Step>): Pair {
    if xs == [] then Boot(conf) else Next(After(conf, xs[..|xs| - 1]), xs[|xs| - 1])
  }

  // ---------------------------------------------------------------- invariants

  /** The message a reading produced. */
  function MessageOf(s: Pair, g: Reading): Message
    requires g.pos < |TapeOf(s, g.client).records|
  {
    Stamp(g.self, g.client, TapeOf(s, g.client).records[g.pos].msg)
  }

  /** Routings and bus records: every routing is one record of one bus, and no record is routed twice. */
  ghost predicate ReadingsOk(s: Pair) {
    && |s.readings| == |s.routed|
    && (forall c :: TapeOf(s, c).next <= |TapeOf(s, c).records|)
    && (forall i :: 0 <= i < |s.readings| ==>
          var g := s.readings[i];
          && g.pos < TapeOf(s, g.client).next
          && ValidRecord(TapeOf(s, g.client).records[g.pos])
          && s.routed[i] == MessageOf(s, g))
    && (forall i, j :: 0 <= i < j < |s.readings| ==> s.readings[i].client == s.readings[j].client ==>
          s.readings[i].pos < s.readings[j].pos)
  }

  /** B's stream has delivered a prefix of the frames of the bytes fed to it. */
  ghost predicate Follows(s: Stream, fed: seq<byte>) {
    var w := Scan(MessageFormat, fed);
    && s.delivered <= w.frames
    && (s.status.Open? ==> s.delivered == w.frames && w.end.Waiting? && s.buffer == w.rest)
  }

  ghost predicate LinksOk(s: Pair) {
    forall c :: c in s.links ==>
      var sent := BytesOn(s.a.log, c);
      s.links[c].arrived <= |sent| && Follows(s.links[c].stream, sent[..s.links[c].arrived])
  }

  /** Every hand-over is a delivered frame addressed to B and its client at that time; frames of a connection are
      handed over in order. */
  ghost predicate HandedOk(s: Pair) {
    && (forall i :: 0 <= i < |s.handed| ==>
          var h := s.handed[i];
          && h.conn in s.links && h.at < |s.links[h.conn].stream.delivered|
          && FrameOf(h, s.links[h.conn].stream.delivered[h.at]))
    && (forall i, j :: 0 <= i < j < |s.handed| ==> s.handed[i].conn == s.handed[j].conn ==>
        s.handed[i].at < s.handed[j].at)
  }

  predicate FrameOf(h: Handed, frame: seq<byte>) {
    |frame| >= MIN_SIZE && Decode(frame) == h.msg && h.msg.to == Address(h.self, h.client)
  }

  ghost predicate Inv(conf: ConfView, s: Pair) {
    && s.a == Cluster.After(conf, s.past)
    && Faithful(s.a, s.routed) && ReadingsOk(s) && LinksOk(s) && HandedOk(s)
  }

  // ---------------------------------------------------------------- steps

  lemma TapesGrow(s: Pair, t: Pair)
    requires ReadingsOk(s) && t.readings == s.readings && t.routed == s.routed
    requires forall c :: TapeOf(s, c).records <= TapeOf(t, c).records
                         && TapeOf(s, c).next <= TapeOf(t, c).next <= |TapeOf(t, c).records|
    ensures ReadingsOk(t)
  {
    hide ValidRecord;
    forall i | 0 <= i < |t.readings|
      ensures var g := t.readings[i];
              && g.pos < TapeOf(t, g.client).next
              && ValidRecord(TapeOf(t, g.client).records[g.pos]) && t.routed[i] == MessageOf(t, g)
    {
      var g := t.readings[i];
      assert g.pos < TapeOf(s, g.client).next;
    }
  }

  lemma LinksGrow(s: Pair, t: Pair)
    requires LinksOk(s) && t.links == s.links && s.a.log <= t.a.log
    ensures LinksOk(t)
  {
    hide Follows, BytesOn;
    forall c | c in t.links ensures t.links[c].arrived <= |BytesOn(t.a.log, c)|
                                    && Follows(t.links[c].stream, BytesOn(t.a.log, c)[..t.links[c].arrived])
    {
      WrittenGrows(s.a.log, t.a.log, c);
      var x, y, n := BytesOn(s.a.log, c), BytesOn(t.a.log, c), t.links[c].arrived;
      assert n <= |x| && Follows(s.links[c].stream, x[..n]);
      assert x[..n] == y[..n];
    }
  }

  /** One event of A's world. */
  lemma StepAKeeps(conf: ConfView, s: Pair, e: Cluster.Event)
    requires Inv(conf, s) && (e.Route? ==> s.a.ok)
    ensures var t := StepA(s, e);
            && t.a == Cluster.After(conf, t.past)
            && Faithful(t.a, if e.Route? then s.routed + [e.body] else s.routed)
            && LinksOk(t)
  {
    hide ReadingsOk, HandedOk, LinksOk, Faithful, Cluster.Next, Cluster.After;
    Cluster.AfterSnoc(conf, s.past, e);
    FaithfulStep(s.a, e, s.routed);
    NextIdStep(s.a, e);
    LinksGrow(s, StepA(s, e));
  }

  lemma HandedSame(s: Pair, t: Pair)
    requires HandedOk(s) && t.links == s.links && t.handed == s.handed
    ensures HandedOk(t)
  {
    hide FrameOf;
  }

  /** The next record of a bus becomes the next routing. */
  lemma ReadOne(s: Pair, t: Pair, c: u32, m: Message)
    requires ReadingsOk(s) && TapeOf(s, c).next < |TapeOf(s, c).records|
    requires ValidRecord(TapeOf(s, c).records[TapeOf(s, c).next])
    requires t.tapes == s.tapes[c := TapeOf(s, c).(next := TapeOf(s, c).next + 1)]
    requires m == Stamp(s.a.d.self, c, TapeOf(s, c).records[TapeOf(s, c).next].msg)
    requires t.routed == s.routed + [m] && t.readings == s.readings + [Reading(c, TapeOf(s, c).next, s.a.d.self)]
    ensures ReadingsOk(t)
  {
    hide ValidRecord;
    var u := s.(tapes := t.tapes);
    TapesGrow(s, u);
    assert forall d :: TapeOf(t, d) == TapeOf(u, d);
    forall i | 0 <= i < |t.readings|
      ensures var g := t.readings[i];
              && g.pos < TapeOf(t, g.client).next
              && ValidRecord(TapeOf(t, g.client).records[g.pos]) && t.routed[i] == MessageOf(t, g)
    {
      if i < |s.readings| { assert t.readings[i] == u.readings[i] && t.routed[i] == u.routed[i]; }
    }
    forall i, j | 0 <= i < j < |t.readings| && t.readings[i].client == t.readings[j].client
      ensures t.readings[i].pos < t.readings[j].pos
    {
      assert t.readings[i] == s.readings[i];
      assert s.readings[i].pos < TapeOf(s, s.readings[i].client).next;
    }
  }

  lemma ReadBusKeeps(conf: ConfView, s: Pair, x: Step)
    requires x.ReadBus? && Inv(conf, s)
    ensures Inv(conf, Next(s, x))
  {
    hide Faithful, LinksOk, HandedOk, ReadingsOk, ValidRecord, Cluster.Next, Cluster.After;
    BusesInOrder(s);
    var t := TapeOf(s, x.c);
    var v := Next(s, x);
    if t.next < |t.records| && s.a.ok {
      var u := s.(tapes := s.tapes[x.c := t.(next := t.next + 1)]);
      var m := Stamp(s.a.d.self, x.c, t.records[t.next].msg);
      TapesGrow(s, u);
      LinksGrow(s, u);
      HandedSame(s, u);
      if ValidRecord(t.records[t.next]) && !Pump.IsLocal(s.a.d.self, m) {
        var e := Route(m, x.writeOk, x.sentOk);
        ReadOne(s, v, x.c, m);
        StepAKeeps(conf, u, e);
        LinksGrow(StepA(u, e), v);
        HandedSame(u, v);
      }
    }
  }

  lemma BusesInOrder(s: Pair)
    requires ReadingsOk(s)
    ensures forall c :: TapeOf(s, c).next <= |TapeOf(s, c).records|
  {
  }

  // ---------------------------------------------------------------- bytes arriving at B

  /** However the bytes are cut and whatever the callback closes, B's stream follows them. */
  lemma FollowsRead(closes: seq<byte> -> bool, s: Stream, fed: seq<byte>, chunk: seq<byte>)
    requires Follows(s, fed)
    ensures Follows(OnRead(MessageFormat, closes, s, chunk), fed + chunk)
    ensures s.delivered <= OnRead(MessageFormat, closes, s, chunk).delivered
  {
    hide Scan, AnyCloses;
    ScanContinues(MessageFormat, fed, chunk);
  }

  lemma ArrivesLinks(s: Pair, x: Step)
    requires x.Arrives? && LinksOk(s)
    ensures LinksOk(Next(s, x))
    ensures LinkOf(s, x.conn).stream.delivered <= LinkOf(Next(s, x), x.conn).stream.delivered
  {
    hide Follows, BytesOn, HandOver, OnRead;
    var l, sent := LinkOf(s, x.conn), BytesOn(s.a.log, x.conn);
    if l.arrived + x.n <= |sent| {
      FreshFollows();
      assert sent[..0] == [];
      assert sent[..l.arrived] + sent[l.arrived..l.arrived + x.n] == sent[..l.arrived + x.n];
      FollowsRead(frame => Rejects(s.self, frame), l.stream, sent[..l.arrived], sent[l.arrived..l.arrived + x.n]);
    }
  }

  lemma FreshFollows()
    ensures Follows(FRESH, [])
  {
  }

  /** Hand-overs of frames of this connection, in order, starting at number at. */
  ghost predicate HandsOver(hs: seq<Handed>, conn: ConnId, frames: seq<seq<byte>>, at: nat) {
    && (forall i :: 0 <= i < |hs| ==>
          hs[i].conn == conn && at <= hs[i].at < |frames| && FrameOf(hs[i], frames[hs[i].at]))
    && (forall i, j :: 0 <= i < j < |hs| ==> hs[i].at < hs[j].at)
  }

  lemma HandsOverFrom(h: Handed, ts: seq<Handed>, conn: ConnId, frames: seq<seq<byte>>)
    requires HandsOver(ts, conn, frames, h.at + 1)
    ensures HandsOver(ts, conn, frames, h.at)
    ensures h.conn == conn && h.at < |frames| && FrameOf(h, frames[h.at]) ==> HandsOver([h] + ts, conn, frames, h.at)
  {
    hide FrameOf;
  }

  lemma HandOverStep(self: u32, clients: set<u32>, conn: ConnId, frames: seq<seq<byte>>, at: nat, room: nat -> bool)
    returns (h: Handed)
    requires at < |frames|
    ensures var hs, ts := HandOver(self, clients, conn, frames, at, room),
            HandOver(self, clients, conn, frames, at + 1, room);
            h.at == at && (hs == ts || (h.conn == conn && FrameOf(h, frames[at]) && hs == [h] + ts))
  {
    hide Decode;
    var m := if |frames[at]| >= MIN_SIZE then Decode(frames[at]) else DEFAULT;
    h := Handed(conn, at, self, m.to.client, m);
  }

  lemma HandOverNone(self: u32, clients: set<u32>, conn: ConnId, frames: seq<seq<byte>>, room: nat -> bool)
    ensures HandsOver(HandOver(self, clients, conn, frames, |frames|, room), conn, frames, |frames|)
  {
  }

  lemma {:induction false} HandOverOk(self: u32, clients: set<u32>, conn: ConnId, frames: seq<seq<byte>>, at: nat,
                                      room: nat -> bool)
    requires at <= |frames|
    ensures HandsOver(HandOver(self, clients, conn, frames, at, room), conn, frames, at)
    decreases |frames| - at
  {
    hide *;
    if at == |frames| {
      HandOverNone(self, clients, conn, frames, room);
    } else {
      HandOverOk(self, clients, conn, frames, at + 1, room);
      var h := HandOverStep(self, clients, conn, frames, at, room);
      HandsOverFrom(h, HandOver(self, clients, conn, frames, at + 1, room), conn, frames);
    }
  }

  lemma HandedAppend(s: Pair, t: Pair, conn: ConnId, hs: seq<Handed>)
    requires HandedOk(s) && t.handed == s.handed + hs && conn in t.links
    requires HandsOver(hs, conn, t.links[conn].stream.delivered, |LinkOf(s, conn).stream.delivered|)
    requires forall c :: c in s.links ==> c in t.links && s.links[c].stream.delivered <= t.links[c].stream.delivered
    ensures HandedOk(t)
  {
    hide FrameOf;
    forall i | 0 <= i < |t.handed|
      ensures var h := t.handed[i];
              && h.conn in t.links && h.at < |t.links[h.conn].stream.delivered|
              && FrameOf(h, t.links[h.conn].stream.delivered[h.at])
    {
      if i < |s.handed| { assert t.handed[i] == s.handed[i]; } else { assert t.handed[i] == hs[i - |s.handed|]; }
    }
    forall i, j | 0 <= i < j < |t.handed| && t.handed[i].conn == t.handed[j].conn
      ensures t.handed[i].at < t.handed[j].at
    {
      if j < |s.handed| {
        assert t.handed[i] == s.handed[i] && t.handed[j] == s.handed[j];
      } else if i < |s.handed| {
        assert t.handed[i] == s.handed[i] && t.handed[j] == hs[j - |s.handed|];
      } else {
        assert t.handed[i] == hs[i - |s.handed|] && t.handed[j] == hs[j - |s.handed|];
      }
    }
  }

  lemma ArrivesHanded(s: Pair, x: Step)
    requires x.Arrives? && LinksOk(s) && HandedOk(s)
    ensures HandedOk(Next(s, x))
  {
    ArrivesLinks(s, x);
    hide HandsOver, OnRead, HandOver, BytesOn, LinksOk, HandedOk;
    var l, t := LinkOf(s, x.conn), Next(s, x);
    if l.arrived + x.n <= |BytesOn(s.a.log, x.conn)| {
      var frames := t.links[x.conn].stream.delivered;
      HandOverOk(s.self, s.clients, x.conn, frames, |l.stream.delivered|, x.room);
      HandedAppend(s, t, x.conn, HandOver(s.self, s.clients, x.conn, frames, |l.stream.delivered|, x.room));
    }
  }

  lemma ArrivesElsewhere(s: Pair, x: Step)
    requires x.Arrives?
    ensures var t := Next(s, x);
            t.a == s.a && t.past == s.past && t.tapes == s.tapes && t.routed == s.routed && t.readings == s.readings
  {
    hide OnRead, HandOver, BytesOn;
  }

  lemma ArrivesKeeps(conf: ConfView, s: Pair, x: Step)
    requires x.Arrives? && Inv(conf, s)
    ensures Inv(conf, Next(s, x))
  {
    hide Next, LinksOk, HandedOk, Faithful, ReadingsOk, Cluster.After;
    ArrivesLinks(s, x);
    ArrivesHanded(s, x);
    ArrivesElsewhere(s, x);
    BusesInOrder(s);
    TapesGrow(s, Next(s, x));
  }

  lemma OtherKeeps(conf: ConfView, s: Pair, x: Step)
    requires !x.ReadBus? && !x.Arrives? && Inv(conf, s)
    ensures Inv(conf, Next(s, x))
  {
    hide LinksOk, HandedOk, Faithful, Cluster.After, Cluster.Next;
    var t := Next(s, x);
    if x.Event? && !x.e.Route? {
      StepAKeeps(conf, s, x.e);
    } else {
      LinksGrow(s, t);
    }
    HandedSame(s, t);
    TapesGrow(s, t);
  }

  lemma {:induction false} Reachable(conf: ConfView, xs: seq<Step>)
    ensures Inv(conf, After(conf, xs))
  {
    if xs == [] {
      assert After(conf, xs).a.log == [];
    } else {
      hide Inv, Next;
      var s, x := After(conf, xs[..|xs| - 1]), xs[|xs| - 1];
      Reachable(conf, xs[..|xs| - 1]);
      if x.ReadBus? { ReadBusKeeps(conf, s, x); }
      else if x.Arrives? { ArrivesKeeps(conf, s, x); }
      else { OtherKeeps(conf, s, x); }
    }
  }

  // ---------------------------------------------------------------- what B hands over

  /** Clients put messages built with Default and SetData on their buses. */
  ghost predicate Built(xs: seq<Step>) {
    forall i :: 0 <= i < |xs| && xs[i].ClientWrites? ==> WellBuilt(xs[i].r.msg)
  }

  lemma TapeStep(s: Pair, x: Step, c: u32)
    ensures TapeOf(Next(s, x), c).records == TapeOf(s, c).records + if x.ClientWrites? && x.c == c then [x.r] else []
  {
    hide Cluster.Next, OnRead, HandOver, BytesOn, ValidRecord;
  }

  lemma {:induction false} TapesBuilt(conf: ConfView, xs: seq<Step>, c: u32)
    requires Built(xs)
    ensures forall i :: 0 <= i < |TapeOf(After(conf, xs), c).records| ==>
            WellBuilt(TapeOf(After(conf, xs), c).records[i].msg)
  {
    if xs != [] {
      hide WellBuilt, Next, TapeOf;
      TapesBuilt(conf, xs[..|xs| - 1], c);
      TapeStep(After(conf, xs[..|xs| - 1]), xs[|xs| - 1], c);
    }
  }

  /** So everything A routes to another node is accepted by the receiving codec. */
  lemma RoutedFramable(conf: ConfView, xs: seq<Step>, i: nat)
    requires Built(xs) && i < |After(conf, xs).routed|
    ensures Framable(After(conf, xs).routed[i])
  {
    Reachable(conf, xs);
    var s := After(conf, xs);
    hide After, LinksOk, HandedOk, Faithful;
    var g := s.readings[i];
    TapesBuilt(conf, xs, g.client);
    assert g.pos < TapeOf(s, g.client).next;
  }

  lemma WrittenRouted(conf: ConfView, xs: seq<Step>, c: ConnId, k: nat)
    requires ConfOk(conf) && k < |WrittenOn(After(conf, xs).a.log, c)|
    ensures var s := After(conf, xs); var m := WrittenOn(s.a.log, c)[k];
            m.id < |s.routed| && m.body == s.routed[m.id]
  {
    Reachable(conf, xs);
    var s := After(conf, xs);
    hide After, LinksOk, HandedOk, ReadingsOk, Faithful, Positions;
    WrittenArrived(conf, s.past, s.routed, Positions(s.a.log, c)[k]);
  }

  /** A stream that follows part of the bytes of serialised messages delivers them as they were. */
  lemma PartDelivers(bodies: seq<Message>, n: nat, t: Stream, k: nat)
    requires forall i :: 0 <= i < |bodies| ==> Framable(bodies[i])
    requires n <= |Flat(EncodeAll(bodies))| && Follows(t, Flat(EncodeAll(bodies))[..n]) && k < |t.delivered|
    ensures k < |bodies| && t.delivered[k] == Encode(bodies[k]) && Decode(Encode(bodies[k])) == bodies[k]
  {
    hide Scan, Encode, Decode;
    var sent := Flat(EncodeAll(bodies));
    assert FirstTooLong(bodies) == |bodies| && bodies[..|bodies|] == bodies;
    ScanEncoded(bodies);
    assert sent == sent[..n] + sent[n..];
    ScanContinues(MessageFormat, sent[..n], sent[n..]);
    assert t.delivered[k] == EncodeAll(bodies)[k];
    DecodeEncode(bodies[k]);
  }

  /** B's streams deliver serialised messages exactly as they were written. */
  lemma DeliveredIsWritten(conf: ConfView, xs: seq<Step>, c: ConnId, k: nat)
    requires ConfOk(conf) && Built(xs)
    requires c in After(conf, xs).links && k < |After(conf, xs).links[c].stream.delivered|
    ensures var s := After(conf, xs); var ms := WrittenOn(s.a.log, c);
            k < |ms| && s.links[c].stream.delivered[k] == Encode(ms[k].body)
            && Decode(Encode(ms[k].body)) == ms[k].body
  {
    Reachable(conf, xs);
    var s := After(conf, xs);
    var ms := WrittenOn(s.a.log, c);
    forall i | 0 <= i < |ms| ensures Framable(ms[i].body) {
      WrittenRouted(conf, xs, c, i);
      RoutedFramable(conf, xs, ms[i].id);
    }
    hide After, HandedOk, ReadingsOk, Faithful, WrittenOn, Encode, Decode, Follows, Framable;
    PartDelivers(BodiesOf(ms), s.links[c].arrived, s.links[c].stream, k);
  }

  /** The routing behind a hand-over. */
  function RoutingOf(s: Pair, h: Handed): nat
    requires h.at < |WrittenOn(s.a.log, h.conn)|
  {
    WrittenOn(s.a.log, h.conn)[h.at].id
  }

  /** Whatever B hands to client c arrived over a connection of A, was read from a client bus of A, was addressed to
      B's own address at that time and to c, and carries the data unchanged with A's own address at the time of the
      routing and the sending client as source: through connections breaking and being replaced, and any cutting. */
  lemma HandedWasSent(conf: ConfView, xs: seq<Step>, i: nat)
    requires ConfOk(conf) && Built(xs) && i < |After(conf, xs).handed|
    ensures var s := After(conf, xs); var h := s.handed[i];
            && h.at < |WrittenOn(s.a.log, h.conn)|
            && RoutingOf(s, h) < |s.readings|
            && var g := s.readings[RoutingOf(s, h)];
            && g.pos < |TapeOf(s, g.client).records|
            && var sent := TapeOf(s, g.client).records[g.pos].msg;
            && h.msg.data == sent.data && h.msg.from == Address(g.self, g.client)
            && h.msg.to == sent.to == Address(h.self, h.client)
            && h.msg == MessageOf(s, g)
  {
    Reachable(conf, xs);
    var s := After(conf, xs);
    var h := s.handed[i];
    assert h.conn in s.links && h.at < |s.links[h.conn].stream.delivered|
           && FrameOf(h, s.links[h.conn].stream.delivered[h.at]);
    DeliveredIsWritten(conf, xs, h.conn, h.at);
    WrittenRouted(conf, xs, h.conn, h.at);
    hide After, LinksOk, HandedOk, Faithful, WrittenOn, Encode, Decode;
    var id := RoutingOf(s, h);
    assert s.readings[id].pos < TapeOf(s, s.readings[id].client).next;
  }

  /** Each routing, and so each record of each bus, is handed over at most once, over whatever connections. */
  lemma HandedAtMostOnce(conf: ConfView, xs: seq<Step>, i: nat, j: nat)
    requires ConfOk(conf) && Built(xs) && i < j < |After(conf, xs).handed|
    ensures var s := After(conf, xs); var g, h := s.handed[i], s.handed[j];
            && g.at < |WrittenOn(s.a.log, g.conn)| && h.at < |WrittenOn(s.a.log, h.conn)|
            && RoutingOf(s, g) != RoutingOf(s, h) && RoutingOf(s, g) < |s.readings| && RoutingOf(s, h) < |s.readings|
            && var x, y := s.readings[RoutingOf(s, g)], s.readings[RoutingOf(s, h)];
            (x.client, x.pos) != (y.client, y.pos)
  {
    HandedWasSent(conf, xs, i);
    HandedWasSent(conf, xs, j);
    Reachable(conf, xs);
    var s := After(conf, xs);
    var g, h := s.handed[i], s.handed[j];
    hide After, LinksOk, Faithful, MessageOf, WrittenOn;
    if g.conn == h.conn { assert g.at < h.at; }
    SentOnce(conf, s.past, s.routed, g.conn, g.at, h.conn, h.at);
  }

  /** B hands over what a connection brought in the order A wrote it. When A's open connections take what they are
      offered, that is the order of the routings, and for each client of A the order of its bus. */
  lemma HandedInOrder(conf: ConfView, xs: seq<Step>, i: nat, j: nat)
    requires ConfOk(conf) && Built(xs) && i < j < |After(conf, xs).handed|
    requires After(conf, xs).handed[i].conn == After(conf, xs).handed[j].conn
    ensures var s := After(conf, xs); var g, h := s.handed[i], s.handed[j];
            && g.at < h.at < |WrittenOn(s.a.log, h.conn)|
            && RoutingOf(s, g) < |s.readings| && RoutingOf(s, h) < |s.readings|
            && (g.self == h.self && (forall k :: 0 <= k < |s.past| ==> Writable(s.past[k])) ==>
                  && RoutingOf(s, g) < RoutingOf(s, h)
                  && var x, y := s.readings[RoutingOf(s, g)], s.readings[RoutingOf(s, h)];
                  (x.client == y.client ==> x.pos < y.pos))
  {
    HandedWasSent(conf, xs, i);
    HandedWasSent(conf, xs, j);
    Reachable(conf, xs);
    var s := After(conf, xs);
    hide After, LinksOk, MessageOf, Positions, Ordered, Writable;
    var g, h := s.handed[i], s.handed[j];
    assert g.at < h.at;
    if g.self == h.self && forall k :: 0 <= k < |s.past| ==> Writable(s.past[k]) {
      var p, q := Positions(s.a.log, g.conn)[g.at], Positions(s.a.log, h.conn)[h.at];
      assert On(s.a.log[p], g.conn) && On(s.a.log[q], h.conn);
      WrittenArrived(conf, s.past, s.routed, p);
      WrittenArrived(conf, s.past, s.routed, q);
      WritableRunsAreOrdered(conf, s.past, g.self);
      WrittenInOrder(conf, s.past, p, q, g.self);
    }
  }

  /** Once every byte written on a connection has arrived and B still has it open, B has seen exactly the messages
      written on it, in order, and nothing is left over. */
  lemma AllArrives(conf: ConfView, xs: seq<Step>, c: ConnId)
    requires ConfOk(conf) && Built(xs) && c in After(conf, xs).links
    requires var s := After(conf, xs); s.links[c].arrived == |BytesOn(s.a.log, c)| && s.links[c].stream.status.Open?
    ensures var s := After(conf, xs);
            s.links[c].stream.delivered == EncodeAll(BodiesOf(WrittenOn(s.a.log, c))) && s.links[c].stream.buffer == []
  {
    Reachable(conf, xs);
    var s := After(conf, xs);
    var ms := WrittenOn(s.a.log, c);
    forall i | 0 <= i < |ms| ensures Framable(ms[i].body) {
      WrittenRouted(conf, xs, c, i);
      RoutedFramable(conf, xs, ms[i].id);
    }
    hide After, HandedOk, ReadingsOk, Faithful, WrittenOn, Framable, Follows;
    var sent := BytesOn(s.a.log, c);
    assert sent[..|sent|] == sent;
    WholeDelivers(BodiesOf(ms), s.links[c].stream);
  }

  lemma WholeDelivers(bodies: seq<Message>, t: Stream)
    requires forall i :: 0 <= i < |bodies| ==> Framable(bodies[i])
    requires Follows(t, Flat(EncodeAll(bodies))) && t.status.Open?
    ensures t.delivered == EncodeAll(bodies) && t.buffer == []
  {
    hide Scan, Encode;
    ScanEncoded(bodies);
    assert FirstTooLong(bodies) == |bodies| && bodies[..|bodies|] == bodies;
  }

  /** A delivered frame is handed over exactly when it is for this node and a present client with room. */
  lemma {:induction false} HandOverExactly(self: u32, clients: set<u32>, conn: ConnId, frames: seq<seq<byte>>, at: nat,
                                           room: nat -> bool, k: nat)
    requires at <= k < |frames|
    ensures (exists h :: h in HandOver(self, clients, conn, frames, at, room) && h.at == k)
            <==> |frames[k]| >= MIN_SIZE && Decode(frames[k]).to.node == self && Decode(frames[k]).to.client in clients
                 && room(k)
    decreases |frames| - at
  {
    hide Decode;
    HandOverOk(self, clients, conn, frames, at + 1, room);
    var hs, ts := HandOver(self, clients, conn, frames, at, room), HandOver(self, clients, conn, frames, at + 1, room);
    var m := if |frames[at]| >= MIN_SIZE then Decode(frames[at]) else DEFAULT;
    assert hs == (if |frames[at]| >= MIN_SIZE && m.to.node == self && m.to.client in clients && room(at)
                  then [Handed(conn, at, self, m.to.client, m)] else []) + ts;
    if at < k {
      HandOverExactly(self, clients, conn, frames, at + 1, room, k);
    } else if |frames[at]| >= MIN_SIZE && m.to.node == self && m.to.client in clients && room(at) {
      assert hs[0] in hs && hs[0].at == k;
    }
  }

  /** HandleRemoteMessage applied to one frame after another. */
  function Received(outputs: map<u32, seq<Message>>, self: u32, frames: seq<seq<byte>>, at: nat, room: nat -> bool)
    : map<u32, seq<Message>>
    requires at <= |frames|
    decreases |frames| - at
  {
    if at == |frames| then outputs
    else Received(if |frames[at]| < MIN_SIZE || Rejects(self, frames[at]) then outputs
                  else Pump.DeliverLocal(outputs, Decode(frames[at]), room(at)), self, frames, at + 1, room)
  }

  /** The messages handed to client c. */
  function HandedTo(hs: seq<Handed>, c: u32): seq<Message> {
    if hs == [] then [] else (if hs[0].client == c then [hs[0].msg] else []) + HandedTo(hs[1..], c)
  }

  /** The hand-overs are what the output buses of B's clients receive. */
  lemma {:induction false} HandOverIsReceived(outputs: map<u32, seq<Message>>, self: u32, conn: ConnId,
                                              frames: seq<seq<byte>>,
                                              at: nat, room: nat -> bool, c: u32)
    requires at <= |frames| && c in outputs
    ensures var r := Received(outputs, self, frames, at, room);
            r.Keys == outputs.Keys && r[c] == outputs[c]
                + HandedTo(HandOver(self, outputs.Keys, conn, frames, at, room), c)
    decreases |frames| - at
  {
    hide Decode;
    if at < |frames| {
      var next := if |frames[at]| < MIN_SIZE || Rejects(self, frames[at]) then outputs
                  else Pump.DeliverLocal(outputs, Decode(frames[at]), room(at));
      assert next.Keys == outputs.Keys;
      HandOverIsReceived(next, self, conn, frames, at + 1, room, c);
      var hs := HandOver(self, outputs.Keys, conn, frames, at, room);
      var ts := HandOver(self, outputs.Keys, conn, frames, at + 1, room);
      if hs != ts {
        var h := Handed(conn, at, self, Decode(frames[at]).to.client, Decode(frames[at]));
        assert hs == [h] + ts && hs[1..] == ts;
      }
    }
  }
}
