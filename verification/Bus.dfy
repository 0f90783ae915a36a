/** Local clients: their input and output buses, and what one pump of the input buses takes from them. */
module Bus {
  import opened Bytes
  import opened Addressing
  import opened Messages

  /** A record of an input bus: its length, and the message it reads as. */
  datatype Record = Record(len: int, msg: Message)

  predicate ValidRecord(r: Record) { r.len >= MIN_SIZE && Size(r.msg) < MAX_DATA_SIZE }

  /** A message built by the client library is taken exactly when it and its header are below the limit. */
  lemma BuiltRecordTaken(m: Message)
    requires WellBuilt(m)
    ensures ValidRecord(Record(Size(m), m)) <==> 24 + |m.data| < 65436
    ensures !ValidRecord(Record(23, m))
  {
  }

  /** Number of records before the first invalid one. */
  function Leading(bus: seq<Record>): (k: nat)
    ensures k <= |bus|
    ensures forall i :: 0 <= i < k ==> ValidRecord(bus[i])
    ensures k < |bus| ==> !ValidRecord(bus[k])
  {
    if bus == [] || !ValidRecord(bus[0]) then 0 else 1 + Leading(bus[1..])
  }

  /** What draining a bus until the first failed read routes, and what it leaves: the invalid record is consumed. */
  function Taken(bus: seq<Record>): (ms: seq<Message>)
    ensures |ms| == Leading(bus)
    ensures forall i :: 0 <= i < |ms| ==> ms[i] == bus[i].msg
  {
    seq(Leading(bus), i requires 0 <= i < Leading(bus) => bus[i].msg)
  }

  function Left(bus: seq<Record>): seq<Record> {
    if Leading(bus) < |bus| then bus[Leading(bus) + 1..] else []
  }

  /** The source address a routed message carries. */
  function Stamp(self: u32, client: u32, m: Message): Message { m.(from := Address(self, client)) }

  function StampAll(self: u32, client: u32, ms: seq<Message>): (r: seq<Message>)
    ensures |r| == |ms|
    ensures forall i :: 0 <= i < |ms| ==> r[i] == Stamp(self, client, ms[i])
  {
    seq(|ms|, i requires 0 <= i < |ms| => Stamp(self, client, ms[i]))
  }

  /** Reading record k when the k before it were valid. */
  lemma ReadAt(bus: seq<Record>, k: nat)
    requires k <= Leading(bus)
    ensures k < Leading(bus) <==> bus[k..] != [] && ValidRecord(bus[k..][0])
    ensures k == Leading(bus) ==> Left(bus) == if bus[k..] == [] then [] else bus[k..][1..]
  {
  }

  class ClientInfo {
    const name: seq<byte>
    const addr: Address
    var input: seq<Record>
    var output: seq<Message>

    /** The buses may be restored ones that still hold records. */
    constructor (name: seq<byte>, addr: Address, input: seq<Record>, output: seq<Message>)
      ensures this.name == name && this.addr == addr && this.input == input && this.output == output
    {
      this.name, this.addr, this.input, this.output := name, addr, input, output;
    }

    /** A truncated or over-long record is consumed but ends the reading like an empty bus. */
    method ReadMessage() returns (m: Option<Message>)
      modifies this`input
      ensures m.Some? <==> old(input) != [] && ValidRecord(old(input)[0])
      ensures m.Some? ==> m.value == old(input)[0].msg
      ensures input == if old(input) == [] then [] else old(input)[1..]
    {
      if input == [] { return None; }
      var r := input[0];
      input := input[1..];
      if r.len < MIN_SIZE { return None; }
      if Size(r.msg) >= MAX_DATA_SIZE { return None; }
      m := Some(r.msg);
    }

    /** ok: whether the output bus has room. */
    method WriteMessage(m: Message, ok: bool)
      modifies this`output
      ensures output == if ok then old(output) + [m] else old(output)
    {
      if ok { output := output + [m]; }
    }
  }

  // ---------------------------------------------------------------- repeated pumps

  function Invalid(bus: seq<Record>): nat {
    if bus == [] then 0 else Invalid(bus[1..]) + if ValidRecord(bus[0]) then 0 else 1
  }

  function LeftAfter(bus: seq<Record>, pumps: nat): seq<Record>
    decreases pumps
  {
    if pumps == 0 then bus else LeftAfter(Left(bus), pumps - 1)
  }

  function TakenBy(bus: seq<Record>, pumps: nat): seq<Message>
    decreases pumps
  {
    if pumps == 0 then [] else Taken(bus) + TakenBy(Left(bus), pumps - 1)
  }

  /** The messages of all valid records, in order. */
  function ValidMessages(bus: seq<Record>): seq<Message> {
    if bus == [] then [] else (if ValidRecord(bus[0]) then [bus[0].msg] else []) + ValidMessages(bus[1..])
  }

  lemma {:induction false} PumpOnce(bus: seq<Record>)
    ensures ValidMessages(bus) == Taken(bus) + ValidMessages(Left(bus))
    ensures Invalid(bus) == Invalid(Left(bus)) + if Leading(bus) < |bus| then 1 else 0
    ensures bus != [] ==> |Left(bus)| < |bus|
  {
    hide ValidRecord, Taken, Left, Leading;
    if bus != [] && ValidRecord(bus[0]) {
      PumpOnce(bus[1..]);
      FirstTaken(bus);
      Regroup([bus[0].msg], Taken(bus[1..]), ValidMessages(Left(bus)));
    } else {
      NoneTaken(bus);
    }
  }

  lemma Regroup<T>(s: seq<T>, t: seq<T>, u: seq<T>)
    ensures s + (t + u) == (s + t) + u
  {
  }

  lemma FirstTaken(bus: seq<Record>)
    requires bus != [] && ValidRecord(bus[0])
    ensures Leading(bus) == 1 + Leading(bus[1..]) && Left(bus) == Left(bus[1..])
    ensures Taken(bus) == [bus[0].msg] + Taken(bus[1..])
    ensures bus[1..] == [] ==> Left(bus) == []
  {
    hide ValidRecord;
  }

  lemma NoneTaken(bus: seq<Record>)
    requires bus == [] || !ValidRecord(bus[0])
    ensures Leading(bus) == 0 && Left(bus) == (if bus == [] then [] else bus[1..]) && Taken(bus) == []
  {
    hide ValidRecord;
  }

  /** With no new input, one more pump than there are invalid records empties a bus, and by then every valid record
      has been routed exactly once, in order; fewer pumps than invalid records leave something behind. */
  lemma {:induction false} PumpsEmpty(bus: seq<Record>, pumps: nat)
    ensures pumps > Invalid(bus) ==> LeftAfter(bus, pumps) == [] && TakenBy(bus, pumps) == ValidMessages(bus)
    ensures pumps < Invalid(bus) ==> LeftAfter(bus, pumps) != []
    decreases pumps
  {
    if pumps > 0 {
      PumpOnce(bus);
      PumpsEmpty(Left(bus), pumps - 1);
      if Leading(bus) == |bus| {
        EmptyStays(pumps - 1);
      }
    }
  }

  lemma {:induction false} EmptyStays(pumps: nat)
    ensures LeftAfter([], pumps) == [] && TakenBy([], pumps) == []
  {
    if pumps > 0 {
      assert Left([]) == [] && Taken([]) == [];
      EmptyStays(pumps - 1);
    }
  }
}
