/** A remote node: its bounded cache of undelivered messages, its resolve state and its connection. */
module Nodes {
  import opened Bytes
  import opened Messages

  datatype NetAddress = NetAddress(ip: seq<byte>, port: int)

  type ConnId = nat

  /** A message together with the number of the routing that handled it. */
  datatype Routed = Routed(id: nat, body: Message)

  // ---------------------------------------------------------------- the cache queue

  const MAX_CACHED := 128

  datatype Pushed<M> = Pushed(queue: seq<M>, dropped: Option<M>)

  /** A full queue gives up its oldest entry. */
  function PushOn<M>(q: seq<M>, max: nat, m: M): Pushed<M>
    requires max > 0
  {
    if |q| == max then Pushed(q[1..] + [m], Some(q[0])) else Pushed(q + [m], None)
  }

  function LastN<M>(s: seq<M>, n: nat): seq<M> { if |s| <= n then s else s[|s| - n..] }

  function PushAll<M>(q: seq<M>, max: nat, ms: seq<M>): seq<M>
    requires max > 0
  {
    if ms == [] then q else PushOn(PushAll(q, max, ms[..|ms| - 1]), max, ms[|ms| - 1]).queue
  }

  lemma PushKeepsLast<M>(s: seq<M>, max: nat, m: M)
    requires max > 0
    ensures PushOn(LastN(s, max), max, m).queue == LastN(s + [m], max)
  {
  }

  /** From empty, the queue holds exactly the last max messages pushed. */
  lemma {:induction false} QueueIsLastPushed<M>(max: nat, ms: seq<M>)
    requires max > 0
    ensures PushAll([], max, ms) == LastN(ms, max)
  {
    if ms != [] {
      var front := ms[..|ms| - 1];
      QueueIsLastPushed(max, front);
      PushKeepsLast(front, max, ms[|ms| - 1]);
      assert ms == front + [ms[|ms| - 1]];
    }
  }

  class MessageCacheQueue<M> {
    const maxSize: nat
    ghost const owner: object
    var messages: seq<M>

    ghost predicate Valid()
      reads this
    {
      maxSize > 0 && |messages| <= maxSize
    }

    constructor (maxSize: nat, ghost owner: object)
      requires maxSize > 0
      ensures Valid() && this.maxSize == maxSize && messages == [] && this.owner == owner
    {
      this.maxSize := maxSize;
      this.owner := owner;
      messages := [];
    }

    method Front() returns (m: Option<M>)
      ensures m == if messages == [] then None else Some(messages[0])
    {
      m := if messages == [] then None else Some(messages[0]);
    }

    method PopFront() returns (m: M)
      requires messages != []
      modifies this`messages
      ensures [m] + messages == old(messages)
    {
      m := messages[0];
      messages := messages[1..];
    }

    /** dropSlot: the caller passed somewhere to put the evicted message. Without one a full queue fails the
        size assertion, hence the precondition. */
    method Push(m: M, dropSlot: bool) returns (dropped: Option<M>)
      requires Valid() && (dropSlot || |messages| < maxSize)
      modifies this`messages
      ensures Valid()
      ensures Pushed(messages, dropped) == PushOn(old(messages), maxSize, m)
    {
      dropped := None;
      if |messages| == maxSize && dropSlot {
        var oldest := PopFront();
        dropped := Some(oldest);
      }
      messages := messages + [m];
    }
  }

  // ---------------------------------------------------------------- the node

  datatype ResolveState = Resolving | Resolved | NotResolved

  datatype NodeView = NodeView(connecting: bool, state: ResolveState, net: Option<NetAddress>,
                               queue: seq<Routed>, conn: Option<ConnId>)

  const NEW_NODE := NodeView(false, NotResolved, None, [], None)

  /** What happens to messages and nodes, as seen from outside. */
  datatype Effect =
    | Arrived(node: u32, m: Routed)
    | Written(node: u32, conn: ConnId, m: Routed)
    | Cached(node: u32, m: Routed)
    | Evicted(node: u32, m: Routed)
    | TriggerLost(node: u32, m: Routed)
    | Flushed(node: u32)
    | LookedUp(node: u32)
    | Dialled(node: u32)

  /** Node::CacheMessage with a drop slot. */
  function WithCached(n: NodeView, m: Routed): NodeView {
    n.(queue := PushOn(n.queue, MAX_CACHED, m).queue)
  }

  function CacheLog(a: u32, n: NodeView, m: Routed): seq<Effect> {
    var d := PushOn(n.queue, MAX_CACHED, m).dropped;
    (if d.Some? then [Evicted(a, d.value)] else []) + [Cached(a, m)]
  }

  function WrittenLog(a: u32, c: ConnId, ms: seq<Routed>): (log: seq<Effect>)
    ensures |log| == |ms|
    ensures forall i :: 0 <= i < |ms| ==> log[i] == Written(a, c, ms[i])
  {
    seq(|ms|, i requires 0 <= i < |ms| => Written(a, c, ms[i]))
  }

  /** Number of messages a flush writes when the connection accepts write number i just when accepts(i). */
  function Accepted(accepts: nat -> bool, n: nat): (k: nat)
    ensures k <= n
    ensures k < n ==> !accepts(k)
    ensures forall i :: 0 <= i < k ==> accepts(i)
  {
    if n == 0 then 0
    else
      var k := Accepted(accepts, n - 1);
      if k == n - 1 && accepts(n - 1) then n else k
  }

  class Node {
    const addr: u32
    var connecting: bool
    var state: ResolveState
    var net: Option<NetAddress>
    var queue: MessageCacheQueue?<Routed>
    var conn: Option<ConnId>

    ghost function Repr(): set<object>
      reads this
    {
      if queue == null then {this} else {this, queue}
    }

    ghost predicate Valid()
      reads this, Repr()
    {
      queue != null ==> queue.Valid() && queue.maxSize == MAX_CACHED && queue.owner == this
    }

    ghost function View(): NodeView
      reads this, Repr()
    {
      NodeView(connecting, state, net, if queue == null then [] else queue.messages, conn)
    }

    constructor (addr: u32)
      ensures Valid() && this.addr == addr && View() == NEW_NODE && Repr() == {this}
    {
      this.addr := addr;
      connecting, state, net, queue, conn := false, NotResolved, None, null, None;
    }

    predicate Connected() reads this { conn.Some? }

    method HasCachedMessage() returns (has: bool)
      ensures has <==> View().queue != []
    {
      has := queue != null && queue.messages != [];
    }

    /** The log entries name what was cached and what was evicted. */
    method CacheMessage(m: Routed) returns (log: seq<Effect>)
      requires Valid()
      modifies Repr()
      ensures Valid() && fresh(Repr() - old(Repr()))
      ensures View() == WithCached(old(View()), m)
      ensures log == CacheLog(addr, old(View()), m)
    {
      if queue == null {
        queue := new MessageCacheQueue<Routed>(MAX_CACHED, this);
      }
      var dropped := queue.Push(m, true);
      log := (if dropped.Some? then [Evicted(addr, dropped.value)] else []) + [Cached(addr, m)];
    }

    /** writeOk: what the connection's Write returns, if it gets that far. */
    method SendMessage(m: Routed, writeOk: bool) returns (log: seq<Effect>)
      requires Valid()
      modifies Repr()
      ensures Valid() && fresh(Repr() - old(Repr()))
      ensures View() == if old(conn).Some? && writeOk then old(View()) else WithCached(old(View()), m)
      ensures log == if old(conn).Some? && writeOk then [Written(addr, old(conn).value, m)]
                     else CacheLog(addr, old(View()), m)
    {
      if conn.Some? {
        if writeOk {
          return [Written(addr, conn.value, m)];
        }
      }
      log := CacheMessage(m);
    }

    /** Node::FlushMessage: writes the longest prefix before the first refused write, keeps exactly the rest,
        and succeeds when nothing is left. */
    method FlushMessage(c: ConnId, accepts: nat -> bool) returns (log: seq<Effect>, done: bool)
      requires Valid() && queue != null
      modifies queue`messages
      ensures Valid()
      ensures var q := old(View()).queue; var k := Accepted(accepts, |q|);
              View() == old(View()).(queue := q[k..]) && log == WrittenLog(addr, c, q[..k]) && (done <==> k == |q|)
    {
      ghost var q := queue.messages;
      ghost var i := 0;
      log := [];
      var m := queue.Front();
      while m.Some?
        invariant Valid() && unchanged(this)
        invariant 0 <= i <= |q| && queue.messages == q[i..]
        invariant m == if i == |q| then None else Some(q[i])
        invariant forall j :: 0 <= j < i ==> accepts(j)
        invariant |log| == i && log == WrittenLog(addr, c, q[..i])
        decreases |q| - i
      {
        if !accepts(|log|) { break; }
        log := log + [Written(addr, c, m.value)];
        var _ := queue.PopFront();
        i := i + 1;
        m := queue.Front();
      }
      done := queue.messages == [];
    }

    /** Node::SetConnection; done is false when its assertion on the flush fails. */
    method SetConnection(c: ConnId, accepts: nat -> bool) returns (log: seq<Effect>, done: bool)
      requires Valid()
      modifies Repr()
      ensures Valid() && Repr() == old(Repr())
      ensures var q := old(View()).queue; var k := Accepted(accepts, |q|);
              && (done <==> k == |q|)
              && View() == old(View()).(queue := q[k..], conn := if done then Some(c) else old(View()).conn)
              && log == WrittenLog(addr, c, q[..k]) + (if done then [Flushed(addr)] else [])
    {
      log, done := [], true;
      var has := HasCachedMessage();
      if has {
        log, done := FlushMessage(c, accepts);
        if !done { return; }
      }
      conn := Some(c);
      log := log + [Flushed(addr)];
    }

    method SetConnecting(b: bool)
      modifies this`connecting
      ensures View() == old(View()).(connecting := b)
    {
      connecting := b;
    }

    method SetResolveState(s: ResolveState)
      modifies this`state
      ensures View() == old(View()).(state := s)
    {
      state := s;
    }

    method SetNetAddress(k: NetAddress)
      modifies this`net, this`state
      ensures View() == old(View()).(net := Some(k), state := Resolved)
    {
      net := Some(k);
      state := Resolved;
    }

    method ClearConnection()
      modifies this`conn
      ensures View() == old(View()).(conn := None)
    {
      conn := None;
    }
  }
}
