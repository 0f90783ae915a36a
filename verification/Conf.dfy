/** The resolve server's configuration: a table of nodes with an index by node address and one by network address. */
module Conf {
  import opened Bytes
  import opened Addressing
  import opened Nodes

  /** One parsed <node> element. */
  datatype Entry = Entry(path: seq<byte>, ip: seq<byte>, port: int)

  datatype ConfNode = ConfNode(addr: u32, path: seq<byte>, net: NetAddress)

  function NodeOf(e: Entry): ConfNode { ConfNode(Create(e.path).node, e.path, NetAddress(e.ip, e.port)) }

  /** nodes_ and cache_nodes_; a pointer into nodes_ is the key of the node it points to. */
  datatype ConfView = ConfView(nodes: map<u32, ConfNode>, byNet: map<NetAddress, u32>)

  function ByAddress(c: ConfView, a: u32): Option<ConfNode> {
    if a in c.nodes then Some(c.nodes[a]) else None
  }

  function ByNetAddress(c: ConfView, k: NetAddress): Option<ConfNode> {
    if k in c.byNet then ByAddress(c, c.byNet[k]) else None
  }

  /** Linear search in file order. */
  function FindAddress(es: seq<Entry>, a: u32): Option<ConfNode> {
    if es == [] then None else if NodeOf(es[0]).addr == a then Some(NodeOf(es[0])) else FindAddress(es[1..], a)
  }

  function FindNet(es: seq<Entry>, k: NetAddress): Option<ConfNode> {
    if es == [] then None else if NodeOf(es[0]).net == k then Some(NodeOf(es[0])) else FindNet(es[1..], k)
  }

  ghost predicate DistinctAddresses(es: seq<Entry>) {
    forall i, j :: 0 <= i < j < |es| ==> NodeOf(es[i]).addr != NodeOf(es[j]).addr
  }

  /** Every pointer is valid, and both lookups are linear searches of the entries. */
  ghost predicate Indexes(es: seq<Entry>, c: ConfView) {
    && (forall k :: k in c.byNet ==> c.byNet[k] in c.nodes)
    && (forall a :: ByAddress(c, a) == FindAddress(es, a))
    && (forall k :: ByNetAddress(c, k) == FindNet(es, k))
  }

  lemma {:induction false} FindAppend(es: seq<Entry>, e: Entry, a: u32, k: NetAddress)
    ensures FindAddress(es + [e], a) == if FindAddress(es, a).Some? then FindAddress(es, a)
                                        else if NodeOf(e).addr == a then Some(NodeOf(e)) else None
    ensures FindNet(es + [e], k) == if FindNet(es, k).Some? then FindNet(es, k)
                                    else if NodeOf(e).net == k then Some(NodeOf(e)) else None
  {
    hide NodeOf;
    if es != [] {
      assert (es + [e])[1..] == es[1..] + [e];
      FindAppend(es[1..], e, a, k);
    }
  }

  lemma {:induction false} FindAddressExactly(es: seq<Entry>, a: u32)
    ensures FindAddress(es, a).Some? <==> exists i :: 0 <= i < |es| && NodeOf(es[i]).addr == a
  {
    hide NodeOf;
    if es != [] {
      FindAddressExactly(es[1..], a);
      if FindAddress(es, a).Some? && NodeOf(es[0]).addr != a {
        var i :| 0 <= i < |es[1..]| && NodeOf(es[1..][i]).addr == a;
        assert NodeOf(es[i + 1]).addr == a;
      }
      if i :| 0 < i < |es| && NodeOf(es[i]).addr == a {
        assert NodeOf(es[1..][i - 1]).addr == a;
      }
    }
  }

  lemma AddIndexes(es: seq<Entry>, e: Entry, c: ConfView)
    requires Indexes(es, c) && NodeOf(e).addr !in c.nodes
    ensures Indexes(es + [e], WithEntry(c, e))
  {
    var n, d := NodeOf(e), WithEntry(c, e);
    forall a ensures ByAddress(d, a) == FindAddress(es + [e], a) { FindAppend(es, e, a, n.net); }
    forall k ensures ByNetAddress(d, k) == FindNet(es + [e], k) {
      FindAppend(es, e, n.addr, k);
      assert k in c.byNet ==> ByNetAddress(c, k).Some?;
    }
  }

  lemma NothingIndexed()
    ensures Indexes([], ConfView(map[], map[]))
  {
  }

  lemma IndexedAddress(es: seq<Entry>, c: ConfView, a: u32)
    requires Indexes(es, c)
    ensures ByAddress(c, a) == FindAddress(es, a)
  {
  }

  /** emplace: the first entry for a network address stays. */
  function WithEntry(c: ConfView, e: Entry): ConfView {
    var n := NodeOf(e);
    ConfView(c.nodes[n.addr := n], if n.net in c.byNet then c.byNet else c.byNet[n.net := n.addr])
  }

  class ResolveServerConf {
    var nodes: map<u32, ConfNode>
    var cacheNodes: map<NetAddress, u32>

    ghost function View(): ConfView reads this { ConfView(nodes, cacheNodes) }

    constructor ()
      ensures View() == ConfView(map[], map[])
    {
      nodes, cacheNodes := map[], map[];
    }

    /** The node loop of CreateFromFile. It fails exactly when two entries hash to one node address. */
    static method CreateFromEntries(es: seq<Entry>) returns (conf: ResolveServerConf?)
      ensures conf != null <==> DistinctAddresses(es)
      ensures conf != null ==> fresh(conf) && Indexes(es, conf.View())
    {
      hide NodeOf, Indexes, FindAddress, FindNet;
      conf := new ResolveServerConf();
      NothingIndexed();
      var i := 0;
      while i < |es|
        invariant 0 <= i <= |es| && fresh(conf)
        invariant DistinctAddresses(es[..i]) && Indexes(es[..i], conf.View())
        invariant conf != null
      {
        var node := NodeOf(es[i]);
        FindAddressExactly(es[..i], node.addr);
        IndexedAddress(es[..i], conf.View(), node.addr);
        assert es[..i + 1] == es[..i] + [es[i]];
        if node.addr in conf.nodes {
          var j :| 0 <= j < i && NodeOf(es[..i][j]).addr == node.addr;
          assert NodeOf(es[j]).addr == NodeOf(es[i]).addr;
          return null;
        }
        AddIndexes(es[..i], es[i], conf.View());
        conf.nodes := conf.nodes[node.addr := node];
        if node.net !in conf.cacheNodes {
          conf.cacheNodes := conf.cacheNodes[node.net := node.addr];
        }
        i := i + 1;
      }
      assert es[..i] == es;
    }

    method GetNodeInfoByNetAddress(k: NetAddress) returns (n: Option<ConfNode>)
      requires forall k :: k in cacheNodes ==> cacheNodes[k] in nodes
      ensures n == ByNetAddress(View(), k)
    {
      n := if k in cacheNodes then Some(nodes[cacheNodes[k]]) else None;
    }

    method GetNodeInfoByNodeAddress(a: u32) returns (n: Option<ConfNode>)
      ensures n == ByAddress(View(), a)
    {
      n := if a in nodes then Some(nodes[a]) else None;
    }
  }

  /** What the resolve server may rely on in any loaded configuration. */
  ghost predicate ConfOk(c: ConfView) {
    && (forall a :: a in c.nodes ==> c.nodes[a].addr == a)
    && (forall k :: k in c.byNet ==> c.byNet[k] in c.nodes && c.nodes[c.byNet[k]].net == k)
  }

  lemma {:induction false} FoundMatches(es: seq<Entry>, a: u32, k: NetAddress)
    ensures FindAddress(es, a).Some? ==> FindAddress(es, a).value.addr == a
    ensures FindNet(es, k).Some? ==> FindNet(es, k).value.net == k
    ensures FindNet(es, k).Some? ==> exists i :: 0 <= i < |es| && FindNet(es, k).value == NodeOf(es[i])
  {
    hide NodeOf;
    if es != [] {
      FoundMatches(es[1..], a, k);
      if FindNet(es[1..], k).Some? {
        var i :| 0 <= i < |es[1..]| && FindNet(es[1..], k).value == NodeOf(es[1..][i]);
        assert es[1..][i] == es[i + 1];
      }
    }
  }

  lemma LoadedConfOk(es: seq<Entry>, c: ConfView)
    requires Indexes(es, c)
    ensures ConfOk(c)
  {
    forall a | a in c.nodes ensures c.nodes[a].addr == a {
      FoundMatches(es, a, NetAddress([], 0));
      assert ByAddress(c, a) == FindAddress(es, a);
    }
    forall k | k in c.byNet ensures c.nodes[c.byNet[k]].net == k {
      FoundMatches(es, 0, k);
      assert ByNetAddress(c, k) == FindNet(es, k);
    }
  }

  /** Every entry is stored under the hash of its own path, with its own path, ip and port. */
  lemma StoredAsWritten(es: seq<Entry>, c: ConfView, i: nat)
    requires Indexes(es, c) && DistinctAddresses(es) && i < |es|
    ensures var a := Create(es[i].path).node;
            a in c.nodes && c.nodes[a] == ConfNode(a, es[i].path, NetAddress(es[i].ip, es[i].port))
  {
    hide Create;
    FoundIs(es, i);
    assert ByAddress(c, NodeOf(es[i]).addr) == FindAddress(es, NodeOf(es[i]).addr);
  }

  lemma {:induction false} FoundIs(es: seq<Entry>, i: nat)
    requires DistinctAddresses(es) && i < |es|
    ensures FindAddress(es, NodeOf(es[i]).addr) == Some(NodeOf(es[i]))
  {
    hide NodeOf;
    if i > 0 {
      assert forall j, k :: 0 <= j < k < |es[1..]| ==> es[1..][j] == es[j + 1] && es[1..][k] == es[k + 1];
      FoundIs(es[1..], i - 1);
    }
  }

  /** The node found for an ip and a port is that of the first entry with both. */
  lemma FirstWithNet(es: seq<Entry>, c: ConfView, ip: seq<byte>, port: int, i: nat)
    requires Indexes(es, c) && i < |es| && es[i].ip == ip && es[i].port == port
    requires forall j :: 0 <= j < i ==> es[j].ip != ip || es[j].port != port
    ensures ByNetAddress(c, NetAddress(ip, port))
            == Some(ConfNode(Create(es[i].path).node, es[i].path, NetAddress(ip, port)))
  {
    hide Create;
    FoundFirst(es, NetAddress(ip, port), i);
    assert ByNetAddress(c, NetAddress(ip, port)) == FindNet(es, NetAddress(ip, port));
  }

  lemma {:induction false} FoundFirst(es: seq<Entry>, k: NetAddress, i: nat)
    requires i < |es| && NodeOf(es[i]).net == k && forall j :: 0 <= j < i ==> NodeOf(es[j]).net != k
    ensures FindNet(es, k) == Some(NodeOf(es[i]))
  {
    hide NodeOf;
    if i > 0 { FoundFirst(es[1..], k, i - 1); }
  }
}
