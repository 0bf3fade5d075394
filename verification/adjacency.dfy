/**
 * The value held by a `Wgraph` of either header: for every key of the
 * table, the node's tag, its payload (the size, or the link and the size)
 * and the tags of its neighbours in the order `Node::add` appended them.
 * Both headers' classes are proved against these functions.
 */
module Adjacency {

  datatype NodeValue<P> = NodeValue(tag: string, info: P, adj: seq<string>)

  type GraphValue<P> = map<string, NodeValue<P>>

  /** The node stored under a key carries that key as its tag. */
  ghost predicate Keyed<P>(g: GraphValue<P>) {
    forall k :: k in g ==> g[k].tag == k
  }

  /** Every neighbour named in an adjacency list is a key of the table. */
  ghost predicate Closed<P>(g: GraphValue<P>) {
    forall k, i :: k in g && 0 <= i < |g[k].adj| ==> g[k].adj[i] in g
  }

  /**
   * `Wgraph::add`: `std::map::insert` of a fresh node with no neighbours,
   * which does nothing when the key is already present.
   */
  function AddValue<P>(g: GraphValue<P>, t: string, info: P): (r: GraphValue<P>)
    ensures r.Keys == g.Keys + {t}
    ensures forall k :: k in g ==> r[k] == g[k]
    ensures t !in g ==> r[t] == NodeValue(t, info, [])
  {
    if t in g then g else g[t := NodeValue(t, info, [])]
  }

  /**
   * `Wgraph::connect`: append `t2` to `t1`'s list, then `t1` to `t2`'s
   * list (so `t1 == t2` appends the node to its own list twice).
   */
  function ConnectValue<P>(g: GraphValue<P>, t1: string, t2: string): (r: GraphValue<P>)
    requires t1 in g && t2 in g
  {
    var g1 := g[t1 := g[t1].(adj := g[t1].adj + [t2])];
    g1[t2 := g1[t2].(adj := g1[t2].adj + [t1])]
  }

  /**
   * What `connect` changes: nothing but the two lists, each growing by the
   * other endpoint; a self-connection grows one list by two entries.
   */
  lemma ConnectEffect<P>(g: GraphValue<P>, t1: string, t2: string)
    requires t1 in g && t2 in g
    ensures ConnectValue(g, t1, t2).Keys == g.Keys
    ensures forall k :: k in g ==>
              ConnectValue(g, t1, t2)[k].tag == g[k].tag && ConnectValue(g, t1, t2)[k].info == g[k].info
    ensures forall k :: k in g && k != t1 && k != t2 ==> ConnectValue(g, t1, t2)[k] == g[k]
    ensures t1 != t2 ==>
              ConnectValue(g, t1, t2)[t1].adj == g[t1].adj + [t2] &&
              ConnectValue(g, t1, t2)[t2].adj == g[t2].adj + [t1]
    ensures t1 == t2 ==> ConnectValue(g, t1, t2)[t1].adj == g[t1].adj + [t1, t1]
  {
    if t1 == t2 {
      assert g[t1].adj + [t1] + [t1] == g[t1].adj + [t1, t1];
    }
  }

  /** `g[k].adj` is a prefix of `h[k].adj` for every key of `g`, and tags and payloads agree. */
  ghost predicate Grows<P>(g: GraphValue<P>, h: GraphValue<P>) {
    g.Keys <= h.Keys &&
    forall k :: k in g ==> h[k].tag == g[k].tag && h[k].info == g[k].info &&
                           |g[k].adj| <= |h[k].adj| && g[k].adj == h[k].adj[..|g[k].adj|]
  }

  lemma GrowsTransitive<P>(a: GraphValue<P>, b: GraphValue<P>, c: GraphValue<P>)
    requires Grows(a, b) && Grows(b, c)
    ensures Grows(a, c)
  {
    forall k | k in a
      ensures c[k].tag == a[k].tag && c[k].info == a[k].info
      ensures |a[k].adj| <= |c[k].adj| && a[k].adj == c[k].adj[..|a[k].adj|]
    {
      assert b[k].adj[..|a[k].adj|] == c[k].adj[..|b[k].adj|][..|a[k].adj|];
    }
  }

  /** `add` and `connect` only ever extend adjacency lists. */
  lemma AddConnectGrow<P>(g: GraphValue<P>, t: string, info: P, t1: string, t2: string)
    ensures Grows(g, AddValue(g, t, info))
    ensures t1 in g && t2 in g ==> Grows(g, ConnectValue(g, t1, t2))
  {
    if t1 in g && t2 in g {
      ConnectEffect(g, t1, t2);
      var r := ConnectValue(g, t1, t2);
      forall k | k in g
        ensures |g[k].adj| <= |r[k].adj| && g[k].adj == r[k].adj[..|g[k].adj|]
      {
        if k == t1 || k == t2 {
          assert r[k].adj[..|g[k].adj|] == g[k].adj;
        }
      }
    }
  }

  /** Both operations keep every node under its own tag and every neighbour in the table. */
  lemma AddConnectPreserveShape<P>(g: GraphValue<P>, t: string, info: P, t1: string, t2: string)
    requires Keyed(g) && Closed(g)
    ensures Keyed(AddValue(g, t, info)) && Closed(AddValue(g, t, info))
    ensures t1 in g && t2 in g ==> Keyed(ConnectValue(g, t1, t2)) && Closed(ConnectValue(g, t1, t2))
  {
    var a := AddValue(g, t, info);
    forall k, i | k in a && 0 <= i < |a[k].adj|
      ensures a[k].adj[i] in a
    {
      if k in g {
        assert a[k].adj[i] == g[k].adj[i];
      }
    }
    if t1 in g && t2 in g {
      ConnectEffect(g, t1, t2);
      var r := ConnectValue(g, t1, t2);
      forall k, i | k in r && 0 <= i < |r[k].adj|
        ensures r[k].adj[i] in r
      {
        if i < |g[k].adj| {
          AddConnectGrow(g, t, info, t1, t2);
          assert r[k].adj[i] == g[k].adj[i];
        }
      }
    }
  }
}
