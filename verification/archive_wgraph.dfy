/**
 * `Archive/data/wgraph.h`: the same graph as `wgraph.h`, whose nodes also
 * carry a `link` string, built with a three-argument `add`. The node count
 * `N` is set to 0 by the constructor and never written again.
 */
module ArchiveWgraph {
  import opened Adjacency

  /** A node's payload: its link and its size. */
  datatype Info = Info(link: string, size: int)

  class Node {
    const tag: string
    const link: string
    const size: int
    var adj: seq<Node>

    constructor (t: string, l: string, s: int)
      ensures tag == t && link == l && size == s && adj == []
    {
      tag := t;
      link := l;
      size := s;
      adj := [];
    }

    /** `Node::add`: `push_back` onto the neighbour list. */
    method Add(n: Node)
      modifies this
      ensures adj == old(adj) + [n]
    {
      adj := adj + [n];
    }
  }

  /** The tags of a list of nodes, in order. */
  function Tags(ns: seq<Node>): (r: seq<string>)
    ensures |r| == |ns| && forall i :: 0 <= i < |ns| ==> r[i] == ns[i].tag
  {
    seq(|ns|, i requires 0 <= i < |ns| => ns[i].tag)
  }

  class Wgraph {
    var n: int
    var table: map<string, Node>

    /**
     * The object invariant: `N` is still 0, every node sits under its own
     * tag (so distinct keys hold distinct nodes) and every neighbour is a
     * node of the table.
     */
    ghost predicate Valid()
      reads this, table.Values
    {
      n == 0 &&
      (forall k :: k in table ==> table[k].tag == k) &&
      (forall k, i :: k in table && 0 <= i < |table[k].adj| ==> table[k].adj[i] in table.Values)
    }

    /** The graph as a value: the link, the size and the neighbours' tags of every node. */
    ghost function Value(): GraphValue<Info>
      reads this, table.Values
    {
      map k | k in table :: NodeValue(table[k].tag, Info(table[k].link, table[k].size), Tags(table[k].adj))
    }

    lemma ValueShape()
      requires Valid()
      ensures Keyed(Value()) && Closed(Value())
    {
      var v := Value();
      forall k, i | k in v && 0 <= i < |v[k].adj|
        ensures v[k].adj[i] in v
      {
        var m := table[k].adj[i];
        assert m in table.Values;
        var j :| j in table && table[j] == m;
        assert v[k].adj[i] == j;
      }
    }

    constructor ()
      ensures Valid() && table == map[] && Value() == map[]
    {
      n := 0;
      table := map[];
    }

    /** `size()`: the stored count, which nothing but the constructor writes. */
    method Size() returns (r: int)
      requires Valid()
      ensures r == 0
    {
      r := n;
    }

    /** `find(t)`: the node stored under `t`, or null; the table is not touched. */
    method Find(t: string) returns (r: Node?)
      ensures t in table ==> r == table[t]
      ensures t !in table ==> r == null
    {
      if t in table {
        r := table[t];
      } else {
        r := null;
      }
    }

    /**
     * `add(t, l, s)`: allocate `Node(t, l, s)` and insert it only if `t` is
     * not a key yet; an existing key keeps its node, link and size included.
     */
    method Add(t: string, l: string, s: int)
      requires Valid()
      modifies this
      ensures Valid()
      ensures Value() == AddValue(old(Value()), t, Info(l, s))
      ensures table.Keys == old(table).Keys + {t}
      ensures forall k :: k in old(table) ==> table[k] == old(table[k])
      ensures t !in old(table) ==> fresh(table[t])
    {
      var node := new Node(t, l, s);
      if t !in table {
        table := table[t := node];
      }
      assert forall k :: k in table ==> table[k].tag == k;
      forall k, i | k in table && 0 <= i < |table[k].adj|
        ensures table[k].adj[i] in table.Values
      {
        if k in old(table) {
          var m := table[k].adj[i];
          assert m in old(table).Values;
          var j :| j in old(table) && old(table)[j] == m;
          assert table[j] == m;
        }
      }
    }

    /**
     * `connect(t1, t2)`: dereferences `find` for both tags, so both must be
     * keys; appends `t2`'s node to `t1`'s list, then `t1`'s node to `t2`'s.
     */
    method Connect(t1: string, t2: string)
      requires Valid() && t1 in table && t2 in table
      modifies table[t1], table[t2]
      ensures Valid()
      ensures Value() == ConnectValue(old(Value()), t1, t2)
    {
      ghost var before := map k | k in table :: table[k].adj;
      ghost var v := Value();
      var a := Find(t1);
      var b := Find(t2);
      a.Add(b);
      b := Find(t2);
      a := Find(t1);
      b.Add(a);
      forall k | k in table && k != t1 && k != t2
        ensures table[k].adj == before[k]
      {
        assert table[k].tag == k;
      }
      ConnectedValue(t1, t2, before, v);
    }

    /** The value after the two appends of `connect`, from the lists before them. */
    lemma ConnectedValue(t1: string, t2: string, before: map<string, seq<Node>>, v: GraphValue<Info>)
      requires t1 in table && t2 in table && before.Keys == table.Keys && v.Keys == table.Keys
      requires n == 0 && forall k :: k in table ==> table[k].tag == k
      requires forall k, i :: k in before && 0 <= i < |before[k]| ==> before[k][i] in table.Values
      requires forall k :: k in table ==> v[k] == NodeValue(k, Info(table[k].link, table[k].size), Tags(before[k]))
      requires forall k :: k in table && k != t1 && k != t2 ==> table[k].adj == before[k]
      requires t1 != t2 ==> table[t1].adj == before[t1] + [table[t2]] &&
                            table[t2].adj == before[t2] + [table[t1]]
      requires t1 == t2 ==> table[t1].adj == before[t1] + [table[t1], table[t1]]
      ensures Valid()
      ensures Value() == ConnectValue(v, t1, t2)
    {
      forall k, i | k in table && 0 <= i < |table[k].adj|
        ensures table[k].adj[i] in table.Values
      {
        if i < |before[k]| {
          assert table[k].adj[i] == before[k][i];
        }
      }
      forall k | k in table
        ensures Value()[k] == ConnectValue(v, t1, t2)[k]
      {
        ConnectedNode(t1, t2, before, v, k);
      }
    }

    lemma ConnectedNode(t1: string, t2: string, before: map<string, seq<Node>>, v: GraphValue<Info>, k: string)
      requires t1 in table && t2 in table && before.Keys == table.Keys && v.Keys == table.Keys && k in table
      requires forall k :: k in table ==> table[k].tag == k
      requires forall k :: k in table ==> v[k] == NodeValue(k, Info(table[k].link, table[k].size), Tags(before[k]))
      requires k != t1 && k != t2 ==> table[k].adj == before[k]
      requires t1 != t2 ==> table[t1].adj == before[t1] + [table[t2]] &&
                            table[t2].adj == before[t2] + [table[t1]]
      requires t1 == t2 ==> table[t1].adj == before[t1] + [table[t1], table[t1]]
      ensures Value()[k] == ConnectValue(v, t1, t2)[k]
    {
      ConnectEffect(v, t1, t2);
      var a := table[k].adj;
      if k == t1 && t1 == t2 {
        assert Tags(a) == Tags(before[k]) + [t1, t1];
      } else if k == t1 {
        assert Tags(a) == Tags(before[k]) + [t2];
      } else if k == t2 {
        assert Tags(a) == Tags(before[k]) + [t1];
      }
    }
  }
}
