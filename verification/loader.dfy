/**
 * `ReadFile` of `data/main.cpp`: read whitespace-separated tokens two at a
 * time, `(tag, link)`; add every tag with size 100 and connect it to the
 * tag read just before it, unless that one was the sentinel "false" (the
 * initial value of `prev`). The input file is given as its token sequence.
 */
module Loader {
  import opened Adjacency
  import ArchiveWgraph

  type Info = ArchiveWgraph.Info

  /** The initial value of `prev`; a tag equal to it also breaks the chain. */
  const Sentinel: string := "false"

  /** The size every loaded node is given. */
  const LoadedSize: int := 100

  /** The second token of a pair, or "" when the stream ends after a tag. */
  function LinkOf(ts: seq<string>): string
    requires ts != []
  {
    if |ts| >= 2 then ts[1] else ""
  }

  /** The stream after one `(tag, link)` read. */
  function Rest(ts: seq<string>): (r: seq<string>)
    requires ts != []
    ensures |r| < |ts|
  {
    if |ts| >= 2 then ts[2..] else []
  }

  /** The tags in the order they are read: the tokens at even positions. */
  function TagsRead(ts: seq<string>): (r: seq<string>)
    ensures |r| == (|ts| + 1) / 2
    ensures forall j :: 0 <= j < |r| ==> r[j] == ts[2 * j]
    decreases |ts|
  {
    if ts == [] then [] else [ts[0]] + TagsRead(Rest(ts))
  }

  /** The link read with each tag: the following odd-position token, or "". */
  function Links(ts: seq<string>): (r: seq<string>)
    ensures |r| == |TagsRead(ts)|
    ensures forall j :: 0 <= j < |r| ==> r[j] == if 2 * j + 1 < |ts| then ts[2 * j + 1] else ""
    decreases |ts|
  {
    if ts == [] then [] else [LinkOf(ts)] + Links(Rest(ts))
  }

  /**
   * One iteration of the loop: `add(tag, link, 100)`, then
   * `connect(tag, prev)` unless `prev` is the sentinel. Both endpoints of
   * that `connect` are keys: `tag` was just added and `prev` earlier.
   */
  function Step(g: GraphValue<Info>, prev: string, tag: string, link: string): (r: GraphValue<Info>)
    requires prev == Sentinel || prev in g
    ensures r.Keys == g.Keys + {tag}
  {
    var g1 := AddValue(g, tag, ArchiveWgraph.Info(link, LoadedSize));
    if prev != Sentinel then ConnectValue(g1, tag, prev) else g1
  }

  /** The graph the loop leaves behind, starting from `g` with `prev` as the last tag read. */
  function Load(g: GraphValue<Info>, prev: string, ts: seq<string>): GraphValue<Info>
    requires prev == Sentinel || prev in g
    decreases |ts|
  {
    if ts == [] then g
    else Load(Step(g, prev, ts[0], LinkOf(ts)), ts[0], Rest(ts))
  }

  /** `ReadFile`: the loop over the token stream, adding to the graph `w`. */
  method ReadFile(tokens: seq<string>, w: ArchiveWgraph.Wgraph)
    requires w.Valid()
    modifies w, w.table.Values
    ensures w.Valid()
    ensures w.Value() == Load(old(w.Value()), Sentinel, tokens)
  {
    var prev := Sentinel;
    var pos := 0;
    while pos < |tokens|
      invariant 0 <= pos <= |tokens|
      invariant w.Valid()
      invariant prev == Sentinel || prev in w.table
      invariant Load(w.Value(), prev, tokens[pos..]) == Load(old(w.Value()), Sentinel, tokens)
      invariant forall k :: k in w.table ==> w.table[k] in old(w.table.Values) || fresh(w.table[k])
      decreases |tokens| - pos
    {
      ghost var before := w.Value();
      ghost var rest := tokens[pos..];
      ghost var lastTag := prev;
      var buffer := tokens[pos];
      var buffer2 := "";
      pos := pos + 1;
      if pos < |tokens| {
        buffer2 := tokens[pos];
        pos := pos + 1;
      }
      assert buffer == rest[0] && buffer2 == LinkOf(rest) && tokens[pos..] == Rest(rest);
      ghost var tableBefore := w.table;
      w.Add(buffer, buffer2, LoadedSize);
      assert forall k :: k in w.table ==> k in tableBefore || fresh(w.table[k]);
      if prev != Sentinel {
        w.Connect(buffer, prev);
      }
      prev := buffer;
      assert w.Value() == Step(before, lastTag, buffer, buffer2);
    }
  }

  // -----------------------------------------------------------------------
  // What the loop builds

  /** The position of the first occurrence of `x`. */
  function FirstIndex(s: seq<string>, x: string): (r: nat)
    requires x in s
    ensures r < |s| && s[r] == x && x !in s[..r]
  {
    if s[0] == x then 0 else 1 + FirstIndex(s[1..], x)
  }

  /**
   * `a` and `b` are neighbours in the chain `c` of tags: some element other
   * than the sentinel is immediately followed by the other one.
   */
  ghost predicate Linked(c: seq<string>, a: string, b: string) {
    exists j :: 0 <= j < |c| - 1 && c[j] != Sentinel &&
                ((c[j] == a && c[j + 1] == b) || (c[j] == b && c[j + 1] == a))
  }

  /** The keys after loading are the keys before plus every tag read. */
  lemma {:induction false} LoadKeys(g: GraphValue<Info>, prev: string, ts: seq<string>)
    requires prev == Sentinel || prev in g
    ensures forall t :: t in Load(g, prev, ts) <==> t in g || t in TagsRead(ts)
    decreases |ts|
  {
    if ts != [] {
      LoadKeys(Step(g, prev, ts[0], LinkOf(ts)), ts[0], Rest(ts));
    }
  }

  /**
   * One iteration only adds a node and extends lists; a tag read for the
   * first time gets its link and size 100.
   */
  lemma StepGrows(g: GraphValue<Info>, prev: string, tag: string, link: string)
    requires prev == Sentinel || prev in g
    ensures Grows(g, Step(g, prev, tag, link))
    ensures tag !in g ==> Step(g, prev, tag, link)[tag].info == ArchiveWgraph.Info(link, LoadedSize)
  {
    var info := ArchiveWgraph.Info(link, LoadedSize);
    var g1 := AddValue(g, tag, info);
    AddConnectGrow(g, tag, info, tag, prev);
    if prev != Sentinel {
      AddConnectGrow(g1, tag, info, tag, prev);
      GrowsTransitive(g, g1, Step(g, prev, tag, link));
    }
  }

  /** Loading only adds nodes and extends lists; no tag, link or size is overwritten. */
  lemma {:induction false} LoadGrows(g: GraphValue<Info>, prev: string, ts: seq<string>)
    requires prev == Sentinel || prev in g
    ensures Grows(g, Load(g, prev, ts))
    decreases |ts|
  {
    if ts == [] {
      assert forall k :: k in g ==> g[k].adj == g[k].adj[..|g[k].adj|];
    } else {
      var g2 := Step(g, prev, ts[0], LinkOf(ts));
      StepGrows(g, prev, ts[0], LinkOf(ts));
      LoadGrows(g2, ts[0], Rest(ts));
      GrowsTransitive(g, g2, Load(g2, ts[0], Rest(ts)));
    }
  }

  /** Loading keeps every node under its own tag and every neighbour in the table. */
  lemma {:induction false} LoadShape(g: GraphValue<Info>, prev: string, ts: seq<string>)
    requires prev == Sentinel || prev in g
    requires Keyed(g) && Closed(g)
    ensures Keyed(Load(g, prev, ts)) && Closed(Load(g, prev, ts))
    decreases |ts|
  {
    if ts != [] {
      var info := ArchiveWgraph.Info(LinkOf(ts), LoadedSize);
      var g1 := AddValue(g, ts[0], info);
      AddConnectPreserveShape(g, ts[0], info, ts[0], prev);
      AddConnectPreserveShape(g1, ts[0], info, ts[0], prev);
      LoadShape(Step(g, prev, ts[0], LinkOf(ts)), ts[0], Rest(ts));
    }
  }

  /** One iteration adds exactly the edge between the new tag and the previous one. */
  lemma StepEdges(g: GraphValue<Info>, prev: string, tag: string, link: string, t: string, m: string)
    requires prev == Sentinel || prev in g
    requires t in Step(g, prev, tag, link)
    ensures m in Step(g, prev, tag, link)[t].adj <==>
              (t in g && m in g[t].adj) ||
              (prev != Sentinel && ((t == tag && m == prev) || (t == prev && m == tag)))
  {
    var info := ArchiveWgraph.Info(link, LoadedSize);
    var g1 := AddValue(g, tag, info);
    assert t in g1 && (m in g1[t].adj <==> t in g && m in g[t].adj);
    if prev != Sentinel {
      ConnectEffect(g1, tag, prev);
    }
  }

  /** Prepending an element to a chain adds at most the link between it and the old head. */
  lemma LinkedCons(p: string, c: seq<string>, a: string, b: string)
    requires c != []
    ensures Linked([p] + c, a, b) <==>
              (p != Sentinel && ((p == a && c[0] == b) || (p == b && c[0] == a))) || Linked(c, a, b)
  {
    var pc := [p] + c;
    if Linked(c, a, b) {
      var j :| 0 <= j < |c| - 1 && c[j] != Sentinel &&
               ((c[j] == a && c[j + 1] == b) || (c[j] == b && c[j + 1] == a));
      assert pc[j + 1] == c[j] && pc[j + 2] == c[j + 1];
    }
    if Linked(pc, a, b) {
      var j :| 0 <= j < |pc| - 1 && pc[j] != Sentinel &&
               ((pc[j] == a && pc[j + 1] == b) || (pc[j] == b && pc[j + 1] == a));
      if j > 0 {
        assert c[j - 1] == pc[j] && c[j] == pc[j + 1];
      }
    }
    if p != Sentinel && ((p == a && c[0] == b) || (p == b && c[0] == a)) {
      assert pc[0] == p && pc[1] == c[0];
    }
  }

  /**
   * The edges of the loaded graph are the edges it had plus one edge for
   * every two consecutive tags whose first is not the sentinel; `prev`
   * heads the chain, as the tag read before the stream.
   */
  lemma {:induction false} LoadEdges(g: GraphValue<Info>, prev: string, ts: seq<string>, t: string, m: string)
    requires prev == Sentinel || prev in g
    requires t in Load(g, prev, ts)
    ensures m in Load(g, prev, ts)[t].adj <==>
              (t in g && m in g[t].adj) || Linked([prev] + TagsRead(ts), t, m)
    decreases |ts|
  {
    if ts == [] {
      assert !Linked([prev], t, m);
    } else {
      var tag := ts[0];
      var g2 := Step(g, prev, tag, LinkOf(ts));
      LoadKeys(g2, tag, Rest(ts));
      LoadEdges(g2, tag, Rest(ts), t, m);
      assert [tag] + TagsRead(Rest(ts)) == TagsRead(ts);
      LinkedCons(prev, TagsRead(ts), t, m);
      if t in g2 {
        StepEdges(g, prev, tag, LinkOf(ts), t, m);
      }
    }
  }

  /**
   * How many times loading the chain `c` appends `m` to `t`'s list: each
   * two consecutive tags whose first is not the sentinel append each to
   * the other's list once, so a pair read twice is counted twice and a
   * tag read twice in a row counts itself twice.
   */
  function Entries(c: seq<string>, t: string, m: string): nat
    decreases |c|
  {
    if |c| < 2 then 0
    else
      (if c[0] != Sentinel then (if c[1] == t && c[0] == m then 1 else 0) + (if c[0] == t && c[1] == m then 1 else 0)
       else 0)
      + Entries(c[1..], t, m)
  }

  /** One iteration appends `prev` to `tag`'s list and `tag` to `prev`'s, once each. */
  lemma StepEdgeCount(g: GraphValue<Info>, prev: string, tag: string, link: string, t: string, m: string)
    requires prev == Sentinel || prev in g
    requires t in Step(g, prev, tag, link)
    ensures multiset(Step(g, prev, tag, link)[t].adj)[m] ==
              (if t in g then multiset(g[t].adj)[m] else 0) +
              (if prev != Sentinel then (if tag == t && prev == m then 1 else 0) + (if prev == t && tag == m then 1 else 0)
               else 0)
  {
    var g1 := AddValue(g, tag, ArchiveWgraph.Info(link, LoadedSize));
    assert multiset(g1[t].adj)[m] == if t in g then multiset(g[t].adj)[m] else 0;
    if prev != Sentinel {
      ConnectEffect(g1, tag, prev);
    }
  }

  /**
   * The multiplicity of every neighbour entry after loading: the entries
   * there were plus one per time the chain of tags reads the two tags
   * next to each other.
   */
  lemma {:induction false} LoadEdgeCount(g: GraphValue<Info>, prev: string, ts: seq<string>, t: string, m: string)
    requires prev == Sentinel || prev in g
    requires t in Load(g, prev, ts)
    ensures multiset(Load(g, prev, ts)[t].adj)[m] ==
              (if t in g then multiset(g[t].adj)[m] else 0) + Entries([prev] + TagsRead(ts), t, m)
    decreases |ts|
  {
    if ts != [] {
      var tag := ts[0];
      var rest := Rest(ts);
      var g2 := Step(g, prev, tag, LinkOf(ts));
      TagsReadLinksCons(ts);
      LoadKeys(g2, tag, rest);
      LoadEdgeCount(g2, tag, rest, t, m);
      assert ([prev] + TagsRead(ts))[1..] == [tag] + TagsRead(rest);
      if t in g2 {
        StepEdgeCount(g, prev, tag, LinkOf(ts), t, m);
      } else {
        assert t !in g && t != tag;
      }
    }
  }

  /**
   * A node keeps the link and size of the first time its tag was read;
   * later reads of the same tag change neither.
   */
  lemma LoadInfo(g: GraphValue<Info>, prev: string, ts: seq<string>, t: string)
    requires prev == Sentinel || prev in g
    requires t in Load(g, prev, ts)
    ensures t in g ==> Load(g, prev, ts)[t].info == g[t].info
    ensures t !in g ==> t in TagsRead(ts)
    ensures t !in g ==>
              Load(g, prev, ts)[t].info == ArchiveWgraph.Info(Links(ts)[FirstIndex(TagsRead(ts), t)], LoadedSize)
  {
    if t in g {
      LoadGrows(g, prev, ts);
    } else {
      LoadKeys(g, prev, ts);
      LoadNewInfo(g, prev, ts, t);
    }
  }

  /** The first tag of the stream, when new, keeps the link read with it. */
  lemma LoadHeadInfo(g: GraphValue<Info>, prev: string, ts: seq<string>)
    requires prev == Sentinel || prev in g
    requires ts != [] && ts[0] !in g
    ensures ts[0] in Load(g, prev, ts)
    ensures Load(g, prev, ts)[ts[0]].info == ArchiveWgraph.Info(LinkOf(ts), LoadedSize)
  {
    var g2 := Step(g, prev, ts[0], LinkOf(ts));
    StepGrows(g, prev, ts[0], LinkOf(ts));
    LoadGrows(g2, ts[0], Rest(ts));
  }

  /** Reading one pair puts its tag and link in front of the rest's. */
  lemma TagsReadLinksCons(ts: seq<string>)
    requires ts != []
    ensures TagsRead(ts) == [ts[0]] + TagsRead(Rest(ts))
    ensures Links(ts) == [LinkOf(ts)] + Links(Rest(ts))
  {
  }

  lemma FirstIndexCons(x: string, s: seq<string>, t: string)
    requires t != x && t in s
    ensures FirstIndex([x] + s, t) == 1 + FirstIndex(s, t)
  {
    assert ([x] + s)[1..] == s;
  }

  lemma {:induction false} LoadNewInfo(g: GraphValue<Info>, prev: string, ts: seq<string>, t: string)
    requires prev == Sentinel || prev in g
    requires t !in g && t in TagsRead(ts)
    ensures t in Load(g, prev, ts)
    ensures Load(g, prev, ts)[t].info == ArchiveWgraph.Info(Links(ts)[FirstIndex(TagsRead(ts), t)], LoadedSize)
    decreases |ts|
  {
    var tag := ts[0];
    var rest := Rest(ts);
    TagsReadLinksCons(ts);
    if t == tag {
      LoadHeadInfo(g, prev, ts);
    } else {
      var g2 := Step(g, prev, tag, LinkOf(ts));
      LoadNewInfo(g2, tag, rest, t);
      FirstIndexCons(tag, TagsRead(rest), t);
    }
  }

  /**
   * What `ReadFile` builds in the empty graph of `main`: one node per
   * distinct tag, under its own tag, with the link read with its first
   * occurrence and size 100, and neighbours exactly along the chain of
   * tags, where the first tag and every tag following a "false" start
   * without a link to their predecessor.
   */
  lemma ReadIntoEmpty(ts: seq<string>, t: string, m: string)
    ensures Keyed(Load(map[], Sentinel, ts)) && Closed(Load(map[], Sentinel, ts))
    ensures t in Load(map[], Sentinel, ts) <==> t in TagsRead(ts)
    ensures t in TagsRead(ts) ==>
              Load(map[], Sentinel, ts)[t].info ==
                ArchiveWgraph.Info(Links(ts)[FirstIndex(TagsRead(ts), t)], LoadedSize)
    ensures t in TagsRead(ts) ==>
              (m in Load(map[], Sentinel, ts)[t].adj <==> Linked([Sentinel] + TagsRead(ts), t, m))
  {
    LoadShape(map[], Sentinel, ts);
    LoadKeys(map[], Sentinel, ts);
    if t in TagsRead(ts) {
      LoadInfo(map[], Sentinel, ts, t);
      LoadEdges(map[], Sentinel, ts, t, m);
    }
  }
}
