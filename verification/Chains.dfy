/** Recall chains: the connected components of the activated nodes (agentx/memorygraph/recall.go). */
module Chains {
  import opened Activation
  import opened Sorting
  import opened Text

  datatype Chain = Chain(anchor: Node, timeline: seq<Node>, backingIds: seq<string>)

  // ---------------------------------------------------------------- links and connection

  predicate Follows(e: Edge) {
    var status := Trim(e.status);
    (EqualFold(status, "") || EqualFold(status, "active")) && EqualFold(Trim(e.edgeType), "follows")
  }

  /** e is an active `follows` edge between the two ids, in either direction, and both are activated. */
  predicate Links(e: Edge, ids: set<string>, u: string, v: string) {
    && Follows(e) && u in ids && v in ids
    && ((e.source == u && e.target == v) || (e.source == v && e.target == u))
  }

  /** One of the first k edges links u and v. */
  ghost predicate Linked(edges: seq<Edge>, k: nat, ids: set<string>, u: string, v: string) {
    exists i :: 0 <= i < k && i < |edges| && Links(edges[i], ids, u, v)
  }

  function Next(m: map<string, seq<string>>, id: string): seq<string> {
    if id in m then m[id] else []
  }

  /** p leads from u to v through the adjacency m. */
  ghost predicate Trail(m: map<string, seq<string>>, u: string, v: string, p: seq<string>) {
    && |p| > 0 && p[0] == u && p[|p| - 1] == v
    && forall i :: 0 <= i < |p| - 1 ==> p[i + 1] in Next(m, p[i])
  }

  ghost predicate Connected(m: map<string, seq<string>>, u: string, v: string) {
    exists p :: Trail(m, u, v, p)
  }

  ghost predicate Symmetric(m: map<string, seq<string>>) {
    forall u, v :: v in Next(m, u) ==> u in Next(m, v)
  }

  lemma ConnectedRefl(m: map<string, seq<string>>, u: string)
    ensures Connected(m, u, u)
  {
    assert Trail(m, u, u, [u]);
  }

  lemma ConnectedStep(m: map<string, seq<string>>, u: string, v: string, w: string)
    requires Connected(m, u, v) && w in Next(m, v)
    ensures Connected(m, u, w)
  {
    var p :| Trail(m, u, v, p);
    assert Trail(m, u, w, p + [w]);
  }

  lemma {:induction false} TrailTrans(m: map<string, seq<string>>, u: string, v: string, w: string, p: seq<string>)
    requires Connected(m, u, v) && Trail(m, v, w, p)
    ensures Connected(m, u, w)
    decreases |p|
  {
    if |p| > 1 {
      ConnectedStep(m, u, v, p[1]);
      assert Trail(m, p[1], w, p[1..]) by {
        forall i | 0 <= i < |p[1..]| - 1 ensures p[1..][i + 1] in Next(m, p[1..][i]) {
          assert p[i + 1 + 1] in Next(m, p[i + 1]);
        }
      }
      TrailTrans(m, u, p[1], w, p[1..]);
    }
  }

  lemma ConnectedTrans(m: map<string, seq<string>>, u: string, v: string, w: string)
    requires Connected(m, u, v) && Connected(m, v, w)
    ensures Connected(m, u, w)
  {
    var p :| Trail(m, v, w, p);
    TrailTrans(m, u, v, w, p);
  }

  lemma {:induction false} TrailSym(m: map<string, seq<string>>, u: string, v: string, p: seq<string>)
    requires Symmetric(m) && Trail(m, u, v, p)
    ensures Connected(m, v, u)
    decreases |p|
  {
    if |p| == 1 {
      ConnectedRefl(m, u);
    } else {
      var n := |p| - 1;
      var q := p[..n];
      assert Trail(m, u, p[n - 1], q);
      TrailSym(m, u, p[n - 1], q);
      assert p[n - 1 + 1] in Next(m, p[n - 1]);
      ConnectedRefl(m, v);
      ConnectedStep(m, v, v, p[n - 1]);
      ConnectedTrans(m, v, p[n - 1], u);
    }
  }

  lemma ConnectedSym(m: map<string, seq<string>>, u: string, v: string)
    requires Symmetric(m) && Connected(m, u, v)
    ensures Connected(m, v, u)
  {
    var p :| Trail(m, u, v, p);
    TrailSym(m, u, v, p);
  }

  lemma {:induction false} TrailStaysIn(m: map<string, seq<string>>, s: set<string>, u: string, v: string,
      p: seq<string>)
    requires Trail(m, u, v, p) && u in s
    requires forall x, y :: x in s && y in Next(m, x) ==> y in s
    ensures v in s
    decreases |p|
  {
    if |p| > 1 {
      var n := |p| - 1;
      assert Trail(m, u, p[n - 1], p[..n]);
      TrailStaysIn(m, s, u, p[n - 1], p[..n]);
      assert p[n - 1 + 1] in Next(m, p[n - 1]);
    }
  }

  // ---------------------------------------------------------------- collectComponent

  lemma {:induction false} DistinctBound(s: seq<string>, universe: set<string>)
    requires Distinct(s) && forall x :: x in s ==> x in universe
    ensures |s| <= |universe|
  {
    if s != [] {
      var n := |s| - 1;
      DistinctBound(s[..n], universe - {s[n]});
    }
  }

  /** The inner loop: marks and returns the neighbours that were not seen before. */
  method Discover(m: map<string, seq<string>>, current: string, seen: set<string>)
      returns (found: seq<string>, seen': set<string>)
    ensures Distinct(found) && seen' == seen + (set v | v in found)
    ensures forall v :: v in found <==> v in Next(m, current) && v !in seen
  {
    found, seen' := [], seen;
    var next := Next(m, current);
    for k := 0 to |next|
      invariant Distinct(found) && seen' == seen + (set v | v in found)
      invariant forall v :: v in found <==> v in next[..k] && v !in seen
    {
      assert next[..k + 1] == next[..k] + [next[k]];
      if next[k] in seen' { continue; }
      seen' := seen' + {next[k]};
      found := found + [next[k]];
    }
    assert next[..|next|] == next;
  }

  lemma DistinctAppend(a: seq<string>, b: seq<string>)
    requires Distinct(a) && Distinct(b) && forall x :: x in a ==> x !in b
    ensures Distinct(a + b)
  {
    forall i, j | 0 <= i < j < |a + b| ensures (a + b)[i] != (a + b)[j] {
      if i < |a| <= j { assert a[i] in a && b[j - |a|] in b; }
    }
  }

  method CollectComponent(start: string, m: map<string, seq<string>>, ghost universe: set<string>)
      returns (out: seq<string>)
    requires start in universe && forall x, y :: y in Next(m, x) ==> y in universe
    ensures Distinct(out) && |out| > 0
    ensures forall v :: v in out <==> Connected(m, start, v)
    ensures forall v :: v in out ==> v in universe
  {
    hide Connected, Next;
    var queue := [start];
    var seen := {start};
    out := [start];
    ghost var h := 0;
    ConnectedRefl(m, start);
    while queue != []
      invariant h <= |out| && queue == out[h..] && Distinct(out) && |out| > 0
      invariant start in seen && forall v :: v in seen <==> v in out
      invariant forall v :: v in out ==> v in universe && Connected(m, start, v)
      invariant forall i, y :: 0 <= i < h && y in Next(m, out[i]) ==> y in seen
      decreases |universe| - h
    {
      var current := queue[0];
      DistinctBound(out, universe);
      var found;
      found, seen := Discover(m, current, seen);
      forall v | v in found ensures Connected(m, start, v) { ConnectedStep(m, start, current, v); }
      DistinctAppend(out, found);
      queue := queue[1..] + found;
      out := out + found;
      h := h + 1;
    }
    assert out[..h] == out;
    forall x, y | x in seen && y in Next(m, x) ensures y in seen {
      var i :| 0 <= i < h && out[i] == x;
    }
    forall v | Connected(m, start, v) ensures v in out { ClosedIsAll(m, seen, start, v); }
  }

  lemma ClosedIsAll(m: map<string, seq<string>>, s: set<string>, u: string, v: string)
    requires Connected(m, u, v) && u in s
    requires forall x, y :: x in s && y in Next(m, x) ==> y in s
    ensures v in s
  {
    var p :| Trail(m, u, v, p);
    TrailStaysIn(m, s, u, v, p);
  }

  // ---------------------------------------------------------------- sortNodesByOccurredAsc

  predicate NotAfter(a: Node, b: Node) {
    a.occurredAt < b.occurredAt || (a.occurredAt == b.occurredAt && a.updatedAt <= b.updatedAt)
  }

  predicate Ascending(s: seq<Node>) { forall i, j :: 0 <= i < j < |s| ==> NotAfter(s[i], s[j]) }

  predicate OccursBefore(a: Node, b: Node) {
    a.occurredAt < b.occurredAt || (a.occurredAt == b.occurredAt && a.updatedAt < b.updatedAt)
  }

  /** sortNodesByOccurredAsc: some ascending permutation. */
  method SortByOccurred(nodes: seq<Node>) returns (out: seq<Node>)
    ensures Ascending(out) && multiset(out) == multiset(nodes)
  {
    out := SortSlice(nodes, OccursBefore);
  }

  // ---------------------------------------------------------------- BuildRecallChains

  /** The activated entry of each id; the last one wins, as in nodeByID and scoreByID. */
  function Entries(activated: seq<Activated>): map<string, Activated> {
    if activated == [] then map[]
    else
      var last := activated[|activated| - 1];
      Entries(activated[..|activated| - 1])[last.node.id := last]
  }

  lemma {:induction false} EntriesAre(activated: seq<Activated>, id: string)
    ensures id in Entries(activated) <==> exists i :: 0 <= i < |activated| && activated[i].node.id == id
    ensures id in Entries(activated) ==> Entries(activated)[id].node.id == id
    ensures DistinctNodes(activated) ==>
              forall i :: 0 <= i < |activated| && activated[i].node.id == id ==> Entries(activated)[id] == activated[i]
  {
    if activated != [] {
      var n := |activated| - 1;
      EntriesAre(activated[..n], id);
      if id in Entries(activated) && id != activated[n].node.id {
        var i :| 0 <= i < n && activated[..n][i].node.id == id;
        assert activated[i].node.id == id;
      }
    }
  }

  predicate DistinctNodes(activated: seq<Activated>) {
    forall i, j :: 0 <= i < j < |activated| ==> activated[i].node.id != activated[j].node.id
  }

  method BuildChainAdjacency(edges: seq<Edge>, ids: set<string>) returns (m: map<string, seq<string>>)
    ensures forall u, v :: v in Next(m, u) <==> Linked(edges, |edges|, ids, u, v)
  {
    hide Follows, Linked;
    m := map[];
    assert forall u, v :: !Linked(edges, 0, ids, u, v) by { NothingLinked(edges, ids); }
    for k := 0 to |edges|
      invariant forall u, v :: v in Next(m, u) <==> Linked(edges, k, ids, u, v)
    {
      var e := edges[k];
      ghost var m0 := m;
      if Follows(e) && e.source in ids && e.target in ids {
        m := m[e.source := Next(m, e.source) + [e.target]];
        m := m[e.target := Next(m, e.target) + [e.source]];
      }
      forall u, v ensures v in Next(m, u) <==> Linked(edges, k + 1, ids, u, v) {
        LinkedStep(edges, k, ids, u, v);
        assert v in Next(m, u) <==> v in Next(m0, u) || Links(e, ids, u, v);
      }
    }
  }

  lemma NothingLinked(edges: seq<Edge>, ids: set<string>)
    ensures forall u, v :: !Linked(edges, 0, ids, u, v)
  {
  }

  lemma LinkedStep(edges: seq<Edge>, k: nat, ids: set<string>, u: string, v: string)
    requires k < |edges|
    ensures Linked(edges, k + 1, ids, u, v) <==> Linked(edges, k, ids, u, v) || Links(edges[k], ids, u, v)
  {
    hide Links;
    if Links(edges[k], ids, u, v) { assert Linked(edges, k + 1, ids, u, v); }
  }

  lemma LinkedSym(edges: seq<Edge>, ids: set<string>, u: string, v: string)
    requires Linked(edges, |edges|, ids, u, v)
    ensures Linked(edges, |edges|, ids, v, u) && u in ids && v in ids
  {
    hide Follows;
    var i :| 0 <= i < |edges| && Links(edges[i], ids, u, v);
    assert Links(edges[i], ids, v, u);
  }

  /** A chain holds one whole component, once per node, in ascending order of occurrence. */
  ghost predicate GoodChain(c: Chain, entries: map<string, Activated>, m: map<string, seq<string>>) {
    && |c.backingIds| > 0 && Distinct(c.backingIds) && |c.timeline| == |c.backingIds| && Ascending(c.timeline)
    && (forall i :: 0 <= i < |c.timeline| ==>
          c.backingIds[i] in entries && c.timeline[i] == entries[c.backingIds[i]].node
              && c.timeline[i].id == c.backingIds[i])
    && (forall u, v :: u in c.backingIds ==> (v in c.backingIds <==> Connected(m, u, v)))
  }

  /** The anchor is a node of the chain and none of the chain's nodes scores higher. */
  ghost predicate GoodAnchor(c: Chain, entries: map<string, Activated>) {
    && c.anchor in c.timeline && c.anchor.id in entries
    && forall id :: id in c.backingIds && id in entries ==> entries[c.anchor.id].score >= entries[id].score
  }

  /** The timeline of a component: its nodes, sorted. */
  method Timeline(component: seq<string>, entries: map<string, Activated>)
      returns (timeline: seq<Node>, backing: seq<string>)
    requires Distinct(component)
    requires forall id :: id in component ==> id in entries && entries[id].node.id == id
    ensures Ascending(timeline) && |timeline| == |backing| == |component| && Distinct(backing)
    ensures forall i :: 0 <= i < |timeline| ==> timeline[i].id == backing[i] && backing[i] in component
                                                && timeline[i] == entries[backing[i]].node
    ensures forall id :: id in component ==> id in backing
  {
    var nodes: seq<Node> := [];
    for k := 0 to |component|
      invariant |nodes| == k && forall i :: 0 <= i < k ==> nodes[i] == entries[component[i]].node
    {
      nodes := nodes + [entries[component[k]].node];
    }
    timeline := SortByOccurred(nodes);
    SameElements(nodes, timeline);
    StaysDistinct(nodes, timeline);
    backing := [];
    for k := 0 to |timeline|
      invariant |backing| == k && forall i :: 0 <= i < k ==> backing[i] == timeline[i].id
    {
      backing := backing + [timeline[k].id];
    }
    forall i | 0 <= i < |timeline| ensures backing[i] in component && timeline[i] == entries[backing[i]].node {
      assert timeline[i] in nodes;
    }
    forall id | id in component ensures id in backing {
      var k :| 0 <= k < |component| && component[k] == id;
      assert nodes[k] in timeline;
      var i :| 0 <= i < |timeline| && timeline[i] == nodes[k];
      assert backing[i] == id;
    }
  }

  /** The best-scored node of a component, starting from the item that opened it. */
  method PickAnchor(item: Activated, component: seq<string>, entries: map<string, Activated>) returns (anchor: Node)
    requires item.node.id in component
    requires forall id :: id in component ==> id in entries && entries[id].node.id == id
    ensures entries[item.node.id] == item ==>
              anchor.id in component && anchor == entries[anchor.id].node
              && forall id :: id in component ==> entries[anchor.id].score >= entries[id].score
  {
    anchor := item.node;
    var anchorScore := item.score;
    for k := 0 to |component|
      invariant entries[item.node.id] == item ==>
                  anchor.id in component && anchor == entries[anchor.id].node && anchorScore == entries[anchor.id].score
      invariant forall i :: 0 <= i < k ==> anchorScore >= entries[component[i]].score
    {
      var id := component[k];
      if entries[id].score > anchorScore {
        anchor := entries[id].node;
        anchorScore := entries[id].score;
      }
    }
  }

  /** The chain opened by one activated item. */
  method ChainOf(item: Activated, entries: map<string, Activated>, m: map<string, seq<string>>) returns (chain: Chain)
    requires item.node.id in entries && forall id :: id in entries ==> entries[id].node.id == id
    requires forall u, v :: v in Next(m, u) ==> u in Next(m, v) && v in entries
    ensures GoodChain(chain, entries, m) && item.node.id in chain.backingIds
    ensures entries[item.node.id] == item ==> GoodAnchor(chain, entries)
  {
    hide Connected;
    var component := CollectComponent(item.node.id, m, entries.Keys);
    ConnectedRefl(m, item.node.id);
    var timeline, backing := Timeline(component, entries);
    var anchor := PickAnchor(item, component, entries);
    chain := Chain(anchor, timeline, backing);
    ChainIsGood(chain, item.node.id, component, entries, m);
    if entries[item.node.id] == item {
      var i :| 0 <= i < |backing| && backing[i] == anchor.id;
      assert timeline[i] == anchor;
    }
  }

  /** Two chains that share a node are the same component. */
  lemma Overlap(a: Chain, b: Chain, entries: map<string, Activated>, m: map<string, seq<string>>, x: string, id: string)
    requires Symmetric(m) && GoodChain(a, entries, m) && GoodChain(b, entries, m)
    requires x in b.backingIds && id in a.backingIds && id in b.backingIds
    ensures x in a.backingIds
  {
    hide Connected;
    assert Connected(m, x, id);
    ConnectedSym(m, x, id);
  }

  ghost predicate Covered(chains: seq<Chain>, id: string) { exists c :: c in chains && id in c.backingIds }

  ghost predicate Disjoint(chains: seq<Chain>) {
    forall i, j, id :: 0 <= i < j < |chains| && id in chains[i].backingIds ==> id !in chains[j].backingIds
  }

  /** What BuildRecallChains promises of its chains, whatever their order. */
  ghost predicate AreChains(activated: seq<Activated>, edges: seq<Edge>, m: map<string, seq<string>>,
      chains: seq<Chain>) {
    var entries := Entries(activated);
    && (forall u, v :: v in Next(m, u) <==> Linked(edges, |edges|, entries.Keys, u, v))
    && (forall c :: c in chains ==> GoodChain(c, entries, m))
    && (DistinctNodes(activated) ==> forall c :: c in chains ==> GoodAnchor(c, entries))
    && (forall id :: id in entries <==> Covered(chains, id))
    && Disjoint(chains)
  }

  function ScoreOf(entries: map<string, Activated>, c: Chain): real {
    if c.anchor.id in entries then entries[c.anchor.id].score else 0.0
  }

  /** The comparator of the final sort: longer timelines, then better anchors, then later ones. */
  predicate ChainLess(entries: map<string, Activated>, a: Chain, b: Chain) {
    if |a.timeline| != |b.timeline| then |a.timeline| > |b.timeline|
    else if FarApart(ScoreOf(entries, a), ScoreOf(entries, b)) then ScoreOf(entries, a) > ScoreOf(entries, b)
    else a.anchor.occurredAt > b.anchor.occurredAt
  }

  /** No two anchors have different scores within the tolerance of each other. */
  ghost predicate AnchorsGraded(entries: map<string, Activated>, chains: seq<Chain>) {
    forall a, b :: a in chains && b in chains ==>
      ScoreOf(entries, a) == ScoreOf(entries, b) || FarApart(ScoreOf(entries, a), ScoreOf(entries, b))
  }

  ghost predicate ChainsOrdered(entries: map<string, Activated>, chains: seq<Chain>) {
    forall i, j :: 0 <= i < j < |chains| ==> !ChainLess(entries, chains[j], chains[i])
  }

  lemma ChainLessIsWeak(entries: map<string, Activated>, chains: seq<Chain>)
    requires AnchorsGraded(entries, chains)
    ensures WeakOrder((a, b) => ChainLess(entries, a, b), chains)
  {
    hide ScoreOf;
    forall a, b, c | a in chains && b in chains && c in chains && ChainLess(entries, a, c)
      ensures ChainLess(entries, a, b) || ChainLess(entries, b, c)
    {
      assert ScoreOf(entries, a) == ScoreOf(entries, b) || FarApart(ScoreOf(entries, a), ScoreOf(entries, b));
      assert ScoreOf(entries, b) == ScoreOf(entries, c) || FarApart(ScoreOf(entries, b), ScoreOf(entries, c));
      assert ScoreOf(entries, a) == ScoreOf(entries, c) || FarApart(ScoreOf(entries, a), ScoreOf(entries, c));
    }
  }

  /** Disjoint chains are distinct, so a permutation of them is disjoint too. */
  lemma DisjointPermuted(a: seq<Chain>, b: seq<Chain>)
    requires Disjoint(a) && multiset(a) == multiset(b) && forall c :: c in a ==> c.backingIds != []
    ensures Disjoint(b)
  {
    SameElements(a, b);
    forall i, j | 0 <= i < j < |a| ensures a[i] != a[j] {
      assert a[i].backingIds[0] in a[i].backingIds && a[i].backingIds[0] !in a[j].backingIds;
    }
    assert Distinct(a);
    StaysDistinct(a, b);
    forall i, j, id | 0 <= i < j < |b| && id in b[i].backingIds ensures id !in b[j].backingIds {
      assert b[i] in a && b[j] in a;
      var x :| 0 <= x < |a| && a[x] == b[i];
      var y :| 0 <= y < |a| && a[y] == b[j];
      assert b[i] != b[j];
      assert x != y;
    }
  }

  lemma ChainsPermuted(activated: seq<Activated>, edges: seq<Edge>, m: map<string, seq<string>>, a: seq<Chain>,
      b: seq<Chain>)
    requires AreChains(activated, edges, m, a) && multiset(a) == multiset(b)
    ensures AreChains(activated, edges, m, b)
  {
    SameElements(a, b);
    forall c | c in a ensures c.backingIds != [] { assert GoodChain(c, Entries(activated), m); }
    DisjointPermuted(a, b);
    hide GoodChain, GoodAnchor, Linked, Entries, DistinctNodes, Disjoint;
    forall id ensures Covered(a, id) <==> Covered(b, id) { }
  }

  /** BuildRecallChains: chains, in the order of the comparator if it is one on their anchors. */
  method BuildRecallChains(activated: seq<Activated>, edges: seq<Edge>)
    returns (chains: seq<Chain>, ghost m: map<string, seq<string>>)
    ensures AreChains(activated, edges, m, chains)
    ensures AnchorsGraded(Entries(activated), chains) ==> ChainsOrdered(Entries(activated), chains)
  {
    hide AreChains, AnchorsGraded, ChainLess, WeakOrder;
    var collected;
    collected, m := CollectChains(activated, edges);
    var entries := Entries(activated);
    chains := SortSlice(collected, (a, b) => ChainLess(entries, a, b));
    ChainsPermuted(activated, edges, m, collected, chains);
    if AnchorsGraded(entries, chains) {
      GradedPermuted(entries, chains, collected);
      ChainLessIsWeak(entries, collected);
    }
  }

  lemma GradedPermuted(entries: map<string, Activated>, a: seq<Chain>, b: seq<Chain>)
    requires AnchorsGraded(entries, a) && multiset(a) == multiset(b)
    ensures AnchorsGraded(entries, b)
  {
    SameElements(a, b);
  }

  /** The loop over the activated items. */
  method CollectChains(activated: seq<Activated>, edges: seq<Edge>)
    returns (chains: seq<Chain>, ghost m: map<string, seq<string>>)
    ensures AreChains(activated, edges, m, chains)
  {
    hide Linked, Connected;
    var entries := Entries(activated);
    forall id | id in entries ensures entries[id].node.id == id { EntriesAre(activated, id); }
    var ids := entries.Keys;
    var adjacency := BuildChainAdjacency(edges, ids);
    m := adjacency;
    forall u, v | v in Next(m, u) ensures u in Next(m, v) && v in ids { LinkedSym(edges, ids, u, v); }
    var visited: set<string> := {};
    chains := [];
    for k := 0 to |activated|
      invariant forall id :: id in visited <==> Covered(chains, id)
      invariant forall c :: c in chains ==> GoodChain(c, entries, m)
      invariant DistinctNodes(activated) ==> forall c :: c in chains ==> GoodAnchor(c, entries)
      invariant Disjoint(chains)
      invariant forall i :: 0 <= i < k ==> activated[i].node.id in visited
    {
      var item := activated[k];
      if item.node.id in visited { continue; }
      assert activated[k].node.id == item.node.id;
      EntriesAre(activated, item.node.id);
      var chain := ChainOf(item, entries, adjacency);
      forall c, id | c in chains && id in c.backingIds ensures id !in chain.backingIds {
        if id in chain.backingIds {
          Overlap(c, chain, entries, m, item.node.id, id);
        }
      }
      hide GoodChain, GoodAnchor, Disjoint, Covered;
      ChainAdded(chains, chain);
      visited := visited + (set id | id in chain.backingIds);
      chains := chains + [chain];
    }
    hide GoodAnchor;
    forall id ensures id in entries <==> Covered(chains, id) {
      if id in entries { EntriesAre(activated, id); }
      if Covered(chains, id) { CoveredKnown(chains, entries, m, id); }
    }
  }

  lemma ChainAdded(chains: seq<Chain>, chain: Chain)
    requires Disjoint(chains)
    requires forall c, id :: c in chains && id in c.backingIds ==> id !in chain.backingIds
    ensures Disjoint(chains + [chain])
    ensures forall id :: Covered(chains + [chain], id) <==> Covered(chains, id) || id in chain.backingIds
  {
    forall id ensures Covered(chains + [chain], id) <==> Covered(chains, id) || id in chain.backingIds {
      if id in chain.backingIds { assert chain in chains + [chain]; }
      if Covered(chains, id) {
        var c :| c in chains && id in c.backingIds;
        assert c in chains + [chain];
      }
    }
  }

  lemma CoveredKnown(chains: seq<Chain>, entries: map<string, Activated>, m: map<string, seq<string>>, id: string)
    requires Covered(chains, id) && forall c :: c in chains ==> GoodChain(c, entries, m)
    ensures id in entries
  {
    var c :| c in chains && id in c.backingIds;
    assert GoodChain(c, entries, m);
    var i :| 0 <= i < |c.backingIds| && c.backingIds[i] == id;
  }

  lemma ChainIsGood(c: Chain, start: string, component: seq<string>, entries: map<string, Activated>, m: map<string,
      seq<string>>)
    requires Symmetric(m) && Distinct(component) && |component| > 0
    requires forall v :: v in component <==> Connected(m, start, v)
    requires |c.timeline| == |c.backingIds| == |component| && Distinct(c.backingIds) && Ascending(c.timeline)
    requires forall id :: id in component <==> id in c.backingIds
    requires forall i :: 0 <= i < |c.timeline| ==> c.timeline[i].id == c.backingIds[i] && c.backingIds[i] in entries
                                                   && c.timeline[i] == entries[c.backingIds[i]].node
    ensures GoodChain(c, entries, m)
  {
    hide Connected, Ascending;
    forall u, v | u in c.backingIds ensures v in c.backingIds <==> Connected(m, u, v) {
      if v in c.backingIds {
        ConnectedSym(m, start, u);
        ConnectedTrans(m, u, start, v);
      }
      if Connected(m, u, v) { ConnectedTrans(m, start, u, v); }
    }
  }

  // ---------------------------------------------------------------- what the chains are, in plain terms

  /** The edge is of the type follows, and its status is blank or active, whatever the case and the spaces around. */
  ghost predicate ActiveFollows(e: Edge) {
    && (Trim(e.status) == "" || EqualFold(Trim(e.status), "active")) && EqualFold(Trim(e.edgeType), "follows")
  }

  ghost predicate IsActivated(activated: seq<Activated>, id: string) {
    exists i :: 0 <= i < |activated| && activated[i].node.id == id
  }

  ghost predicate Touches(e: Edge, u: string, v: string) {
    (e.source == u && e.target == v) || (e.source == v && e.target == u)
  }

  lemma LinkedMeans(edges: seq<Edge>, ids: set<string>, u: string, v: string)
    ensures Linked(edges, |edges|, ids, u, v) <==>
              u in ids && v in ids && exists e :: e in edges && ActiveFollows(e) && Touches(e, u, v)
  {
    hide Trim;
    assert forall s :: EqualFold(s, "") <==> s == "";
    hide EqualFold;
    if Linked(edges, |edges|, ids, u, v) {
      var i :| 0 <= i < |edges| && Links(edges[i], ids, u, v);
      assert edges[i] in edges && ActiveFollows(edges[i]) && Touches(edges[i], u, v);
    }
    if u in ids && v in ids && exists e :: e in edges && ActiveFollows(e) && Touches(e, u, v) {
      var e :| e in edges && ActiveFollows(e) && Touches(e, u, v);
      var i :| 0 <= i < |edges| && edges[i] == e;
      assert Links(edges[i], ids, u, v);
    }
  }

  /** Both ids are activated and an active follows edge joins them. */
  ghost predicate Adjoin(activated: seq<Activated>, edges: seq<Edge>, u: string, v: string) {
    && IsActivated(activated, u) && IsActivated(activated, v)
    && exists e :: e in edges && ActiveFollows(e) && Touches(e, u, v)
  }

  /** A way over such pairs from u to v. */
  ghost predicate Way(activated: seq<Activated>, edges: seq<Edge>, u: string, v: string, p: seq<string>) {
    && |p| > 0 && p[0] == u && p[|p| - 1] == v
    && forall i :: 0 <= i < |p| - 1 ==> Adjoin(activated, edges, p[i], p[i + 1])
  }

  /** Any two ids in a chain are joined by such a way, and every such way stays in its chain; all activated ids are in
      chains, each in one. */
  lemma ChainsAreComponents(activated: seq<Activated>, edges: seq<Edge>, m: map<string, seq<string>>,
                            chains: seq<Chain>, c: Chain, u: string, v: string)
    requires AreChains(activated, edges, m, chains) && c in chains && u in c.backingIds
    ensures v in c.backingIds <==> exists p :: Way(activated, edges, u, v, p)
    ensures IsActivated(activated, v) <==> exists d :: d in chains && v in d.backingIds
  {
    var entries := Entries(activated);
    EntriesAreActivated(activated);
    assert GoodChain(c, entries, m);
    hide GoodChain, Linked, Entries, Disjoint, GoodAnchor, ActiveFollows, Touches, IsActivated;
    GoodChainIs(c, entries, m, u, v);
    assert v in entries <==> Covered(chains, v);
    forall x, y ensures y in Next(m, x) <==> Adjoin(activated, edges, x, y) {
      LinkedMeans(edges, entries.Keys, x, y);
    }
    hide AreChains, Adjoin;
    TrailsAreWays(activated, edges, m, u, v);
  }

  lemma TrailsAreWays(activated: seq<Activated>, edges: seq<Edge>, m: map<string, seq<string>>, u: string, v: string)
    requires forall x, y :: y in Next(m, x) <==> Adjoin(activated, edges, x, y)
    ensures Connected(m, u, v) <==> exists p :: Way(activated, edges, u, v, p)
  {
    hide Adjoin, Next;
    if Connected(m, u, v) {
      var p :| Trail(m, u, v, p);
      assert Way(activated, edges, u, v, p);
    }
    if p :| Way(activated, edges, u, v, p) { assert Trail(m, u, v, p); }
  }

  lemma GoodChainIs(c: Chain, entries: map<string, Activated>, m: map<string, seq<string>>, u: string, v: string)
    requires GoodChain(c, entries, m) && u in c.backingIds
    ensures v in c.backingIds <==> Connected(m, u, v)
  {
    hide Connected, Ascending;
  }

  lemma EntriesAreActivated(activated: seq<Activated>)
    ensures forall id :: id in Entries(activated) <==> IsActivated(activated, id)
    ensures DistinctNodes(activated) ==>
              forall i :: 0 <= i < |activated| ==>
                activated[i].node.id in Entries(activated) && Entries(activated)[activated[i].node.id] == activated[i]
    ensures DistinctNodes(activated) ==>
              forall id :: id in Entries(activated) ==>
                exists i :: 0 <= i < |activated| && activated[i] == Entries(activated)[id] && activated[i].node.id == id
  {
    forall id
      ensures id in Entries(activated) <==> IsActivated(activated, id)
      ensures DistinctNodes(activated) && id in Entries(activated) ==>
                exists i :: 0 <= i < |activated| && activated[i] == Entries(activated)[id] && activated[i].node.id == id
    {
      EntriesAre(activated, id);
    }
    if DistinctNodes(activated) {
      forall i | 0 <= i < |activated|
        ensures activated[i].node.id in Entries(activated) && Entries(activated)[activated[i].node.id] == activated[i]
      {
        EntriesAre(activated, activated[i].node.id);
      }
    }
  }

  /** The timeline of a chain runs by time of occurrence and then of update, over distinct ids. */
  lemma TimelineRuns(activated: seq<Activated>, edges: seq<Edge>, m: map<string, seq<string>>, chains: seq<Chain>,
                     c: Chain)
    requires AreChains(activated, edges, m, chains) && c in chains
    ensures |c.timeline| == |c.backingIds| > 0
    ensures forall i :: 0 <= i < |c.timeline| ==> c.timeline[i].id == c.backingIds[i]
    ensures forall i, j :: 0 <= i < j < |c.timeline| ==>
              && c.backingIds[i] != c.backingIds[j] && c.timeline[i].occurredAt <= c.timeline[j].occurredAt
              && (c.timeline[i].occurredAt == c.timeline[j].occurredAt ==>
                    c.timeline[i].updatedAt <= c.timeline[j].updatedAt)
  {
    assert GoodChain(c, Entries(activated), m);
    hide AreChains, Connected, Entries;
  }

  /** It holds exactly the activated nodes of the chain's ids. */
  lemma TimelineHolds(activated: seq<Activated>, edges: seq<Edge>, m: map<string, seq<string>>, chains: seq<Chain>,
                      c: Chain, n: Node)
    requires AreChains(activated, edges, m, chains) && c in chains
    requires forall i, j :: 0 <= i < j < |activated| ==> activated[i].node.id != activated[j].node.id
    ensures n in c.timeline <==>
              exists k :: 0 <= k < |activated| && activated[k].node == n && activated[k].node.id in c.backingIds
  {
    var entries := Entries(activated);
    EntriesAreActivated(activated);
    assert DistinctNodes(activated);
    ChainEntries(c, entries, m) by { assert GoodChain(c, entries, m); }
    hide *;
    NodesOfChain(activated, entries, c, n);
  }

  lemma NodesOfChain(activated: seq<Activated>, entries: map<string, Activated>, c: Chain, n: Node)
    requires forall i :: 0 <= i < |activated| ==>
               activated[i].node.id in entries && entries[activated[i].node.id] == activated[i]
    requires forall id :: id in entries ==> exists i :: 0 <= i < |activated| && activated[i] == entries[id]
                                                         && activated[i].node.id == id
    requires |c.timeline| == |c.backingIds|
    requires forall i :: 0 <= i < |c.timeline| ==>
               c.backingIds[i] in entries && c.timeline[i] == entries[c.backingIds[i]].node
                 && c.timeline[i].id == c.backingIds[i]
    ensures n in c.timeline <==>
              exists k :: 0 <= k < |activated| && activated[k].node == n && activated[k].node.id in c.backingIds
  {
    if n in c.timeline {
      var i :| 0 <= i < |c.timeline| && c.timeline[i] == n;
      var k :| 0 <= k < |activated| && activated[k] == entries[c.backingIds[i]];
      assert activated[k].node == n && activated[k].node.id == c.backingIds[i];
    }
    if k :| 0 <= k < |activated| && activated[k].node == n && activated[k].node.id in c.backingIds {
      var i :| 0 <= i < |c.backingIds| && c.backingIds[i] == activated[k].node.id;
      assert c.timeline[i] == n;
    }
  }

  lemma ChainEntries(c: Chain, entries: map<string, Activated>, m: map<string, seq<string>>)
    requires GoodChain(c, entries, m)
    ensures |c.timeline| == |c.backingIds|
    ensures forall i :: 0 <= i < |c.timeline| ==>
              c.backingIds[i] in entries && c.timeline[i] == entries[c.backingIds[i]].node
                && c.timeline[i].id == c.backingIds[i]
  {
    hide Connected, Ascending;
  }

  /** Its anchor is one of them, and none of them scores higher. */
  lemma AnchorHolds(activated: seq<Activated>, edges: seq<Edge>, m: map<string, seq<string>>, chains: seq<Chain>,
                    c: Chain) returns (k: nat)
    requires AreChains(activated, edges, m, chains) && c in chains
    requires forall i, j :: 0 <= i < j < |activated| ==> activated[i].node.id != activated[j].node.id
    ensures k < |activated| && activated[k].node == c.anchor && c.anchor in c.timeline
    ensures forall i :: 0 <= i < |activated| && activated[i].node.id in c.backingIds ==>
              activated[k].score >= activated[i].score
  {
    var entries := Entries(activated);
    assert DistinctNodes(activated) && GoodChain(c, entries, m) && GoodAnchor(c, entries);
    EntriesAreActivated(activated);
    hide AreChains, Connected, Entries, IsActivated, Ascending;
    k :| 0 <= k < |activated| && activated[k] == entries[c.anchor.id];
    var i :| 0 <= i < |c.timeline| && c.timeline[i] == c.anchor;
    assert activated[k].node == c.anchor;
  }

  /** The order of the chains: longer ones first; among equally long ones those whose anchors score more by over 1e-9;
      among the rest those whose anchors occurred later. */
  lemma OrderMeans(entries: map<string, Activated>, chains: seq<Chain>, i: nat, j: nat)
    requires ChainsOrdered(entries, chains) && i < j < |chains|
    requires chains[i].anchor.id in entries && chains[j].anchor.id in entries
    ensures var a, b := chains[i], chains[j];
            var x, y := entries[a.anchor.id].score, entries[b.anchor.id].score;
            && |a.timeline| >= |b.timeline|
            && (|a.timeline| == |b.timeline| ==>
                  || x - y > 0.000000001
                  || (-0.000000001 <= x - y <= 0.000000001 && a.anchor.occurredAt >= b.anchor.occurredAt))
  {
  }
}
