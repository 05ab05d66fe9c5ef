/** Spreading activation over the temporal memory graph (agentx/memorygraph/recall.go).

    Ids are strings and scores are reals. The query and the clock are fixed during one call, so
    scoreNode and associativeBonus are arbitrary functions of the node. */
module Activation {
  import opened Sorting
  import opened Text

  datatype Node = Node(id: string, occurredAt: int, updatedAt: int)

  datatype Edge = Edge(source: string, target: string, edgeType: string, weight: real, status: string)

  datatype Adjacent = Adjacent(id: string, weight: real)

  datatype Scorer = Scorer(score: Node -> real, bonus: Node -> real)

  datatype Reason = Seed | GraphActivation

  datatype Activated = Activated(node: Node, score: real, depth: nat, reason: Reason)

  predicate ActiveStatus(status: string) {
    var s := Trim(status);
    s == "" || EqualFold(s, "active")
  }

  // ---------------------------------------------------------------- the graph a call works on

  datatype Graph = Graph(seeds: seq<string>, known: map<string, Node>, adjacency: map<string, seq<Adjacent>>,
                         scorer: Scorer)

  function Neighbours(adjacency: map<string, seq<Adjacent>>, id: string): seq<Adjacent> {
    if id in adjacency then adjacency[id] else []
  }

  predicate WellFormed(g: Graph) {
    && (forall id :: id in g.seeds ==> id in g.known)
    && (forall id :: id in g.known ==> g.known[id].id == id)
  }

  /** A route through known nodes that starts at a seed. */
  datatype Path = Start(seed: string) | Hop(prev: Path, link: Adjacent)

  function End(p: Path): string {
    match p case Start(s) => s case Hop(_, l) => l.id
  }

  function Len(p: Path): nat {
    match p case Start(_) => 0 case Hop(q, _) => Len(q) + 1
  }

  predicate Valid(g: Graph, p: Path) {
    match p
    case Start(s) => s in g.seeds
    case Hop(q, l) => Valid(g, q) && l in Neighbours(g.adjacency, End(q)) && l.id in g.known
  }

  const SEED_ENERGY := 1.35
  const DECAY := 0.58
  const MIN_WEIGHT := 0.35

  function MaxFloat(a: real, b: real): real {
    var best := if a > 0.0 then a else 0.0;
    if b > best then b else best
  }

  function Passed(g: Graph, energy: real, l: Adjacent): real
    requires l.id in g.known
  {
    energy * DECAY * MaxFloat(l.weight, MIN_WEIGHT) + g.scorer.bonus(g.known[l.id])
  }

  /** The energy that arrives at the end of a route. */
  function Energy(g: Graph, p: Path): real
    requires Valid(g, p)
  {
    match p
    case Start(_) => SEED_ENERGY
    case Hop(q, l) => Passed(g, Energy(g, q), l)
  }

  /** p is a valid route of length d that ends at id. */
  ghost predicate Route(g: Graph, p: Path, id: string, d: nat) {
    Valid(g, p) && End(p) == id && Len(p) == d
  }

  lemma {:induction false} RouteEndsKnown(g: Graph, p: Path)
    requires WellFormed(g) && Valid(g, p)
    ensures End(p) in g.known
  {
    match p case Start(s) => case Hop(q, l) =>
  }

  // ---------------------------------------------------------------- the result, stated

  ghost predicate Reached(g: Graph, id: string, maxDepth: nat) {
    exists p :: Valid(g, p) && End(p) == id && Len(p) <= maxDepth
  }

  /** `a` carries the shortest hop distance to its node, and its score is the node's own score plus the
      largest energy that arrives over any shortest route. */
  ghost predicate Exact(g: Graph, id: string, a: Activated)
    requires id in g.known
  {
    && a.node == g.known[id]
    && a.reason == (if a.depth == 0 then Seed else GraphActivation)
    && (forall p :: Valid(g, p) && End(p) == id ==> a.depth <= Len(p))
    && (exists p :: Route(g, p, id, a.depth) && a.score == g.scorer.score(a.node) + Energy(g, p))
    && (forall p :: Route(g, p, id, a.depth) ==> a.score >= g.scorer.score(a.node) + Energy(g, p))
  }

  // ---------------------------------------------------------------- what a route delivers

  /** The links of a route, from the seed on. */
  function Links(p: Path): seq<Adjacent> {
    match p case Start(_) => [] case Hop(q, l) => Links(q) + [l]
  }

  /** Multiplication, as a function that proofs can hide. */
  function Mul(x: real, y: real): real { x * y }

  /** What one link leaves of an energy. */
  function Factor(weight: real): real { 0.58 * (if weight >= 0.35 then weight else 0.35) }

  /** What is left of an energy after the links from position i on. */
  function Kept(links: seq<Adjacent>, i: nat): real
    requires i <= |links|
    decreases |links| - i
  {
    if i == |links| then 1.0 else Mul(Factor(links[i].weight), Kept(links, i + 1))
  }

  /** The bonuses of the first n nodes on the way, each with what the later links leave of it. */
  function Gained(links: seq<Adjacent>, n: nat, nodes: map<string, Node>, bonus: Node -> real): real
    requires n <= |links| && forall i :: 0 <= i < |links| ==> links[i].id in nodes
  {
    if n == 0 then 0.0
    else Gained(links, n - 1, nodes, bonus) + Mul(bonus(nodes[links[n - 1].id]), Kept(links, n))
  }

  lemma MulLaws(a: real, b: real, c: real, f: real)
    ensures Mul(a, Mul(b, c)) == Mul(Mul(a, b), c) && Mul(a, 1.0) == a && Mul(1.0, a) == a && Mul(0.0, f) == 0.0
    ensures Mul(a + Mul(b, c), f) == Mul(a, f) + Mul(b, Mul(c, f))
    ensures Mul(1.35 * a + b, f) == 1.35 * Mul(a, f) + Mul(b, f)
    ensures a > 0.0 && b > c ==> Mul(a, b) > Mul(a, c)
  {
    if a > 0.0 && b > c { assert a * (b - c) > 0.0; }
  }

  lemma {:induction false} KeptSnoc(links: seq<Adjacent>, l: Adjacent, i: nat)
    requires i <= |links|
    ensures Kept(links + [l], i) == Mul(Kept(links, i), Factor(l.weight))
    decreases |links| - i
  {
    var f := Factor(l.weight);
    hide Factor, Mul;
    MulLaws(f, 0.0, 0.0, 0.0);
    if i < |links| {
      KeptSnoc(links, l, i + 1);
      MulLaws(Factor(links[i].weight), Kept(links, i + 1), f, 0.0);
    }
  }

  lemma {:induction false} GainedSnoc(links: seq<Adjacent>, l: Adjacent, n: nat, nodes: map<string, Node>,
                                      bonus: Node -> real)
    requires n <= |links| && l.id in nodes && forall i :: 0 <= i < |links| ==> links[i].id in nodes
    ensures Gained(links + [l], n, nodes, bonus) == Mul(Gained(links, n, nodes, bonus), Factor(l.weight))
  {
    hide Factor, Kept, Mul;
    MulLaws(0.0, 0.0, 0.0, Factor(l.weight));
    if n > 0 {
      GainedSnoc(links, l, n - 1, nodes, bonus);
      KeptSnoc(links, l, n);
      assert (links + [l])[n - 1] == links[n - 1];
      MulLaws(Gained(links, n - 1, nodes, bonus), bonus(nodes[links[n - 1].id]), Kept(links, n), Factor(l.weight));
    }
  }

  lemma {:induction false} LinksAreKnown(g: Graph, p: Path)
    requires Valid(g, p)
    ensures forall i :: 0 <= i < |Links(p)| ==> Links(p)[i].id in g.known
  {
    if p.Hop? { LinksAreKnown(g, p.prev); }
  }

  lemma PassedIs(g: Graph, energy: real, l: Adjacent)
    requires l.id in g.known
    ensures Passed(g, energy, l) == Mul(energy, Factor(l.weight)) + g.scorer.bonus(g.known[l.id])
  {
    MulLaws(energy, 0.58, if l.weight >= 0.35 then l.weight else 0.35, 0.0);
  }

  /** 1.35 times what is left of it after all links, plus the bonuses. */
  function Delivered(links: seq<Adjacent>, nodes: map<string, Node>, bonus: Node -> real): real
    requires forall i :: 0 <= i < |links| ==> links[i].id in nodes
  {
    1.35 * Kept(links, 0) + Gained(links, |links|, nodes, bonus)
  }

  lemma DeliveredSnoc(links: seq<Adjacent>, l: Adjacent, nodes: map<string, Node>, bonus: Node -> real)
    requires l.id in nodes && forall i :: 0 <= i < |links| ==> links[i].id in nodes
    ensures Delivered(links + [l], nodes, bonus) ==
              Mul(Delivered(links, nodes, bonus), Factor(l.weight)) + bonus(nodes[l.id])
  {
    var all, n := links + [l], |links| + 1;
    hide Mul, Factor;
    KeptSnoc(links, l, 0);
    GainedSnoc(links, l, |links|, nodes, bonus);
    assert all[n - 1] == l && Kept(all, n) == 1.0;
    hide Kept;
    MulLaws(bonus(nodes[l.id]), 0.0, 0.0, 0.0);
    MulLaws(Kept(links, 0), Gained(links, |links|, nodes, bonus), 0.0, Factor(l.weight));
  }

  /** The energy of a route in terms of its links: 1.35 times the product of 0.58 * max(weight, 0.35), plus each bonus
      on the way times the factors of the links behind it. */
  lemma {:induction false} EnergyIs(g: Graph, p: Path)
    requires Valid(g, p)
    ensures forall i :: 0 <= i < |Links(p)| ==> Links(p)[i].id in g.known
    ensures Energy(g, p) == Delivered(Links(p), g.known, g.scorer.bonus)
  {
    LinksAreKnown(g, p);
    hide Factor, Passed, Mul;
    match p
    case Start(_) =>
    case Hop(q, l) =>
      EnergyIs(g, q);
      DeliveredSnoc(Links(q), l, g.known, g.scorer.bonus);
      PassedIs(g, Energy(g, q), l);
      hide Delivered;
  }

  /** From equal energy and to equal bonuses, a heavier link delivers strictly more, once it is heavier than 0.35. */
  lemma HeavierDeliversMore(g: Graph, p: Path, l: Adjacent, m: Adjacent)
    requires Valid(g, Hop(p, l)) && Valid(g, Hop(p, m)) && Energy(g, p) > 0.0
    requires g.scorer.bonus(g.known[l.id]) == g.scorer.bonus(g.known[m.id])
    ensures l.weight > m.weight && l.weight > 0.35 ==> Energy(g, Hop(p, l)) > Energy(g, Hop(p, m))
    ensures l.weight <= 0.35 && m.weight <= 0.35 ==> Energy(g, Hop(p, l)) == Energy(g, Hop(p, m))
  {
    PassedIs(g, Energy(g, p), l);
    PassedIs(g, Energy(g, p), m);
    FactorGrows(l.weight, m.weight);
    hide Passed, Factor, Mul;
    MulLaws(Energy(g, p), Factor(l.weight), Factor(m.weight), 0.0);
  }

  lemma FactorGrows(w: real, v: real)
    ensures w > v && w > 0.35 ==> Factor(w) > Factor(v)
    ensures w <= 0.35 && v <= 0.35 ==> Factor(w) == Factor(v)
  {
  }

  /** What an exact entry holds, in terms of the links: seeds, and they alone, are marked as such and have depth 0; the
      score is the node's own plus the most that any shortest route delivers. */
  lemma ExactIs(g: Graph, id: string, a: Activated)
    requires id in g.known && Exact(g, id, a)
    ensures a.node == g.known[id] && (a.reason == Seed <==> id in g.seeds) && (a.depth == 0 <==> id in g.seeds)
    ensures forall p :: Valid(g, p) && End(p) == id ==> |Links(p)| >= a.depth
    ensures forall p :: Valid(g, p) && End(p) == id && |Links(p)| == a.depth ==>
              (forall i :: 0 <= i < |Links(p)| ==> Links(p)[i].id in g.known)
                && a.score >= g.scorer.score(a.node) + Delivered(Links(p), g.known, g.scorer.bonus)
    ensures exists p :: Valid(g, p) && End(p) == id && |Links(p)| == a.depth
              && (forall i :: 0 <= i < |Links(p)| ==> Links(p)[i].id in g.known)
              && a.score == g.scorer.score(a.node) + Delivered(Links(p), g.known, g.scorer.bonus)
  {
    hide Delivered, Energy, Valid;
    SeedsStart(g, id);
    forall p ensures |Links(p)| == Len(p) { LinksCount(p); }
    forall p | Valid(g, p)
      ensures forall i :: 0 <= i < |Links(p)| ==> Links(p)[i].id in g.known
      ensures Energy(g, p) == Delivered(Links(p), g.known, g.scorer.bonus)
    {
      EnergyIs(g, p);
    }
    var p :| Route(g, p, id, a.depth) && a.score == g.scorer.score(a.node) + Energy(g, p);
    assert Valid(g, p) && End(p) == id && |Links(p)| == a.depth;
  }

  lemma SeedsStart(g: Graph, id: string)
    ensures (exists p :: Valid(g, p) && End(p) == id && Len(p) == 0) <==> id in g.seeds
  {
    if id in g.seeds { assert Valid(g, Start(id)) && End(Start(id)) == id && Len(Start(id)) == 0; }
  }

  lemma {:induction false} LinksCount(p: Path)
    ensures |Links(p)| == Len(p)
  {
    if p.Hop? { LinksCount(p.prev); }
  }

  function Begin(p: Path): string {
    match p case Start(s) => s case Hop(q, _) => Begin(q)
  }

  /** Link i leads to a known node and is one of those of the id before it. */
  ghost predicate Leads(g: Graph, start: string, links: seq<Adjacent>, i: nat)
    requires i < |links|
  {
    links[i].id in g.known && links[i] in Neighbours(g.adjacency, if i == 0 then start else links[i - 1].id)
  }

  ghost predicate AllLead(g: Graph, start: string, links: seq<Adjacent>) {
    forall i :: 0 <= i < |links| ==> Leads(g, start, links, i)
  }

  lemma LeadOn(g: Graph, start: string, links: seq<Adjacent>, l: Adjacent)
    ensures AllLead(g, start, links + [l]) <==>
              && AllLead(g, start, links) && l.id in g.known
              && l in Neighbours(g.adjacency, if links == [] then start else links[|links| - 1].id)
  {
    var n, more := |links|, links + [l];
    forall i | 0 <= i < n ensures Leads(g, start, more, i) <==> Leads(g, start, links, i) { }
    assert Leads(g, start, more, n) <==>
           l.id in g.known && l in Neighbours(g.adjacency, if links == [] then start else links[n - 1].id);
    hide Leads, Neighbours;
    if AllLead(g, start, more) {
      assert Leads(g, start, more, n);
      forall i | 0 <= i < n ensures Leads(g, start, links, i) { assert Leads(g, start, more, i); }
    }
  }

  /** A route link by link, from a seed on. */
  lemma {:induction false} RouteMeans(g: Graph, p: Path)
    ensures Valid(g, p) <==> Begin(p) in g.seeds && AllLead(g, Begin(p), Links(p))
    ensures End(p) == if Links(p) == [] then Begin(p) else Links(p)[|Links(p)| - 1].id
  {
    match p
    case Start(_) =>
    case Hop(q, l) =>
      RouteMeans(g, q);
      LeadOn(g, Begin(q), Links(q), l);
      hide AllLead, Neighbours;
      assert Links(p) == Links(q) + [l] && Begin(p) == Begin(q);
  }

  // ---------------------------------------------------------------- termination measure

  datatype Queued = Queued(id: string, depth: nat, energy: real)

  /** What an entry can still cost when it may be expanded k more levels into at most `degree` entries each. */
  ghost function Cost(degree: nat, k: nat): nat {
    if k == 0 then 1 else 1 + degree * Cost(degree, k - 1)
  }

  ghost function QueueCost(degree: nat, maxDepth: nat, queue: seq<Queued>): nat {
    if queue == [] then 0
    else
      (if queue[0].depth <= maxDepth then Cost(degree, maxDepth - queue[0].depth) else 1)
      + QueueCost(degree, maxDepth, queue[1..])
  }

  lemma {:induction false} QueueCostAppend(degree: nat, maxDepth: nat, a: seq<Queued>, b: seq<Queued>)
    ensures QueueCost(degree, maxDepth, a + b) == QueueCost(degree, maxDepth, a) + QueueCost(degree, maxDepth, b)
  {
    if a == [] {
      assert a + b == b;
    } else {
      assert (a + b)[0] == a[0] && (a + b)[1..] == a[1..] + b;
      QueueCostAppend(degree, maxDepth, a[1..], b);
    }
  }

  lemma {:induction false} QueueCostLevel(degree: nat, maxDepth: nat, b: seq<Queued>, d: nat)
    requires d <= maxDepth && forall i :: 0 <= i < |b| ==> b[i].depth == d
    ensures QueueCost(degree, maxDepth, b) == |b| * Cost(degree, maxDepth - d)
  {
    if b != [] { QueueCostLevel(degree, maxDepth, b[1..], d); }
  }

  lemma MulMonotone(a: nat, b: nat, c: nat)
    requires a <= b
    ensures a * c <= b * c
  {
  }

  lemma PopDecreases(degree: nat, maxDepth: nat, queue: seq<Queued>, added: seq<Queued>)
    requires queue != [] && queue[0].depth <= maxDepth
    requires |added| <= degree && forall i :: 0 <= i < |added| ==> added[i].depth == queue[0].depth + 1 <= maxDepth
    ensures QueueCost(degree, maxDepth, queue[1..] + added) < QueueCost(degree, maxDepth, queue)
  {
    QueueCostAppend(degree, maxDepth, queue[1..], added);
    if added != [] {
      var d := queue[0].depth + 1;
      QueueCostLevel(degree, maxDepth, added, d);
      var c := Cost(degree, maxDepth - d);
      MulMonotone(|added|, degree, c);
      assert Cost(degree, maxDepth - queue[0].depth) == 1 + degree * c;
      hide Cost;
    }
  }

  // ---------------------------------------------------------------- the worklist algorithm

  ghost predicate Matches(g: Graph, maxDepth: nat, queue: seq<Queued>, paths: seq<Path>) {
    && |paths| == |queue|
    && forall i :: 0 <= i < |queue| ==>
         Route(g, paths[i], queue[i].id, queue[i].depth) && queue[i].depth <= maxDepth
             && queue[i].energy == Energy(g, paths[i])
  }

  /** First in, first out keeps the queue sorted by depth, over at most two levels. */
  ghost predicate Layered(queue: seq<Queued>) {
    && (forall i, j :: 0 <= i < j < |queue| ==> queue[i].depth <= queue[j].depth)
    && (forall i :: 0 <= i < |queue| ==> queue[i].depth <= queue[0].depth + 1)
  }

  /** Every processed route has the recorded depth, and every recorded depth has a processed route. */
  ghost predicate Processed(g: Graph, maxDepth: nat, done: set<Path>, seen: map<string, nat>) {
    && (forall p :: p in done ==> Valid(g, p) && Len(p) <= maxDepth && End(p) in seen && seen[End(p)] == Len(p))
    && (forall id :: id in seen ==> exists p :: p in done && End(p) == id)
  }

  /** `a` is the best entry for id that the routes in `done` can account for. */
  ghost predicate BestOf(g: Graph, done: set<Path>, id: string, a: Activated)
    requires forall p :: p in done ==> Valid(g, p)
    requires id in g.known
  {
    && a.node == g.known[id]
    && a.reason == (if a.depth == 0 then Seed else GraphActivation)
    && (exists p :: p in done && End(p) == id && a.score == g.scorer.score(g.known[id]) + Energy(g, p))
    && (forall p :: p in done && End(p) == id ==> a.score >= g.scorer.score(g.known[id]) + Energy(g, p))
  }

  ghost predicate Recorded(g: Graph, done: set<Path>, seen: map<string, nat>, best: map<string, Activated>)
    requires forall p :: p in done ==> Valid(g, p)
  {
    && best.Keys == seen.Keys
    && forall id :: id in best ==> id in g.known && best[id].depth == seen[id] && BestOf(g, done, id, best[id])
  }

  /** p is processed, still queued, or beaten by a strictly shorter route to the same node. */
  ghost predicate Accounted(p: Path, done: set<Path>, paths: seq<Path>, seen: map<string, nat>) {
    p in done || p in paths || (End(p) in seen && seen[End(p)] < Len(p))
  }

  ghost predicate Complete(g: Graph, maxDepth: nat, done: set<Path>, paths: seq<Path>, seen: map<string, nat>) {
    && (forall s :: s in g.seeds ==> Accounted(Start(s), done, paths, seen))
    && (forall p, l :: p in done && Valid(g, Hop(p, l)) && Len(p) < maxDepth ==>
        Accounted(Hop(p, l), done, paths, seen))
  }

  /** With an empty queue, every route within the depth limit is processed or beaten. */
  lemma {:induction false} AllAccounted(g: Graph, maxDepth: nat, done: set<Path>, seen: map<string, nat>, p: Path)
    requires Processed(g, maxDepth, done, seen) && Complete(g, maxDepth, done, [], seen)
    requires Valid(g, p) && Len(p) <= maxDepth
    ensures Accounted(p, done, [], seen)
  {
    match p
    case Start(s) =>
    case Hop(q, l) =>
      AllAccounted(g, maxDepth, done, seen, q);
      if q !in done {
        var r :| r in done && End(r) == End(q);
        assert Valid(g, Hop(r, l));
        assert Accounted(Hop(r, l), done, [], seen);
      }
  }

  /** Entries of one depth, each with the route it stands for. */
  ghost predicate Spawned(g: Graph, depth: nat, added: seq<Queued>, hops: seq<Path>) {
    && |added| == |hops|
    && forall i :: 0 <= i < |added| ==>
         added[i].depth == depth && Route(g, hops[i], added[i].id, depth) && added[i].energy == Energy(g, hops[i])
  }

  /** The inner loop: what processing `current` puts on the queue. */
  method Expand(g: Graph, current: Queued, ghost path: Path) returns (added: seq<Queued>, ghost paths: seq<Path>)
    requires Route(g, path, current.id, current.depth) && current.energy == Energy(g, path)
    ensures |added| <= |Neighbours(g.adjacency, current.id)|
    ensures Spawned(g, current.depth + 1, added, paths)
    ensures forall l :: Valid(g, Hop(path, l)) ==> Hop(path, l) in paths
  {
    added, paths := [], [];
    var next := Neighbours(g.adjacency, current.id);
    for k := 0 to |next|
      invariant |added| <= k && Spawned(g, current.depth + 1, added, paths)
      invariant forall i :: 0 <= i < k && next[i].id in g.known ==> Hop(path, next[i]) in paths
    {
      if next[k].id !in g.known { continue; }
      added := added + [Queued(next[k].id, current.depth + 1, Passed(g, current.energy, next[k]))];
      ghost var extended := Hop(path, next[k]);
      assert extended in paths + [extended];
      paths := paths + [extended];
    }
  }

  /** Dropping the head of the queue as processed or beaten, and appending what it leads to, keeps everything accounted
      for. */
  lemma StepComplete(g: Graph, maxDepth: nat, done: set<Path>, paths: seq<Path>, seen: map<string, nat>,
                     done': set<Path>, added: seq<Path>, seen': map<string, nat>)
    requires paths != [] && Complete(g, maxDepth, done, paths, seen)
    requires forall id :: id in seen ==> id in seen' && seen'[id] == seen[id]
    requires done' == done + {paths[0]} || (done' == done && Accounted(paths[0], done, [], seen))
    requires paths[0] in done' && Len(paths[0]) < maxDepth ==>
               forall l :: Valid(g, Hop(paths[0], l)) ==> paths[0] in done || Hop(paths[0], l) in added
    ensures Complete(g, maxDepth, done', paths[1..] + added, seen')
  {
    var paths' := paths[1..] + added;
    forall p | Accounted(p, done, paths, seen) ensures Accounted(p, done', paths', seen') {
      if p in paths {
        var i :| 0 <= i < |paths| && paths[i] == p;
        if i > 0 { assert paths'[i - 1] == p; }
      }
    }
    forall p, l | p in done' && Valid(g, Hop(p, l)) && Len(p) < maxDepth
      ensures Accounted(Hop(p, l), done', paths', seen')
    {
      if p !in done { assert Hop(p, l) in added; assert Hop(p, l) in paths'; }
    }
  }

  lemma LayeredStep(queue: seq<Queued>, added: seq<Queued>)
    requires queue != [] && Layered(queue)
    requires forall i :: 0 <= i < |added| ==> added[i].depth == queue[0].depth + 1
    ensures Layered(queue[1..] + added)
    ensures forall i :: 0 <= i < |queue[1..] + added| ==> (queue[1..] + added)[i].depth >= queue[0].depth
  {
    var q := queue[1..] + added;
    forall i, j | 0 <= i < j < |q| ensures q[i].depth <= q[j].depth { }
  }

  /** `best` after the entry at the end of `path` has been scored. */
  function Score(g: Graph, best: map<string, Activated>, current: Queued): map<string, Activated>
    requires current.id in g.known
  {
    var node := g.known[current.id];
    var score := g.scorer.score(node) + current.energy;
    var reason := if current.depth > 0 then GraphActivation else Seed;
    if current.id !in best || score > best[current.id].score
    then best[current.id := Activated(node, score, current.depth, reason)]
    else best
  }

  lemma ProcessedStep(g: Graph, maxDepth: nat, done: set<Path>, seen: map<string, nat>, current: Queued, path: Path)
    requires Processed(g, maxDepth, done, seen)
    requires Route(g, path, current.id, current.depth) && current.depth <= maxDepth
    requires current.id in seen ==> seen[current.id] == current.depth
    ensures Processed(g, maxDepth, done + {path}, seen[current.id := current.depth])
  {
    var done', seen' := done + {path}, seen[current.id := current.depth];
    forall id | id in seen' ensures exists p :: p in done' && End(p) == id {
      if id == current.id { assert path in done'; }
      else { var p :| p in done && End(p) == id; assert p in done'; }
    }
  }

  lemma BestKept(g: Graph, done: set<Path>, path: Path, id: string, a: Activated)
    requires (forall p :: p in done ==> Valid(g, p)) && Valid(g, path) && id in g.known
    requires BestOf(g, done, id, a)
    requires End(path) == id ==> a.score >= g.scorer.score(g.known[id]) + Energy(g, path)
    ensures BestOf(g, done + {path}, id, a)
  {
    var p :| p in done && End(p) == id && a.score == g.scorer.score(g.known[id]) + Energy(g, p);
    assert p in done + {path};
  }

  lemma BestReplaced(g: Graph, done: set<Path>, path: Path, a: Activated)
    requires (forall p :: p in done ==> Valid(g, p)) && Valid(g, path) && End(path) in g.known
    requires a.node == g.known[End(path)] && a.reason == (if a.depth == 0 then Seed else GraphActivation)
    requires a.score == g.scorer.score(a.node) + Energy(g, path)
    requires forall p :: p in done && End(p) == End(path) ==> a.score >= g.scorer.score(a.node) + Energy(g, p)
    ensures BestOf(g, done + {path}, End(path), a)
  {
    assert path in done + {path};
  }

  lemma ScoreRecords(g: Graph, maxDepth: nat, done: set<Path>, seen: map<string, nat>, best: map<string, Activated>,
                     current: Queued, path: Path)
    requires Processed(g, maxDepth, done, seen) && Recorded(g, done, seen, best)
    requires Route(g, path, current.id, current.depth) && current.energy == Energy(g, path)
    requires current.id in seen ==> seen[current.id] == current.depth
    requires current.id in g.known
    ensures Recorded(g, done + {path}, seen[current.id := current.depth], Score(g, best, current))
  {
    hide BestOf;
    var seen', best' := seen[current.id := current.depth], Score(g, best, current);
    forall id | id in best'
      ensures id in g.known && best'[id].depth == seen'[id] && BestOf(g, done + {path}, id, best'[id])
    {
      if id != current.id {
        BestKept(g, done, path, id, best[id]);
      } else {
        ScoreBest(g, maxDepth, done, seen, best, current, path);
      }
    }
  }

  lemma ScoreBest(g: Graph, maxDepth: nat, done: set<Path>, seen: map<string, nat>, best: map<string, Activated>,
                  current: Queued, path: Path)
    requires Processed(g, maxDepth, done, seen) && Recorded(g, done, seen, best)
    requires Route(g, path, current.id, current.depth) && current.energy == Energy(g, path)
    requires current.id in seen ==> seen[current.id] == current.depth
    requires current.id in g.known
    ensures var a := Score(g, best, current)[current.id];
            a.depth == current.depth && BestOf(g, done + {path}, current.id, a)
  {
    var id := current.id;
    var a := Score(g, best, current)[id];
    if id in best && a == best[id] && a.score >= g.scorer.score(g.known[id]) + Energy(g, path) {
      BestKept(g, done, path, id, a);
    } else {
      BestReplaced(g, done, path, a);
    }
  }

  /** The queue half of the invariant of the main loop; `paths` are the routes the entries stand for. */
  ghost predicate InvQueue(g: Graph, maxDepth: nat, queue: seq<Queued>, paths: seq<Path>, seen: map<string, nat>) {
    && Matches(g, maxDepth, queue, paths) && Layered(queue)
    && (forall id, i :: id in seen && 0 <= i < |queue| ==> seen[id] <= queue[i].depth)
  }

  /** The invariant of the main loop. */
  ghost predicate Inv(g: Graph, maxDepth: nat, queue: seq<Queued>, paths: seq<Path>, done: set<Path>,
                      seen: map<string, nat>, best: map<string, Activated>)
  {
    && InvQueue(g, maxDepth, queue, paths, seen)
    && Processed(g, maxDepth, done, seen) && Recorded(g, done, seen, best)
    && Complete(g, maxDepth, done, paths, seen)
  }

  lemma BeatenKeepsInv(g: Graph, maxDepth: nat, queue: seq<Queued>, paths: seq<Path>, done: set<Path>,
                       seen: map<string, nat>, best: map<string, Activated>)
    requires Inv(g, maxDepth, queue, paths, done, seen, best) && queue != []
    requires queue[0].id in seen && queue[0].depth > seen[queue[0].id]
    ensures Inv(g, maxDepth, queue[1..], paths[1..], done, seen, best)
  {
    hide Recorded;
    LayeredStep(queue, []);
    assert queue[1..] + [] == queue[1..] && paths[1..] + [] == paths[1..];
    assert End(paths[0]) == queue[0].id && Len(paths[0]) == queue[0].depth;
    StepComplete(g, maxDepth, done, paths, seen, done, [], seen);
    hide Complete, Processed;
  }

  lemma ProcessedKeepsInv(g: Graph, maxDepth: nat, queue: seq<Queued>, paths: seq<Path>, done: set<Path>,
                          seen: map<string, nat>, best: map<string, Activated>, added: seq<Queued>, hops: seq<Path>)
    requires WellFormed(g)
    requires Inv(g, maxDepth, queue, paths, done, seen, best) && queue != []
    requires !(queue[0].id in seen && queue[0].depth > seen[queue[0].id])
    requires Spawned(g, queue[0].depth + 1, added, hops) && queue[0].id in g.known
    requires added != [] ==> queue[0].depth < maxDepth
    requires queue[0].depth < maxDepth ==> forall l :: Valid(g, Hop(paths[0], l)) ==> Hop(paths[0], l) in hops
    ensures Inv(g, maxDepth, queue[1..] + added, paths[1..] + hops, done + {paths[0]},
                seen[queue[0].id := queue[0].depth], Score(g, best, queue[0]))
  {
    var current, path := queue[0], paths[0];
    var seen' := seen[current.id := current.depth];
    InvHead(g, maxDepth, queue, paths, done, seen, best);
    QueueStep(g, maxDepth, queue, paths, seen, added, hops);
    assert forall p :: p in done ==> Valid(g, p);
    hide InvQueue;
    ProcessedStep(g, maxDepth, done, seen, current, path);
    ScoreRecords(g, maxDepth, done, seen, best, current, path);
    hide Processed, Recorded, Score;
    StepComplete(g, maxDepth, done, paths, seen, done + {path}, hops, seen');
    hide Complete, Valid, Energy;
  }

  lemma QueueStep(g: Graph, maxDepth: nat, queue: seq<Queued>, paths: seq<Path>, seen: map<string, nat>,
                  added: seq<Queued>, hops: seq<Path>)
    requires queue != [] && InvQueue(g, maxDepth, queue, paths, seen)
    requires Spawned(g, queue[0].depth + 1, added, hops) && (added != [] ==> queue[0].depth < maxDepth)
    requires !(queue[0].id in seen && queue[0].depth > seen[queue[0].id])
    ensures queue[0].id in seen ==> seen[queue[0].id] == queue[0].depth
    ensures InvQueue(g, maxDepth, queue[1..] + added, paths[1..] + hops, seen[queue[0].id := queue[0].depth])
  {
    LayeredStep(queue, added);
    MatchesStep(g, maxDepth, queue, paths, added, hops);
    hide Layered, Matches;
    forall id, i | id in seen && 0 <= i < |queue[1..] + added| ensures seen[id] <= (queue[1..] + added)[i].depth {
      assert seen[id] <= queue[0].depth;
    }
  }

  lemma MatchesStep(g: Graph, maxDepth: nat, queue: seq<Queued>, paths: seq<Path>, added: seq<Queued>, hops: seq<Path>)
    requires queue != [] && Matches(g, maxDepth, queue, paths)
    requires Spawned(g, queue[0].depth + 1, added, hops) && (added != [] ==> queue[0].depth < maxDepth)
    ensures Matches(g, maxDepth, queue[1..] + added, paths[1..] + hops)
  {
  }

  /** When the queue is empty, the recorded entries are exactly the reached nodes. */
  lemma DoneReached(g: Graph, maxDepth: nat, done: set<Path>, seen: map<string, nat>, best: map<string, Activated>,
      id: string)
    requires Inv(g, maxDepth, [], [], done, seen, best)
    ensures id in best <==> Reached(g, id, maxDepth)
  {
    if id in best {
      var p :| p in done && End(p) == id;
      assert Valid(g, p) && End(p) == id && Len(p) <= maxDepth;
    }
    if Reached(g, id, maxDepth) {
      var p :| Valid(g, p) && End(p) == id && Len(p) <= maxDepth;
      AllAccounted(g, maxDepth, done, seen, p);
    }
  }

  /** What the invariant says of one entry once the queue is empty. */
  lemma DoneEntry(g: Graph, maxDepth: nat, done: set<Path>, seen: map<string, nat>, best: map<string, Activated>,
      id: string)
    requires Inv(g, maxDepth, [], [], done, seen, best) && id in best
    ensures Processed(g, maxDepth, done, seen) && Complete(g, maxDepth, done, [], seen)
    ensures id in seen && id in g.known && best[id].depth == seen[id] && BestOf(g, done, id, best[id])
  {
    hide Processed, Complete, BestOf, Valid, Energy;
  }

  lemma DoneShortest(g: Graph, maxDepth: nat, done: set<Path>, seen: map<string, nat>, p: Path)
    requires Processed(g, maxDepth, done, seen) && Complete(g, maxDepth, done, [], seen)
    requires Valid(g, p) && End(p) in seen
    ensures seen[End(p)] <= Len(p) && (seen[End(p)] == Len(p) ==> p in done)
  {
    hide Complete, Valid, Energy;
    var r :| r in done && End(r) == End(p);
    if Len(p) <= maxDepth { AllAccounted(g, maxDepth, done, seen, p); }
  }

  lemma DoneExact(g: Graph, maxDepth: nat, done: set<Path>, seen: map<string, nat>, best: map<string, Activated>,
      id: string)
    requires Inv(g, maxDepth, [], [], done, seen, best) && id in best
    ensures id in g.known && Exact(g, id, best[id])
  {
    DoneEntry(g, maxDepth, done, seen, best, id);
    hide Inv, Complete, Energy;
    var a := best[id];
    forall p | Valid(g, p) && End(p) == id ensures a.depth <= Len(p) && (a.depth == Len(p) ==> p in done) {
      DoneShortest(g, maxDepth, done, seen, p);
    }
    hide Valid;
    assert forall p :: p in done && End(p) == id ==> Route(g, p, id, a.depth);
  }

  method InitQueue(g: Graph, maxDepth: nat) returns (queue: seq<Queued>, ghost paths: seq<Path>)
    ensures Inv(g, maxDepth, queue, paths, {}, map[], map[])
  {
    queue, paths := [], [];
    for k := 0 to |g.seeds|
      invariant |queue| == |paths| == k
      invariant forall i :: 0 <= i < k ==>
                queue[i] == Queued(g.seeds[i], 0, SEED_ENERGY) && paths[i] == Start(g.seeds[i])
    {
      queue := queue + [Queued(g.seeds[k], 0, SEED_ENERGY)];
      paths := paths + [Start(g.seeds[k])];
    }
    forall s | s in g.seeds ensures Start(s) in paths {
      var i :| 0 <= i < |g.seeds| && g.seeds[i] == s;
      assert paths[i] == Start(s);
    }
  }

  /** The main loop of BuildActivationSet, up to the sort. */
  method Activate(g: Graph, maxDepth: nat, ghost degree: nat) returns (best: map<string, Activated>)
    requires WellFormed(g)
    requires forall id :: |Neighbours(g.adjacency, id)| <= degree
    ensures forall id :: id in best <==> Reached(g, id, maxDepth)
    ensures forall id :: id in best ==> id in g.known && Exact(g, id, best[id])
  {
    hide Exact, Reached, Inv, Valid, Energy, Score, Cost, QueueCost, WellFormed;
    var queue;
    ghost var paths;
    queue, paths := InitQueue(g, maxDepth);
    var seen: map<string, nat> := map[];
    best := map[];
    ghost var done: set<Path> := {};
    while queue != []
      invariant Inv(g, maxDepth, queue, paths, done, seen, best)
      decreases QueueCost(degree, maxDepth, queue)
    {
      var current := queue[0];
      ghost var q, ps := queue, paths;
      InvHead(g, maxDepth, queue, paths, done, seen, best);
      PopDecreases(degree, maxDepth, q, []);
      assert q[1..] + [] == q[1..] && ps[1..] + [] == ps[1..];
      queue, paths := queue[1..], paths[1..];
      if current.id !in g.known { continue; }
      if current.id in seen && current.depth > seen[current.id] {
        BeatenKeepsInv(g, maxDepth, q, ps, done, seen, best);
        continue;
      }
      var added := [];
      ghost var hops := [];
      if current.depth < maxDepth { added, hops := Expand(g, current, ps[0]); }
      ProcessedKeepsInv(g, maxDepth, q, ps, done, seen, best, added, hops);
      PopDecreases(degree, maxDepth, q, added);
      seen := seen[current.id := current.depth];
      best := Score(g, best, current);
      done := done + {ps[0]};
      queue, paths := queue + added, paths + hops;
    }
    InvEmpty(g, maxDepth, queue, paths, done, seen, best);
    forall id ensures id in best <==> Reached(g, id, maxDepth) { DoneReached(g, maxDepth, done, seen, best, id); }
    forall id | id in best ensures id in g.known && Exact(g, id, best[id]) {
      DoneExact(g, maxDepth, done, seen, best, id);
    }
  }

  lemma InvHead(g: Graph, maxDepth: nat, queue: seq<Queued>, paths: seq<Path>, done: set<Path>,
                seen: map<string, nat>, best: map<string, Activated>)
    requires WellFormed(g) && Inv(g, maxDepth, queue, paths, done, seen, best) && queue != []
    ensures paths != [] && Route(g, paths[0], queue[0].id, queue[0].depth) && queue[0].energy == Energy(g, paths[0])
    ensures queue[0].depth <= maxDepth && queue[0].id in g.known
  {
    RouteEndsKnown(g, paths[0]);
    assert Route(g, paths[0], queue[0].id, queue[0].depth);
  }

  lemma InvEmpty(g: Graph, maxDepth: nat, queue: seq<Queued>, paths: seq<Path>, done: set<Path>,
                 seen: map<string, nat>, best: map<string, Activated>)
    requires Inv(g, maxDepth, queue, paths, done, seen, best) && queue == []
    ensures paths == []
  {
  }

  // ---------------------------------------------------------------- building the graph from the records

  /** The node index: non-blank ids only, the last record of an id wins. */
  function Known(records: seq<Node>): map<string, Node> {
    if records == [] then map[]
    else
      var last := records[|records| - 1];
      var m := Known(records[..|records| - 1]);
      if Blank(last.id) then m else m[last.id := last]
  }

  /** Known in terms of positions: the keys are the non-blank ids, each with its last record. */
  lemma {:induction false} KnownIsLast(records: seq<Node>, id: string)
    ensures id in Known(records) <==> !Blank(id) && exists i :: 0 <= i < |records| && records[i].id == id
    ensures id in Known(records) ==>
              exists i :: 0 <= i < |records| && records[i] == Known(records)[id] && records[i].id == id
                          && forall k :: i < k < |records| ==> records[k].id != id
  {
    hide Blank;
    if records != [] {
      var n := |records| - 1;
      KnownIsLast(records[..n], id);
      if records[n].id == id && !Blank(id) {
        assert Known(records)[id] == records[n];
      } else if id in Known(records) {
        var i :| 0 <= i < n && records[..n][i] == Known(records[..n])[id] && records[..n][i].id == id
                 && forall k :: i < k < n ==> records[..n][k].id != id;
        assert records[i] == Known(records)[id];
        forall k | i < k < |records| ensures records[k].id != id {
          if k < n { assert records[..n][k] == records[k]; }
        }
      }
    }
  }

  lemma {:induction false} KnownKeysMatch(records: seq<Node>, id: string)
    requires id in Known(records)
    ensures Known(records)[id].id == id && !Blank(id)
  {
    hide Blank;
    if records != [] {
      var n := |records| - 1;
      if id in Known(records[..n]) { KnownKeysMatch(records[..n], id); }
    }
  }

  lemma KnownSnoc(records: seq<Node>, last: Node)
    ensures Known(records + [last]) == if Blank(last.id) then Known(records) else Known(records)[last.id := last]
  {
    hide Blank;
    assert (records + [last])[..|records|] == records;
  }

  /** Known after one more record. */
  lemma KnownNext(before: seq<Node>, records: seq<Node>, k: nat)
    requires k < |records|
    ensures Known(before + records[..k + 1]) ==
              var m := Known(before + records[..k]);
              if Blank(records[k].id) then m else m[records[k].id := records[k]]
  {
    KnownSnoc(before + records[..k], records[k]);
    hide Known, Blank;
    assert before + records[..k + 1] == before + records[..k] + [records[k]];
  }

  lemma KnownEnds(before: seq<Node>, records: seq<Node>)
    ensures Known(before + records[..0]) == Known(before)
            && Known(before + records[..|records|]) == Known(before + records)
    ensures Known([]) == map[] && [] + before == before
  {
    assert before + records[..0] == before && records[..|records|] == records;
  }

  method IndexNodes(nodes: seq<Node>, seeds: seq<Node>) returns (m: map<string, Node>)
    ensures m == Known(nodes + seeds)
  {
    hide *;
    KnownEnds([], nodes);
    KnownEnds(nodes, seeds);
    m := map[];
    for k := 0 to |nodes|
      invariant m == Known([] + nodes[..k])
    {
      KnownNext([], nodes, k);
      if Blank(nodes[k].id) { continue; }
      m := m[nodes[k].id := nodes[k]];
    }
    for k := 0 to |seeds|
      invariant m == Known(nodes + seeds[..k])
    {
      KnownNext(nodes, seeds, k);
      if Blank(seeds[k].id) { continue; }
      m := m[seeds[k].id := seeds[k]];
    }
  }

  /** e is an active edge that joins id, at either end, to a. */
  predicate Joins(e: Edge, id: string, a: Adjacent) {
    && ActiveStatus(e.status)
    && ((e.source == id && a == Adjacent(e.target, e.weight)) || (e.target == id && a == Adjacent(e.source, e.weight)))
  }

  function Push(m: map<string, seq<Adjacent>>, id: string, a: Adjacent): map<string, seq<Adjacent>> {
    m[id := Neighbours(m, id) + [a]]
  }

  /** One of the first k edges joins id to a. */
  ghost predicate Joined(edges: seq<Edge>, k: nat, id: string, a: Adjacent) {
    exists i :: 0 <= i < k && i < |edges| && Joins(edges[i], id, a)
  }

  lemma JoinedStep(edges: seq<Edge>, k: nat, id: string, a: Adjacent)
    requires k < |edges|
    ensures Joined(edges, k + 1, id, a) <==> Joined(edges, k, id, a) || Joins(edges[k], id, a)
  {
    hide Joins;
    if Joins(edges[k], id, a) { assert Joined(edges, k + 1, id, a); }
  }

  method BuildAdjacency(edges: seq<Edge>) returns (m: map<string, seq<Adjacent>>)
    ensures forall id, a :: a in Neighbours(m, id) <==> Joined(edges, |edges|, id, a)
    ensures forall id :: |Neighbours(m, id)| <= 2 * |edges|
  {
    hide ActiveStatus, Joined;
    m := map[];
    assert forall id, a :: !Joined(edges, 0, id, a) by { NothingJoined(edges); }
    for k := 0 to |edges|
      invariant forall id, a :: a in Neighbours(m, id) <==> Joined(edges, k, id, a)
      invariant forall id :: |Neighbours(m, id)| <= 2 * k
    {
      var e := edges[k];
      ghost var m0 := m;
      if ActiveStatus(e.status) {
        m := Push(Push(m, e.source, Adjacent(e.target, e.weight)), e.target, Adjacent(e.source, e.weight));
      }
      forall id, a ensures a in Neighbours(m, id) <==> Joined(edges, k + 1, id, a) {
        JoinedStep(edges, k, id, a);
        assert a in Neighbours(m, id) <==> a in Neighbours(m0, id) || Joins(e, id, a);
      }
      forall id ensures |Neighbours(m, id)| <= 2 * (k + 1) { assert |Neighbours(m0, id)| <= 2 * k; }
    }
  }

  lemma NothingJoined(edges: seq<Edge>)
    ensures forall id, a :: !Joined(edges, 0, id, a)
  {
  }

  // ---------------------------------------------------------------- the order of the result

  const TOLERANCE := 0.000000001

  /** Go's order of strings. */
  predicate LexLess(s: string, t: string) {
    t != "" && (s == "" || s[0] < t[0] || (s[0] == t[0] && LexLess(s[1..], t[1..])))
  }

  /** The absolute difference exceeds the tolerance. */
  predicate FarApart(x: real, y: real) { x - y > TOLERANCE || y - x > TOLERANCE }

  /** The comparator of the final sort. */
  predicate RankLess(a: Activated, b: Activated) {
    if FarApart(a.score, b.score) then a.score > b.score
    else if a.node.occurredAt != b.node.occurredAt then a.node.occurredAt > b.node.occurredAt
    else LexLess(a.node.id, b.node.id)
  }

  /** Equal scores or scores more than the tolerance apart; else the comparator is not transitive. */
  predicate Comparable(a: Activated, b: Activated) { a.score == b.score || FarApart(a.score, b.score) }

  lemma {:induction false} LexWeak(s: string, t: string, m: string)
    ensures LexLess(s, t) ==> !LexLess(t, s)
    ensures s != t ==> LexLess(s, t) || LexLess(t, s)
    ensures LexLess(s, t) ==> LexLess(s, m) || LexLess(m, t)
  {
    if s != "" && t != "" {
      LexWeak(s[1..], t[1..], if m == "" then "" else m[1..]);
      assert s == [s[0]] + s[1..] && t == [t[0]] + t[1..];
    }
  }

  lemma RankIsWeak(s: seq<Activated>)
    requires forall a, b :: a in s && b in s ==> Comparable(a, b)
    ensures WeakOrder(RankLess, s)
  {
    hide LexLess;
    forall a, b | a in s && b in s && RankLess(a, b) ensures !RankLess(b, a) {
      assert Comparable(a, b);
      LexWeak(a.node.id, b.node.id, "");
    }
    forall a, b, c | a in s && b in s && c in s && RankLess(a, c) ensures RankLess(a, b) || RankLess(b, c) {
      assert Comparable(a, b) && Comparable(b, c) && Comparable(a, c);
      LexWeak(a.node.id, c.node.id, b.node.id);
    }
  }

  lemma RankTotal(a: Activated, b: Activated)
    requires a.node.id != b.node.id && !RankLess(b, a) && Comparable(a, b)
    ensures RankLess(a, b)
  {
    LexWeak(a.node.id, b.node.id, "");
    hide LexLess;
  }

  /** The entries are ranked, and every entry that was cut ranks behind all that were kept. */
  ghost predicate Ranked(best: map<string, Activated>, out: seq<Activated>) {
    && (forall i, j :: 0 <= i < j < |out| ==> RankLess(out[i], out[j]))
    && (forall id, i :: id in best && best[id] !in out && 0 <= i < |out| ==> RankLess(out[i], best[id]))
  }

  ghost predicate Graded(best: map<string, Activated>) {
    forall x, y :: x in best && y in best ==> Comparable(best[x], best[y])
  }

  /** out lists the entries of best, each once. */
  ghost predicate Lists(best: map<string, Activated>, out: seq<Activated>) {
    && (forall i :: 0 <= i < |out| ==> out[i].node.id in best && out[i] == best[out[i].node.id])
    && (forall i, j :: 0 <= i < j < |out| ==> out[i].node.id != out[j].node.id)
  }

  method Collect(best: map<string, Activated>) returns (out: seq<Activated>)
    requires forall id :: id in best ==> best[id].node.id == id
    ensures |out| == |best| && Lists(best, out)
  {
    out := [];
    var left := best.Keys;
    while left != {}
      invariant left <= best.Keys && |out| + |left| == |best.Keys|
      invariant forall i :: 0 <= i < |out| ==>
                  out[i].node.id in best && out[i] == best[out[i].node.id] && out[i].node.id !in left
      invariant forall i, j :: 0 <= i < j < |out| ==> out[i].node.id != out[j].node.id
      decreases |left|
    {
      var id :| id in left;
      left := left - {id};
      out := out + [best[id]];
    }
    assert |best.Keys| == |best|;
  }

  lemma ListsPermuted(best: map<string, Activated>, a: seq<Activated>, b: seq<Activated>)
    requires Lists(best, a) && multiset(a) == multiset(b)
    ensures Lists(best, b) && |b| == |a|
  {
    SameElements(a, b);
    assert Distinct(a);
    StaysDistinct(a, b);
    forall i | 0 <= i < |b| ensures b[i].node.id in best && b[i] == best[b[i].node.id] { assert b[i] in a; }
  }

  lemma SortedIsRanked(best: map<string, Activated>, all: seq<Activated>, limit: nat)
    requires Lists(best, all) && |all| == |best| && Graded(best) && Sorted(RankLess, all)
    requires forall id :: id in best ==> best[id].node.id == id
    ensures Ranked(best, if |all| > limit then all[..limit] else all)
  {
    hide RankLess, Comparable;
    forall i, j | 0 <= i < j < |all| ensures RankLess(all[i], all[j]) { RankTotal(all[i], all[j]); }
    var out := if |all| > limit then all[..limit] else all;
    forall id, i | id in best && best[id] !in out && 0 <= i < |out| ensures RankLess(out[i], best[id]) {
      AllKept(best, all, id);
      var j :| 0 <= j < |all| && all[j].node.id == id;
      assert all[j] == best[id] && out[i] == all[i];
      assert j >= |out| by { assert forall k :: 0 <= k < |out| ==> all[k] in out; }
    }
  }

  lemma ListsCut(best: map<string, Activated>, all: seq<Activated>, limit: nat)
    requires Lists(best, all) && limit <= |all|
    ensures Lists(best, all[..limit])
  {
  }

  /** The final sort and cut: the first `limit` entries of the ranking, if the comparator ranks them at all. */
  method SortAndCut(best: map<string, Activated>, limit: nat) returns (out: seq<Activated>)
    requires forall id :: id in best ==> best[id].node.id == id
    ensures |out| == (if |best| < limit then |best| else limit) && Lists(best, out)
    ensures Graded(best) ==> Ranked(best, out)
  {
    hide Lists, Graded, Ranked, Sorted, WeakOrder;
    var all := Collect(best);
    out := SortSlice(all, RankLess);
    ListsPermuted(best, all, out);
    if Graded(best) {
      ListsGraded(best, all);
      RankIsWeak(all);
      SortedIsRanked(best, out, limit);
    }
    if |out| > limit {
      ListsCut(best, out, limit);
      out := out[..limit];
    }
  }

  lemma ListsGraded(best: map<string, Activated>, all: seq<Activated>)
    requires Lists(best, all) && Graded(best)
    ensures forall a, b :: a in all && b in all ==> Comparable(a, b)
  {
    hide Comparable;
    assert forall a :: a in all ==> a.node.id in best && a == best[a.node.id];
  }

  /** The graph of a call: indexed records, non-blank seed ids, adjacency over the active edges. */
  ghost predicate Describes(g: Graph, seeds: seq<Node>, nodes: seq<Node>, edges: seq<Edge>, scorer: Scorer) {
    && g.known == Known(nodes + seeds) && g.scorer == scorer
    && (forall id :: id in g.seeds <==> !Blank(id) && exists i :: 0 <= i < |seeds| && seeds[i].id == id)
    && (forall id, a :: a in Neighbours(g.adjacency, id) <==> Joined(edges, |edges|, id, a))
  }

  method SeedIds(seeds: seq<Node>) returns (ids: seq<string>)
    ensures forall id :: id in ids <==> !Blank(id) && exists i :: 0 <= i < |seeds| && seeds[i].id == id
  {
    hide Blank;
    ids := [];
    for k := 0 to |seeds|
      invariant forall id :: id in ids <==> !Blank(id) && exists i :: 0 <= i < k && seeds[i].id == id
    {
      ghost var ids0 := ids;
      if !Blank(seeds[k].id) { ids := ids + [seeds[k].id]; }
      forall id ensures id in ids <==> !Blank(id) && exists i :: 0 <= i < k + 1 && seeds[i].id == id {
        if id in ids0 { var i :| 0 <= i < k && seeds[i].id == id; }
        if id in ids && id !in ids0 { assert id == seeds[k].id; }
      }
    }
  }

  lemma SeedsAreKnown(seeds: seq<Node>, nodes: seq<Node>, id: string)
    requires !Blank(id) && exists i :: 0 <= i < |seeds| && seeds[i].id == id
    ensures id in Known(nodes + seeds)
  {
    hide Blank;
    var i :| 0 <= i < |seeds| && seeds[i].id == id;
    assert (nodes + seeds)[|nodes| + i].id == id;
    KnownIsLast(nodes + seeds, id);
  }

  /** Graphs that describe one call have the same routes and energies, so it does not matter which one is meant. */
  lemma {:induction false} SameRoutes(g: Graph, h: Graph, seeds: seq<Node>, nodes: seq<Node>, edges: seq<Edge>,
      scorer: Scorer, p: Path)
    requires Describes(g, seeds, nodes, edges, scorer) && Describes(h, seeds, nodes, edges, scorer)
    ensures Valid(g, p) <==> Valid(h, p)
    ensures Valid(g, p) ==> Energy(g, p) == Energy(h, p)
  {
    hide Blank, Joined, Known;
    if p.Hop? { SameRoutes(g, h, seeds, nodes, edges, scorer, p.prev); }
  }

  /** a is the exact entry of a node within reach. */
  ghost predicate Activates(g: Graph, depth: nat, a: Activated) {
    a.node.id in g.known && Reached(g, a.node.id, depth) && Exact(g, a.node.id, a)
  }

  ghost predicate AllComparable(g: Graph, depth: nat) {
    forall a, b :: Activates(g, depth, a) && Activates(g, depth, b) ==> Comparable(a, b)
  }

  /** The entries are in rank order and every activated entry that was cut ranks behind all of them. */
  ghost predicate TopRanked(g: Graph, depth: nat, out: seq<Activated>) {
    && (forall i, j :: 0 <= i < j < |out| ==> RankLess(out[i], out[j]))
    && (forall a, i :: Activates(g, depth, a) && a !in out && 0 <= i < |out| ==> RankLess(out[i], a))
  }

  /** Every entry is exact, ids are distinct, and nothing reached is missing unless the limit cuts it. If any two
      scores are equal or more than the tolerance apart, the entries are ranked and the limit cuts the last ones. */
  ghost predicate IsActivationSet(g: Graph, depth: nat, cap: nat, out: seq<Activated>) {
    && |out| <= cap
    && (forall i :: 0 <= i < |out| ==> Activates(g, depth, out[i]))
    && (forall i, j :: 0 <= i < j < |out| ==> out[i].node.id != out[j].node.id)
    && (AllComparable(g, depth) ==> TopRanked(g, depth, out))
    && (|out| < cap ==> forall id :: Reached(g, id, depth) ==> exists i :: 0 <= i < |out| && out[i].node.id == id)
  }

  /** BuildActivationSet: non-positive options take their defaults. */
  method BuildActivationSet(seeds: seq<Node>, nodes: seq<Node>, edges: seq<Edge>, scorer: Scorer, limit: int,
      maxDepth: int)
    returns (out: seq<Activated>)
    ensures exists g :: && WellFormed(g) && Describes(g, seeds, nodes, edges, scorer)
                        && var depth, cap := if maxDepth <= 0 then 1 else maxDepth, if limit <= 0 then 6 else limit;
                           IsActivationSet(g, depth, cap, out)
  {
    hide Blank, Joined, Known, Reached, Exact, WellFormed, Describes, IsActivationSet, Records, Lists, Graded, Ranked;
    var cap: nat := if limit <= 0 then 6 else limit;
    var depth: nat := if maxDepth <= 0 then 1 else maxDepth;
    var known := IndexNodes(nodes, seeds);
    var adjacency := BuildAdjacency(edges);
    var ids := SeedIds(seeds);
    var g := Graph(ids, known, adjacency, scorer);
    GraphDescribes(g, seeds, nodes, edges, scorer);
    var best := Activate(g, depth, 2 * |edges|);
    EntriesNamed(g, best);
    out := SortAndCut(best, cap);
    BestActivates(g, depth, best);
    CutIsActivationSet(g, depth, cap, best, out);
  }

  lemma GraphDescribes(g: Graph, seeds: seq<Node>, nodes: seq<Node>, edges: seq<Edge>, scorer: Scorer)
    requires g.known == Known(nodes + seeds) && g.scorer == scorer
    requires forall id :: id in g.seeds <==> !Blank(id) && exists i :: 0 <= i < |seeds| && seeds[i].id == id
    requires forall id, a :: a in Neighbours(g.adjacency, id) <==> Joined(edges, |edges|, id, a)
    ensures WellFormed(g) && Describes(g, seeds, nodes, edges, scorer)
  {
    hide Blank, Joined, Known, Neighbours;
    forall id | id in g.seeds ensures id in g.known { SeedsAreKnown(seeds, nodes, id); }
    forall id | id in g.known ensures g.known[id].id == id { KnownKeysMatch(nodes + seeds, id); }
  }

  lemma EntriesNamed(g: Graph, best: map<string, Activated>)
    requires WellFormed(g) && forall id :: id in best ==> id in g.known && Exact(g, id, best[id])
    ensures forall id :: id in best ==> best[id].node.id == id
  {
    hide Valid, Route, Energy;
  }

  /** An exact entry is the only one of its node. */
  lemma ExactIsUnique(g: Graph, id: string, a: Activated, b: Activated)
    requires id in g.known && Exact(g, id, a) && Exact(g, id, b)
    ensures a == b
  {
    hide Valid, Energy;
    var p :| Route(g, p, id, a.depth) && a.score == g.scorer.score(a.node) + Energy(g, p);
    var q :| Route(g, q, id, b.depth) && b.score == g.scorer.score(b.node) + Energy(g, q);
    assert a.depth <= Len(q) && b.depth <= Len(p);
  }

  lemma BestActivates(g: Graph, depth: nat, best: map<string, Activated>)
    requires forall id :: id in best <==> Reached(g, id, depth)
    requires forall id :: id in best ==> id in g.known && Exact(g, id, best[id]) && best[id].node.id == id
    ensures Records(g, depth, best)
  {
    hide Reached, Exact;
    forall a | Activates(g, depth, a) ensures a.node.id in best && best[a.node.id] == a {
      ExactIsUnique(g, a.node.id, best[a.node.id], a);
    }
  }

  /** The recorded entries are exactly the activated ones. */
  ghost predicate Records(g: Graph, depth: nat, best: map<string, Activated>) {
    && (forall id :: id in best ==> Activates(g, depth, best[id]) && best[id].node.id == id)
    && (forall a :: Activates(g, depth, a) ==> a.node.id in best && best[a.node.id] == a)
  }

  lemma CutIsTopRanked(g: Graph, depth: nat, best: map<string, Activated>, out: seq<Activated>)
    requires Records(g, depth, best) && (Graded(best) ==> Ranked(best, out)) && AllComparable(g, depth)
    ensures TopRanked(g, depth, out)
  {
    hide Activates, Comparable, RankLess;
    assert Graded(best);
    forall a, i | Activates(g, depth, a) && a !in out && 0 <= i < |out| ensures RankLess(out[i], a) {
      assert best[a.node.id] == a;
    }
  }

  lemma CutIsActivationSet(g: Graph, depth: nat, cap: nat, best: map<string, Activated>, out: seq<Activated>)
    requires Records(g, depth, best) && forall id :: id in best <==> Reached(g, id, depth)
    requires |out| == (if |best| < cap then |best| else cap) && Lists(best, out)
    requires Graded(best) ==> Ranked(best, out)
    ensures IsActivationSet(g, depth, cap, out)
  {
    hide Reached, Activates, TopRanked, AllComparable, Ranked, Graded;
    if AllComparable(g, depth) { CutIsTopRanked(g, depth, best, out); }
    if |out| < cap {
      forall id | Reached(g, id, depth) ensures exists i :: 0 <= i < |out| && out[i].node.id == id {
        AllKept(best, out, id);
      }
    }
  }

  lemma AllKept(best: map<string, Activated>, out: seq<Activated>, id: string)
    requires |out| == |best| && id in best
    requires forall i :: 0 <= i < |out| ==> out[i].node.id in best
    requires forall i, j :: 0 <= i < j < |out| ==> out[i].node.id != out[j].node.id
    ensures exists i :: 0 <= i < |out| && out[i].node.id == id
  {
    var ids := seq(|out|, i requires 0 <= i < |out| => out[i].node.id);
    DistinctCount(ids);
    var s := set x | x in ids;
    assert s <= best.Keys;
    if id !in s { SubsetSmaller(s, best.Keys - {id}); }
  }

  lemma {:induction false} DistinctCount(ids: seq<string>)
    requires forall i, j :: 0 <= i < j < |ids| ==> ids[i] != ids[j]
    ensures |(set x | x in ids)| == |ids|
  {
    if ids != [] {
      var n := |ids| - 1;
      DistinctCount(ids[..n]);
      assert (set x | x in ids) == (set x | x in ids[..n]) + {ids[n]};
    }
  }

  lemma {:induction false} SubsetSmaller<T>(a: set<T>, b: set<T>)
    requires a <= b
    ensures |a| <= |b|
  {
    if a != {} {
      var x :| x in a;
      SubsetSmaller(a - {x}, b - {x});
    }
  }

  // ---------------------------------------------------------------- the graph and the ranking, in plain terms

  /** The edge is in force: its status is blank or active, whatever the case and the spaces around. */
  ghost predicate InForce(e: Edge) { Trim(e.status) == "" || EqualFold(Trim(e.status), "active") }

  /** The graph of a call: two ids are adjacent, with the weight of the edge, exactly if an edge in force joins them,
      whichever end is the source; an id is known exactly if it is not blank and has a record, and then by its last one
      among the nodes and, behind them, the seeds. */
  lemma GraphMeans(g: Graph, seeds: seq<Node>, nodes: seq<Node>, edges: seq<Edge>, scorer: Scorer, x: string,
                   y: string, weight: real)
    requires Describes(g, seeds, nodes, edges, scorer)
    ensures Adjacent(y, weight) in Neighbours(g.adjacency, x) <==>
              exists e :: e in edges && InForce(e) && e.weight == weight
                && ((e.source == x && e.target == y) || (e.source == y && e.target == x))
    ensures x in g.known <==> Trim(x) != "" && exists i :: 0 <= i < |nodes + seeds| && (nodes + seeds)[i].id == x
    ensures x in g.known ==> exists i ::
              && 0 <= i < |nodes + seeds| && (nodes + seeds)[i] == g.known[x] && (nodes + seeds)[i].id == x
              && forall k :: i < k < |nodes + seeds| ==> (nodes + seeds)[k].id != x
    ensures x in g.seeds <==> Trim(x) != "" && exists i :: 0 <= i < |seeds| && seeds[i].id == x
  {
    KnownIsLast(nodes + seeds, x);
    hide Trim, EqualFold, Known;
    var a := Adjacent(y, weight);
    assert a in Neighbours(g.adjacency, x) <==> Joined(edges, |edges|, x, a);
    JoinedMeans(edges, x, y, weight);
  }

  lemma JoinedMeans(edges: seq<Edge>, x: string, y: string, weight: real)
    ensures Joined(edges, |edges|, x, Adjacent(y, weight)) <==>
              exists e :: e in edges && InForce(e) && e.weight == weight
                && ((e.source == x && e.target == y) || (e.source == y && e.target == x))
  {
    hide Trim, EqualFold;
    var a := Adjacent(y, weight);
    if Joined(edges, |edges|, x, a) {
      var i :| 0 <= i < |edges| && Joins(edges[i], x, a);
      assert edges[i] in edges && InForce(edges[i]) && edges[i].weight == weight;
    }
    if e :| e in edges && InForce(e) && e.weight == weight
            && ((e.source == x && e.target == y) || (e.source == y && e.target == x)) {
      var i :| 0 <= i < |edges| && edges[i] == e;
      assert Joins(edges[i], x, a);
    }
  }

  /** Strings are ordered by their first difference, a proper prefix before the longer one. */
  lemma {:induction false} LexMeans(s: string, t: string)
    ensures LexLess(s, t) <==>
              exists k :: 0 <= k <= |s| && k < |t| && s[..k] == t[..k] && (k == |s| || s[k] < t[k])
  {
    if t != "" && s != "" && s[0] == t[0] {
      LexMeans(s[1..], t[1..]);
      if k :| 0 <= k <= |s[1..]| && k < |t[1..]| && s[1..][..k] == t[1..][..k]
              && (k == |s[1..]| || s[1..][k] < t[1..][k]) {
        assert s[..k + 1] == [s[0]] + s[1..][..k] && t[..k + 1] == [t[0]] + t[1..][..k];
      }
      if k :| 0 <= k <= |s| && k < |t| && s[..k] == t[..k] && (k == |s| || s[k] < t[k]) {
        assert k > 0;
        assert s[1..][..k - 1] == s[..k][1..] && t[1..][..k - 1] == t[..k][1..];
        assert k - 1 == |s[1..]| || s[1..][k - 1] < t[1..][k - 1];
      }
    } else if t != "" {
      assert s[..0] == t[..0];
      if k :| 0 <= k <= |s| && k < |t| && s[..k] == t[..k] && (k == |s| || s[k] < t[k]) {
        if k > 0 { assert s[0] == s[..k][0] == t[..k][0] == t[0]; }
      }
    }
  }

  /** An entry comes first if it scores more by over 1e-9; within that, if its node occurred later; then by its id. */
  lemma RankMeans(a: Activated, b: Activated)
    ensures RankLess(a, b) <==>
              || a.score > b.score + 0.000000001
              || (&& b.score - 0.000000001 <= a.score <= b.score + 0.000000001
                  && (|| a.node.occurredAt > b.node.occurredAt
                      || (a.node.occurredAt == b.node.occurredAt && LexLess(a.node.id, b.node.id))))
  {
    hide LexLess;
  }
}
