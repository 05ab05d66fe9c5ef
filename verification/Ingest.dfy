/** Merge-or-create ingestion (agentx/memorygraph/service.go): every candidate either merges into the most similar
    stored node or is created, and the total evidence rises by exactly what the candidates carry. */
module Ingest {
  import opened Folds
  import opened NodeStore
  import opened Similarity
  import opened Text

  /** One candidate, with the id NewID would return for it and the clock when it is persisted; a creation reads the
      clock a second time. */
  datatype Call = Call(node: Node, newID: string, now: nat, later: nat)

  predicate ValidCall(c: Call) { c.now > 0 && c.later > 0 && c.newID != "" && Trim(c.newID) == c.newID }

  /** The id a candidate is created under. */
  function OwnID(c: Call): string { if c.node.id == "" then c.newID else Trim(c.node.id) }

  function FactFilter(n: Node): Filter { Filter([], [n.nodeType], "", "active", 128) }

  /** The outcome of upsertMemoryFact for a given match. */
  function Outcome(m: Nodes, c: Call, best: Option<Match>): Result<Node> {
    if best.Some? && best.value.shouldMerge then Updated(m, MergeNode(best.value.node, c.node), c.now)
    else Created(m, c.node, c.newID, c.now, c.later)
  }

  ghost predicate Found(u: Tables, m: Nodes, c: Call, best: Option<Match>) {
    exists listed :: IsListing(u, m, c.node.userID, c.node.botID, FactFilter(c.node), listed)
        && IsMatch(u, c.node, listed, best)
  }

  /** One call of upsertMemoryFact: from m to m2 with result r. The listing may break ties in any way. */
  ghost predicate Upserts(u: Tables, m: Nodes, c: Call, m2: Nodes, r: Result<Node>) {
    exists best :: Found(u, m, c, best) && r == Outcome(m, c, best) && m2 == Put(m, r)
  }

  // ---------------------------------------------------------------- what a merge does to the stored node

  /** What a match can be merged into: a stored node of the same user, bot and kind, under another id. */
  ghost predicate Mergeable(m: Nodes, c: Node, n: Node) {
    && n.id in m && m[n.id] == n && n.id != Trim(c.id)
    && n.userID == Trim(c.userID) && n.botID == Trim(c.botID) && n.nodeType == Trim(c.nodeType)
    && (n.category == "" || Trim(c.category) == "" || n.category == Trim(c.category))
  }

  lemma SelectedIs(u: Tables, userID: string, botID: string, f: Filter, n: Node)
    requires Selected(u, userID, botID, f, n)
    ensures Trim(n.userID) == Trim(userID) && Trim(n.botID) == Trim(botID)
  {
  }

  lemma MatchIsMergeable(u: Tables, m: Nodes, c: Call, best: Option<Match>)
    requires Sound(m) && Found(u, m, c, best) && best.Some? && best.value.shouldMerge
    ensures Mergeable(m, c.node, best.value.node)
  {
    hide IsMatch, Selected, NodeSimilarity;
    var listed :| IsListing(u, m, c.node.userID, c.node.botID, FactFilter(c.node), listed)
        && IsMatch(u, c.node, listed, best);
    MatchIsMaximal(u, c.node, listed, best);
    var n := best.value.node;
    MergesIff(u, c.node, n);
    SelectedIs(u, c.node.userID, c.node.botID, FactFilter(c.node), n);
    assert Kept(n);
    hide Trim;
  }

  /** A category once set is kept, and the candidate's own fills a gap. */
  lemma CategoryOf(n: Node, c: Node)
    requires Trim(n.category) == n.category
    ensures var cat := Trim(FirstFilled(n.category, c.category));
            cat == if n.category == "" then Trim(c.category) else n.category
  {
    TrimTwice(c.category);
  }

  function StoredValidFrom(n: Node, c: Node): nat {
    if c.validFrom == 0 then n.validFrom else Earlier(n.validFrom, c.validFrom)
  }

  /** The measures of a stored node after a merge; a candidate without ValidFrom leaves ValidFrom alone, because the
      store puts the old one back. */
  function StoredMeasures(n: Node, c: Node): Measures {
    MergeMeasures(MeasuresOf(n), MeasuresOf(c)).(validFrom := StoredValidFrom(n, c))
  }

  lemma UpdatedText(m: Nodes, x: Node, now: nat)
    requires Updated(m, x, now).Ok?
    ensures var v := Updated(m, x, now).value;
            && v.id == Trim(x.id) && v.userID == Trim(x.userID) && v.botID == Trim(x.botID)
            && v.nodeType == Trim(x.nodeType) && v.category == Trim(x.category)
  {
    hide Trim, Default;
  }

  lemma UpdatedMeasures(m: Nodes, x: Node, now: nat)
    requires Updated(m, x, now).Ok? && Trim(x.id) in m && x.createdAt != 0 && x.occurredAt != 0 && x.observedAt != 0
    requires x.evidence > 0 && m[Trim(x.id)].validFrom != 0
    ensures var v := Updated(m, x, now).value;
            v.createdAt == x.createdAt
            && MeasuresOf(v) == MeasuresOf(x).(validFrom := Default(x.validFrom, m[Trim(x.id)].validFrom))
  {
    hide Trim;
  }

  lemma MergedFields(n: Node, c: Node)
    requires Kept(n)
    ensures var x := MergeNode(n, c);
            && x.id == n.id && x.userID == n.userID && x.botID == n.botID && x.nodeType == n.nodeType
            && x.createdAt == n.createdAt && x.category == FirstFilled(n.category, c.category)
            && MeasuresOf(x) == MergeMeasures(MeasuresOf(n), MeasuresOf(c))
            && x.createdAt != 0 && x.occurredAt != 0 && x.observedAt != 0 && x.evidence > 0
  {
    hide Trim, MergeEntities, Longer, FirstFilled, Heavier;
  }

  /** Storing a merge keeps the identity of the node and applies the candidate's measures. */
  lemma MergeStored(m: Nodes, c: Node, n: Node, now: nat)
    requires Sound(m) && n.id in m && m[n.id] == n && Updated(m, MergeNode(n, c), now).Ok?
    ensures var v := Updated(m, MergeNode(n, c), now).value;
            && v.id == n.id && v.userID == n.userID && v.botID == n.botID && v.nodeType == n.nodeType
            && v.createdAt == n.createdAt
            && v.category == (if n.category == "" then Trim(c.category) else n.category)
            && MeasuresOf(v) == StoredMeasures(n, c) && v.updatedAt == now && Fills(n, c, v)
  {
    assert Kept(n);
    CategoryOf(n, c);
    MergedFields(n, c);
    hide Updated, MergeNode, Trim, FirstFilled, Later, Heavier, Sound;
    UpdatedText(m, MergeNode(n, c), now);
    UpdatedMeasures(m, MergeNode(n, c), now);
    MergeFills(m, c, n, now);
  }

  /** The other fields of a merge: longer texts are taken, gaps are filled, entities are added, the rest stays. */
  ghost predicate Fills(n: Node, c: Node, v: Node) {
    && v.sessionID == n.sessionID && v.sourceTurnID == n.sourceTurnID && v.status == n.status
    && v.title == (if |c.title| > |n.title| then Trim(c.title) else n.title)
    && v.summary == (if |c.summary| > |n.summary| then Trim(c.summary) else n.summary)
    && v.sourceKind == (if n.sourceKind == "" then Trim(c.sourceKind) else n.sourceKind)
    && v.stabilityLabel == (if n.stabilityLabel == "" then Trim(c.stabilityLabel) else n.stabilityLabel)
    && v.mergeKey == (if n.mergeKey == "" then Trim(c.mergeKey) else n.mergeKey)
    && v.entities == MergeEntities(n.entities, c.entities)
  }

  lemma MergeFills(m: Nodes, c: Node, n: Node, now: nat)
    requires Kept(n) && Updated(m, MergeNode(n, c), now).Ok?
    ensures var v := Updated(m, MergeNode(n, c), now).value; Fills(n, c, v) && v.updatedAt == now
  {
    var x := MergeNode(n, c);
    MergeNodeIs(n, c);
    UpdatedIs(m, x, now);
    TrimTwice(c.sourceKind); TrimTwice(c.stabilityLabel); TrimTwice(c.mergeKey);
    hide Trim, Updated, MergeNode, MergeEntities;
  }

  /** A merge can only fail for a candidate whose summary is blank. */
  lemma MergeSucceeds(m: Nodes, c: Node, n: Node, now: nat)
    requires Sound(m) && n.id in m && m[n.id] == n
    ensures Updated(m, MergeNode(n, c), now).Ok? <==> (|c.summary| <= |n.summary| || !Blank(c.summary))
  {
    assert Kept(n);
    hide Trim, MergeEntities, FirstFilled, Dates;
  }

  // ---------------------------------------------------------------- what a creation does

  lemma CreatedIs(m: Nodes, c: Call)
    requires ValidCall(c) && Created(m, c.node, c.newID, c.now, c.later).Ok?
    ensures var v := Created(m, c.node, c.newID, c.now, c.later).value;
            && v.id == OwnID(c) && v.userID == Trim(c.node.userID) && v.botID == Trim(c.node.botID)
            && v.nodeType == Trim(c.node.nodeType) && v.category == Trim(c.node.category)
            && v.evidence == AtLeastOne(c.node.evidence) && v.updatedAt == c.later && Adopts("", "", c.node, v)
  {
    CreatedFields(m, c.node, c.newID, c.now, c.later);
    hide Trim, Created, Adopts;
    CreatedAdopts(c.node, Created(m, c.node, c.newID, c.now, c.later).value);
  }

  lemma CreatedAdopts(n: Node, v: Node)
    requires TextsOf(v, n)
    ensures Adopts("", "", n, v)
  {
    TrimNothing();
    hide Trim;
    forall e | e in n.entities ensures exists x :: x in v.entities && SameEntity(x, e) {
      assert e in v.entities && SameEntity(e, e);
    }
  }

  lemma CreatedIsSound(m: Nodes, c: Call)
    requires Sound(m) && ValidCall(c)
    ensures Sound(Put(m, Created(m, c.node, c.newID, c.now, c.later)))
  {
    hide Sound, Kept, Updated, Drafted, Tidy;
    PutIsSound(m, Drafted(c.node, c.newID, c.now), c.later);
  }

  /** Creating adds the candidate's evidence exactly when its id is new; otherwise the node stored there is lost. */
  lemma CreateConservesIff(m: Nodes, c: Call)
    requires Sound(m) && ValidCall(c) && Created(m, c.node, c.newID, c.now, c.later).Ok?
    ensures var r := Created(m, c.node, c.newID, c.now, c.later);
            Total(Put(m, r)) == Total(m) + AtLeastOne(c.node.evidence) <==> OwnID(c) !in m
  {
    CreatedIs(m, c);
    hide Created, Total;
    var v := Created(m, c.node, c.newID, c.now, c.later).value;
    TotalUpdate(m, v.id, v);
    if OwnID(c) in m { assert Kept(m[OwnID(c)]); }
  }

  // ---------------------------------------------------------------- upsertMemoryFact

  /** A successful upsert: the total evidence rises by the candidate's, no id is lost, at most the candidate's own
      id is new, and the fact is stored under the candidate's user, bot, type and category. */
  ghost predicate Conserves(m: Nodes, c: Call, m2: Nodes, v: Node) {
    && Total(m2) == Total(m) + AtLeastOne(c.node.evidence)
    && m.Keys <= m2.Keys <= m.Keys + {OwnID(c)}
    && v.id in m2 && m2[v.id] == v
    && v.userID == Trim(c.node.userID) && v.botID == Trim(c.node.botID) && v.nodeType == Trim(c.node.nodeType)
    && (Trim(c.node.category) != "" ==> v.category == Trim(c.node.category))
    && (forall id :: id in m && id != v.id ==> m2[id] == m[id])
    && (v.id in m ==> Extends(m[v.id], v))
    && Adopts(if v.id in m then m[v.id].title else "", if v.id in m then m[v.id].summary else "", c.node, v)
    && v.updatedAt == if v.id in m then c.now else c.later
  }

  /** What v takes from the candidate: the longer texts, trimmed, and its entities, unless one with the same trimmed id
      and name is there. */
  ghost predicate Adopts(title: string, summary: string, c: Node, v: Node) {
    && v.title == (if |c.title| > |title| then Trim(c.title) else title)
    && v.summary == (if |c.summary| > |summary| then Trim(c.summary) else summary)
    && forall e :: e in c.entities ==> exists x :: x in v.entities && SameEntity(x, e)
  }

  /** A later version of a node: the same identity and creation time, a category once set is kept, no evidence and
      no weight is lost. */
  ghost predicate Extends(old_: Node, v: Node) {
    && v.id == old_.id && v.userID == old_.userID && v.botID == old_.botID && v.nodeType == old_.nodeType
    && v.sessionID == old_.sessionID && v.sourceTurnID == old_.sourceTurnID && v.status == old_.status
    && v.createdAt == old_.createdAt && (old_.category != "" ==> v.category == old_.category)
    && (old_.sourceKind != "" ==> v.sourceKind == old_.sourceKind)
    && (old_.stabilityLabel != "" ==> v.stabilityLabel == old_.stabilityLabel)
    && (old_.mergeKey != "" ==> v.mergeKey == old_.mergeKey) && old_.entities <= v.entities
    && v.evidence > old_.evidence && v.occurredAt >= old_.occurredAt && v.observedAt >= old_.observedAt
    && 0 < v.validFrom <= old_.validFrom && v.salience >= old_.salience && v.confidence >= old_.confidence
    && v.stability >= old_.stability
  }

  lemma StoredExtends(n: Node, c: Node, v: Node)
    requires Kept(n) && MeasuresOf(v) == StoredMeasures(n, c) && Fills(n, c, v)
    requires v.id == n.id && v.userID == n.userID && v.botID == n.botID && v.nodeType == n.nodeType
    requires v.createdAt == n.createdAt && v.category == if n.category == "" then Trim(c.category) else n.category
    ensures Extends(n, v) && v.evidence == n.evidence + AtLeastOne(c.evidence) && Adopts(n.title, n.summary, c, v)
  {
    MergedEntities(n.entities, c.entities);
    EntitiesAdopted(n.entities, c.entities);
    hide Trim, MergeEntities, SameEntity;
    var s := StoredMeasures(n, c);
    assert v.evidence == s.evidence && v.occurredAt == s.occurredAt && v.observedAt == s.observedAt
           && v.validFrom == s.validFrom;
    assert v.salience == s.salience && v.confidence == s.confidence && v.stability == s.stability;
  }

  /** Every entity of the right has one with its trimmed id and name in the merge. */
  lemma EntitiesAdopted(left: seq<Entity>, right: seq<Entity>)
    ensures forall e :: e in right ==> exists x :: x in MergeEntities(left, right) && SameEntity(x, e)
  {
    MergeEntitiesLaws(left, right);
    var out := MergeEntities(left, right);
    hide MergeEntities;
    forall e | e in right ensures exists x :: x in out && SameEntity(x, e) {
      assert EntityKey(e) in Keys(right);
      var x :| x in out && EntityKey(x) == EntityKey(e);
    }
  }

  lemma PutConserves(m: Nodes, c: Call, v: Node)
    requires v.id in m ==> Extends(m[v.id], v) && v.evidence == m[v.id].evidence + AtLeastOne(c.node.evidence)
                           && Adopts(m[v.id].title, m[v.id].summary, c.node, v) && v.updatedAt == c.now
    requires v.id !in m ==> v.id == OwnID(c) && v.evidence == AtLeastOne(c.node.evidence)
                            && Adopts("", "", c.node, v) && v.updatedAt == c.later
    requires v.userID == Trim(c.node.userID) && v.botID == Trim(c.node.botID) && v.nodeType == Trim(c.node.nodeType)
    requires Trim(c.node.category) != "" ==> v.category == Trim(c.node.category)
    ensures Conserves(m, c, m[v.id := v], v)
  {
    TotalUpdate(m, v.id, v);
    hide Total, Trim, Extends, OwnID, AtLeastOne, Adopts;
  }

  lemma PutOk(m: Nodes, r: Result<Node>)
    requires r.Ok?
    ensures Put(m, r) == m[r.value.id := r.value]
  {
  }

  lemma MergeConserves(m: Nodes, c: Call, n: Node)
    requires Sound(m) && ValidCall(c) && Mergeable(m, c.node, n) && Updated(m, MergeNode(n, c.node), c.now).Ok?
    ensures var r := Updated(m, MergeNode(n, c.node), c.now);
            Conserves(m, c, Put(m, r), r.value)
  {
    assert Kept(n);
    hide Updated, MergeNode, Kept, StoredMeasures, Extends, Trim, MeasuresOf, Put, Conserves, OwnID, AtLeastOne, Adopts,
        Fills;
    MergeStored(m, c.node, n, c.now);
    var r := Updated(m, MergeNode(n, c.node), c.now);
    StoredExtends(n, c.node, r.value);
    PutConserves(m, c, r.value);
    PutOk(m, r);
  }

  lemma CreateConserves(m: Nodes, c: Call)
    requires Sound(m) && ValidCall(c) && OwnID(c) !in m && Created(m, c.node, c.newID, c.now, c.later).Ok?
    ensures var r := Created(m, c.node, c.newID, c.now, c.later);
            Conserves(m, c, Put(m, r), r.value)
  {
    hide *;
    CreatedIs(m, c);
    var r := Created(m, c.node, c.newID, c.now, c.later);
    PutConserves(m, c, r.value);
    PutOk(m, r);
  }

  /** One upsert of a candidate whose id is not stored. */
  lemma UpsertConserves(u: Tables, m: Nodes, c: Call, m2: Nodes, r: Result<Node>)
    requires Sound(m) && ValidCall(c) && Upserts(u, m, c, m2, r)
    ensures Sound(m2) && m.Keys <= m2.Keys
    ensures r.Err? ==> m2 == m
    ensures r.Ok? && OwnID(c) !in m ==> Conserves(m, c, m2, r.value)
  {
    hide Updated, Created, MergeNode, Sound, Conserves, Found, Mergeable, OwnID;
    var best :| Found(u, m, c, best) && r == Outcome(m, c, best) && m2 == Put(m, r);
    if best.Some? && best.value.shouldMerge {
      PutIsSound(m, MergeNode(best.value.node, c.node), c.now);
      MatchIsMergeable(u, m, c, best);
      if r.Ok? { MergeConserves(m, c, best.value.node); }
    } else {
      CreatedIsSound(m, c);
      if r.Ok? && OwnID(c) !in m { CreateConserves(m, c); }
    }
  }

  // ---------------------------------------------------------------- persistNodesWithMerge

  function Evidence(calls: seq<Call>): int {
    if calls == [] then 0 else Evidence(calls[..|calls| - 1]) + AtLeastOne(calls[|calls| - 1].node.evidence)
  }

  /** The successful upserts of a run: states[i] to states[i + 1] by calls[i], storing out[i]. */
  ghost predicate Run(u: Tables, calls: seq<Call>, states: seq<Nodes>, out: seq<Node>) {
    && |out| <= |calls| && |states| == |out| + 1
    && forall i {:trigger out[i]} :: 0 <= i < |out| ==> Upserts(u, states[i], calls[i], states[i + 1], Ok(out[i]))
  }

  /** No candidate's id is stored at the start or used by an earlier candidate. */
  ghost predicate FreshIDs(m: Nodes, calls: seq<Call>) {
    && (forall i :: 0 <= i < |calls| ==> OwnID(calls[i]) !in m)
    && (forall i, j :: 0 <= i < j < |calls| ==> OwnID(calls[i]) != OwnID(calls[j]))
  }

  lemma {:induction false} RunSound(u: Tables, calls: seq<Call>, states: seq<Nodes>, out: seq<Node>, n: nat)
    requires Run(u, calls, states, out) && n <= |out| && Sound(states[0])
    requires forall i :: 0 <= i < |calls| ==> ValidCall(calls[i])
    ensures Sound(states[n]) && states[0].Keys <= states[n].Keys
  {
    hide Sound, Upserts, ValidCall;
    if n > 0 {
      RunSound(u, calls, states, out, n - 1);
      UpsertConserves(u, states[n - 1], calls[n - 1], states[n], Ok(out[n - 1]));
    }
  }

  /** The ids stored after n steps are the ones at the start and those of the first n candidates. */
  ghost predicate KeysBounded(m0: Nodes, calls: seq<Call>, n: nat, m: Nodes) {
    n <= |calls| && forall id :: id in m ==> id in m0 || exists i :: 0 <= i < n && id == OwnID(calls[i])
  }

  lemma KeysStep(m0: Nodes, calls: seq<Call>, n: nat, m: Nodes, m2: Nodes)
    requires KeysBounded(m0, calls, n, m) && n < |calls| && m2.Keys <= m.Keys + {OwnID(calls[n])}
    ensures KeysBounded(m0, calls, n + 1, m2)
  {
    hide OwnID;
    forall id | id in m2 && id !in m0 ensures exists i :: 0 <= i < n + 1 && id == OwnID(calls[i]) {
      if id in m {
        var i :| 0 <= i < n && id == OwnID(calls[i]);
      } else {
        assert id == OwnID(calls[n]);
      }
    }
  }

  lemma StillFresh(m0: Nodes, calls: seq<Call>, n: nat, m: Nodes)
    requires KeysBounded(m0, calls, n, m) && FreshIDs(m0, calls) && n < |calls|
    ensures OwnID(calls[n]) !in m
  {
    hide OwnID;
  }

  /** Conservation over a run, also one that stops at an error: the total evidence is what it was plus the evidence
      of the candidates persisted so far, each counted at least once, and no node id is lost. */
  lemma {:induction false} RunConserves(u: Tables, calls: seq<Call>, states: seq<Nodes>, out: seq<Node>, n: nat)
    requires Run(u, calls, states, out) && n <= |out| && Sound(states[0]) && FreshIDs(states[0], calls)
    requires forall i :: 0 <= i < |calls| ==> ValidCall(calls[i])
    ensures Total(states[n]) == Total(states[0]) + Evidence(calls[..n])
    ensures states[0].Keys <= states[n].Keys && KeysBounded(states[0], calls, n, states[n])
  {
    hide Sound, Upserts, ValidCall, FreshIDs, KeysBounded, OwnID, Total;
    if n == 0 {
      assert calls[..0] == [];
      KeysStart(states[0], calls);
    } else {
      RunConserves(u, calls, states, out, n - 1);
      RunSound(u, calls, states, out, n - 1);
      StillFresh(states[0], calls, n - 1, states[n - 1]);
      UpsertConserves(u, states[n - 1], calls[n - 1], states[n], Ok(out[n - 1]));
      KeysStep(states[0], calls, n - 1, states[n - 1], states[n]);
      EvidenceStep(calls, n - 1);
    }
  }

  lemma KeysStart(m: Nodes, calls: seq<Call>)
    ensures KeysBounded(m, calls, 0, m)
  {
  }

  lemma EvidenceStep(calls: seq<Call>, n: nat)
    requires n < |calls|
    ensures Evidence(calls[..n + 1]) == Evidence(calls[..n]) + AtLeastOne(calls[n].node.evidence)
  {
    assert calls[..n + 1][..n] == calls[..n];
  }

  /** Each fact of a run is found again at the end, as it was returned or further merged into. */
  lemma {:induction false} FactsRemain(u: Tables, calls: seq<Call>, states: seq<Nodes>, out: seq<Node>, k: nat, n: nat)
    requires Run(u, calls, states, out) && k < n <= |out| && Sound(states[0]) && FreshIDs(states[0], calls)
    requires forall i :: 0 <= i < |calls| ==> ValidCall(calls[i])
    ensures out[k].id in states[n]
    ensures states[n][out[k].id] == out[k] || Extends(out[k], states[n][out[k].id])
  {
    hide Sound, Upserts, ValidCall, FreshIDs, KeysBounded, OwnID, Total, Extends;
    RunSound(u, calls, states, out, n - 1);
    RunConserves(u, calls, states, out, n - 1);
    StillFresh(states[0], calls, n - 1, states[n - 1]);
    UpsertConserves(u, states[n - 1], calls[n - 1], states[n], Ok(out[n - 1]));
    if k < n - 1 {
      FactsRemain(u, calls, states, out, k, n - 1);
      var id := out[k].id;
      if out[n - 1].id == id && states[n - 1][id] != out[k] { ExtendsTrans(out[k], states[n - 1][id], states[n][id]); }
    }
  }

  lemma ExtendsTrans(a: Node, b: Node, c: Node)
    requires Extends(a, b) && Extends(b, c)
    ensures Extends(a, c)
  {
  }

  /** Every entity of every persisted candidate is found, by its trimmed id and name, in the node that holds its fact at
      the end. */
  lemma EntitiesRemain(u: Tables, calls: seq<Call>, states: seq<Nodes>, out: seq<Node>, k: nat, n: nat, e: Entity)
    requires Run(u, calls, states, out) && k < n <= |out| && Sound(states[0]) && FreshIDs(states[0], calls)
    requires forall i :: 0 <= i < |calls| ==> ValidCall(calls[i])
    requires e in calls[k].node.entities
    ensures out[k].id in states[n]
    ensures exists x :: x in states[n][out[k].id].entities && SameEntity(x, e)
  {
    hide Sound, Upserts, ValidCall, FreshIDs, KeysBounded, OwnID, Total, SameEntity;
    FactsRemain(u, calls, states, out, k, n);
    RunSound(u, calls, states, out, k);
    RunConserves(u, calls, states, out, k);
    StillFresh(states[0], calls, k, states[k]);
    UpsertConserves(u, states[k], calls[k], states[k + 1], Ok(out[k]));
    var x :| x in out[k].entities && SameEntity(x, e);
  }

  /** The candidate is compared with a stored node: of its user, bot, type and in status active, ignoring case. */
  ghost predicate Comparable(u: Tables, c: Node, n: Node) {
    && Trim(n.userID) == Trim(c.userID) && Trim(n.botID) == Trim(c.botID)
    && (Trim(c.nodeType) == "" || Lowered(u, Trim(n.nodeType)) == Lowered(u, Trim(c.nodeType)))
    && FoldsTo(u, Trim(n.status), "active")
  }

  /** What an upsert merges into: a stored, comparable node of another id with similarity 0.72 or more, than which no
      comparable stored node is more similar unless 128 others are at least as recent. */
  lemma FoundIsBest(u: Tables, m: Nodes, c: Call, best: Option<Match>, id: string)
    requires Sound(m) && Found(u, m, c, best) && id in m
    ensures best.Some? ==>
              var n := best.value.node;
              && n.id in m && m[n.id] == n && Comparable(u, c.node, n) && n.id != Trim(c.node.id)
              && (best.value.shouldMerge <==> NodeSimilarity(u, c.node, n) >= 0.72)
    ensures Comparable(u, c.node, m[id]) && id != Trim(c.node.id) ==>
              || (best.Some? && NodeSimilarity(u, c.node, m[id]) <= NodeSimilarity(u, c.node, best.value.node))
              || exists others :: CrowdedOut(u, m, c.node, m[id], others)
  {
    hide IsMatch, IsListing, NodeSimilarity, CrowdedOut, Comparable, Trim, FactFilter, Sound;
    var listed :| IsListing(u, m, c.node.userID, c.node.botID, FactFilter(c.node), listed)
        && IsMatch(u, c.node, listed, best);
    MatchIsMaximal(u, c.node, listed, best);
    ListedAre(u, m, c.node, listed, id);
    StoredIds(m, id);
    if best.Some? {
      ListedAre(u, m, c.node, listed, best.value.node.id);
      StoredIds(m, best.value.node.id);
    }
  }

  lemma StoredIds(m: Nodes, id: string)
    requires Sound(m)
    ensures id in m ==> m[id].id == id && Trim(id) == id && id != ""
  {
    if id in m { assert Kept(m[id]); }
    hide Trim;
  }

  lemma ListedAre(u: Tables, m: Nodes, c: Node, listed: seq<Node>, id: string)
    requires IsListing(u, m, c.userID, c.botID, FactFilter(c), listed)
    ensures forall n :: n in listed ==> n.id in m && m[n.id] == n
    ensures id in m && m[id] in listed ==> Comparable(u, c, m[id])
    ensures id in m && m[id] !in listed && Comparable(u, c, m[id]) ==> CrowdedOut(u, m, c, m[id], listed)
  {
    ListingIs(u, m, c, listed);
    hide Selected, Comparable, Recent, LimitOf;
    if id in m {
      SelectedMeans(u, c.userID, c.botID, c.nodeType, m[id]);
      if m[id] !in listed && Comparable(u, c, m[id]) { RecentMeans(listed, m[id]); }
    }
  }

  lemma ListingIs(u: Tables, m: Nodes, c: Node, listed: seq<Node>)
    requires IsListing(u, m, c.userID, c.botID, FactFilter(c), listed)
    ensures forall n :: n in listed ==> n.id in m && m[n.id] == n && Comparable(u, c, n)
    ensures LimitOf(FactFilter(c)) == 128
  {
    forall n | n in listed ensures Comparable(u, c, n) { SelectedMeans(u, c.userID, c.botID, c.nodeType, n); }
    hide Selected, Comparable, Recent;
  }

  lemma RecentMeans(listed: seq<Node>, n: Node)
    requires forall x :: x in listed ==> Recent(x, n)
    ensures forall x :: x in listed ==>
              x.occurredAt > n.occurredAt || (x.occurredAt == n.occurredAt && x.updatedAt >= n.updatedAt)
  {
  }

  /** 128 other comparable nodes, distinct and each at least as recent. */
  ghost predicate CrowdedOut(u: Tables, m: Nodes, c: Node, n: Node, others: seq<Node>) {
    && |others| == 128
    && (forall i, j :: 0 <= i < j < |others| ==> others[i].id != others[j].id)
    && forall x :: x in others ==>
         && x.id in m && m[x.id] == x && Comparable(u, c, x)
         && (x.occurredAt > n.occurredAt || (x.occurredAt == n.occurredAt && x.updatedAt >= n.updatedAt))
  }

  // ---------------------------------------------------------------- the order of stored merges

  /** Merging candidates one after the other into the node stored under an id, each merge stored by UpdateMemoryNode. */
  function MergeEach(m: Nodes, id: string, candidates: seq<Node>, clock: seq<nat>): Result<Node>
    requires id in m && |clock| == |candidates|
    decreases |candidates|
  {
    if candidates == [] then Ok(m[id])
    else
      var r := Updated(m, MergeNode(m[id], candidates[0]), clock[0]);
      if r.Err? then Err else MergeEach(Put(m, r), id, candidates[1..], clock[1..])
  }

  function StoredOne(s: Measures, c: Node): Measures {
    MergeOne(s, c).(validFrom := if c.validFrom == 0 then s.validFrom else Earlier(s.validFrom, c.validFrom))
  }

  predicate IsDated(s: Measures) { s.validFrom != 0 }

  predicate AnyCandidate(c: Node) { true }

  lemma StoredSwap()
    ensures Swaps(StoredOne, IsDated, AnyCandidate)
  {
  }

  ghost predicate Ticking(clock: seq<nat>) { forall i :: 0 <= i < |clock| ==> clock[i] > 0 }

  lemma {:induction false} MergeEachIsMeasured(m: Nodes, id: string, candidates: seq<Node>, clock: seq<nat>)
    requires Sound(m) && id in m && |clock| == |candidates| && Ticking(clock)
    requires MergeEach(m, id, candidates, clock).Ok?
    ensures MeasuresOf(MergeEach(m, id, candidates, clock).value) == Fold(StoredOne, MeasuresOf(m[id]), candidates)
    decreases |candidates|
  {
    hide Updated, MergeNode, Kept, MergeMeasures;
    if candidates != [] {
      var n, c := m[id], candidates[0];
      var r := Updated(m, MergeNode(n, c), clock[0]);
      MergeStored(m, c, n, clock[0]);
      PutIsSound(m, MergeNode(n, c), clock[0]);
      hide Sound;
      MergeEachIsMeasured(Put(m, r), id, candidates[1..], clock[1..]);
    }
  }

  /** Candidates merged through the store one by one, in any two orders in which every merge succeeds, leave the same
      times, weights and evidence, whether or not they have a ValidFrom. `MergeSucceeds` says when a merge does. */
  lemma StoredOrderDoesNotMatter(m: Nodes, id: string, xs: seq<Node>, ys: seq<Node>, clock: seq<nat>, clock': seq<nat>)
    requires Sound(m) && id in m && multiset(xs) == multiset(ys)
    requires |clock| == |xs| && |clock'| == |ys| && Ticking(clock) && Ticking(clock')
    requires MergeEach(m, id, xs, clock).Ok? && MergeEach(m, id, ys, clock').Ok?
    ensures MeasuresOf(MergeEach(m, id, xs, clock).value) == MeasuresOf(MergeEach(m, id, ys, clock').value)
  {
    hide MergeEach, StoredOne, Fold, Swaps, Ticking;
    MergeEachIsMeasured(m, id, xs, clock);
    MergeEachIsMeasured(m, id, ys, clock');
    assert Kept(m[id]);
    StoredSwap();
    FoldPermutation(StoredOne, IsDated, AnyCandidate, MeasuresOf(m[id]), xs, ys);
  }

  /** No merge of candidates with visible summaries fails, in any order. */
  lemma {:induction false} VisibleMergesSucceed(m: Nodes, id: string, candidates: seq<Node>, clock: seq<nat>)
    requires Sound(m) && id in m && |clock| == |candidates| && Ticking(clock)
    requires forall c :: c in candidates ==> !Blank(c.summary)
    ensures MergeEach(m, id, candidates, clock).Ok?
    decreases |candidates|
  {
    hide Updated, MergeNode, Kept, Blank;
    if candidates != [] {
      var r := Updated(m, MergeNode(m[id], candidates[0]), clock[0]);
      MergeSucceeds(m, candidates[0], m[id], clock[0]);
      PutIsSound(m, MergeNode(m[id], candidates[0]), clock[0]);
      hide Sound;
      VisibleMergesSucceed(Put(m, r), id, candidates[1..], clock[1..]);
    }
  }

  class Service {
    const store: Store

    constructor (s: Store)
      ensures store == s
    {
      store := s;
    }

    /** upsertMemoryFact. */
    method UpsertMemoryFact(u: Tables, c: Call) returns (r: Result<Node>)
      requires Sound(store.nodes) && ValidCall(c)
      modifies store
      ensures Sound(store.nodes)
      ensures Upserts(u, old(store.nodes), c, store.nodes, r)
    {
      hide Sound, IsListing, IsMatch, Updated, Created, MergeNode, ValidCall;
      assert c.now > 0 && c.later > 0 by { NowOf(c); }
      var existing := store.ListMemoryNodes(u, c.node.userID, c.node.botID, FactFilter(c.node));
      var best := FindBestSimilarityNode(u, c.node, existing);
      assert Found(u, store.nodes, c, best);
      if best.Some? && best.value.shouldMerge {
        var merged := MergeNodeSteps(best.value.node, c.node);
        r := store.UpdateMemoryNode(merged, c.now);
      } else {
        r := store.CreateMemoryNode(c.node, c.newID, c.now, c.later);
      }
      assert r == Outcome(old(store.nodes), c, best);
    }

    /** persistNodesWithMerge: stops at the first error, keeping what is stored by then. */
    method PersistNodesWithMerge(u: Tables, calls: seq<Call>) returns (r: Result<seq<Node>>)
      requires Sound(store.nodes) && forall i :: 0 <= i < |calls| ==> ValidCall(calls[i])
      modifies store
      ensures Sound(store.nodes)
      ensures exists states, out :: && Run(u, calls, states, out)
                                    && states[0] == old(store.nodes) && states[|out|] == store.nodes
                                    && if r.Ok? then |out| == |calls| && r.value == out
                                       else |out| < |calls| && Upserts(u, store.nodes, calls[|out|], store.nodes, Err)
      ensures r.Ok? && FreshIDs(old(store.nodes), calls) ==>
              Total(store.nodes) == old(Total(store.nodes)) + Evidence(calls)
    {
      hide Sound, Upserts, ValidCall, FreshIDs, Total, Evidence;
      var persisted: seq<Node> := [];
      ghost var states := [store.nodes];
      for k := 0 to |calls|
        invariant Sound(store.nodes) && |persisted| == k
        invariant Run(u, calls, states, persisted) && states[0] == old(store.nodes) && states[k] == store.nodes
      {
        ghost var before := store.nodes;
        var stored := UpsertMemoryFact(u, calls[k]);
        if stored.Err? {
          UpsertConserves(u, before, calls[k], store.nodes, stored);
          return Err;
        }
        RunSnoc(u, calls, states, persisted, store.nodes, stored.value);
        persisted := persisted + [stored.value];
        states := states + [store.nodes];
      }
      if FreshIDs(states[0], calls) {
        RunConserves(u, calls, states, persisted, |calls|);
        assert calls[..|calls|] == calls;
      }
      return Ok(persisted);
    }
  }

  lemma NowOf(c: Call)
    requires ValidCall(c)
    ensures c.now > 0 && c.later > 0
  {
  }

  lemma RunSnoc(u: Tables, calls: seq<Call>, states: seq<Nodes>, out: seq<Node>, m: Nodes, v: Node)
    requires Run(u, calls, states, out) && |out| < |calls| && Upserts(u, states[|out|], calls[|out|], m, Ok(v))
    ensures Run(u, calls, states + [m], out + [v])
  {
    hide Upserts;
    var s2, o2 := states + [m], out + [v];
    forall i | 0 <= i < |o2| ensures Upserts(u, s2[i], calls[i], s2[i + 1], Ok(o2[i])) {
      if i < |out| { assert o2[i] == out[i] && s2[i] == states[i] && s2[i + 1] == states[i + 1]; }
    }
  }
}
