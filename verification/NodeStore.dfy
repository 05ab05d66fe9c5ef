/** The memory node store (store/temporal_memory_graph.go): an id-keyed map of normalised nodes. Clock readings are
    parameters. */
module NodeStore {
  import opened Similarity
  import opened Sorting
  import opened Text

  datatype Result<T> = Ok(value: T) | Err

  type Nodes = map<string, Node>

  /** The fields that both writers trim. */
  function Tidy(n: Node): Node {
    n.(userID := Trim(n.userID), botID := Trim(n.botID), sessionID := Trim(n.sessionID), nodeType := Trim(n.nodeType),
       title := Trim(n.title), summary := Trim(n.summary), status := Trim(n.status),
       sourceTurnID := Trim(n.sourceTurnID), sourceKind := Trim(n.sourceKind), category := Trim(n.category),
       stabilityLabel := Trim(n.stabilityLabel), mergeKey := Trim(n.mergeKey))
  }

  predicate Missing(n: Node) { n.userID == "" || n.botID == "" || n.nodeType == "" || n.summary == "" }

  function Default(value: nat, fallback: nat): nat { if value == 0 then fallback else value }

  /** The zero times are taken from the node stored under the id, or from the clock. */
  function Dates(m: Nodes, n: Node, now: nat): Node {
    var old_ := if n.id in m then m[n.id] else n;
    var occurredAt := Default(Default(n.occurredAt, old_.occurredAt), now);
    n.(createdAt := Default(Default(n.createdAt, old_.createdAt), now),
       occurredAt := occurredAt,
       observedAt := Default(Default(n.observedAt, old_.observedAt), now),
       validFrom := Default(Default(n.validFrom, old_.validFrom), occurredAt),
       updatedAt := now)
  }

  function Counted(n: Node): Node {
    n.(status := if n.status == "" then "active" else n.status, evidence := if n.evidence <= 0 then 1 else n.evidence)
  }

  /** What UpdateMemoryNode stores. */
  function Updated(m: Nodes, n: Node, now: nat): Result<Node> {
    var t := Tidy(n).(id := Trim(n.id));
    if t.id == "" || Missing(t) then Err else Ok(Dates(m, Counted(t), now))
  }

  /** What CreateMemoryNode passes on to UpdateMemoryNode. */
  function Drafted(n: Node, newID: string, now: nat): Node {
    var t := Counted(Tidy(n));
    var occurredAt := Default(t.occurredAt, now);
    t.(id := if t.id == "" then newID else t.id, occurredAt := occurredAt, observedAt := Default(t.observedAt, now),
       validFrom := Default(t.validFrom, occurredAt), createdAt := now, updatedAt := now)
  }

  /** What CreateMemoryNode stores; the clock is read again by UpdateMemoryNode. */
  function Created(m: Nodes, n: Node, newID: string, now: nat, later: nat): Result<Node> {
    if Missing(Tidy(n)) then Err else Updated(m, Drafted(n, newID, now), later)
  }

  function Put(m: Nodes, r: Result<Node>): Nodes { if r.Ok? then m[r.value.id := r.value] else m }

  // ---------------------------------------------------------------- what is stored

  /** A stored node: trimmed, complete, counted and dated. */
  ghost predicate Kept(n: Node) {
    && n.id != "" && Trim(n.id) == n.id && Trim(n.userID) == n.userID && Trim(n.botID) == n.botID
    && Trim(n.nodeType) == n.nodeType && Trim(n.title) == n.title && Trim(n.summary) == n.summary
    && Trim(n.category) == n.category && Trim(n.status) == n.status && n.status != ""
    && Trim(n.sessionID) == n.sessionID && Trim(n.sourceTurnID) == n.sourceTurnID
    && Trim(n.sourceKind) == n.sourceKind && Trim(n.stabilityLabel) == n.stabilityLabel
    && Trim(n.mergeKey) == n.mergeKey
    && !Missing(n) && n.evidence >= 1 && n.occurredAt != 0 && n.observedAt != 0 && n.validFrom != 0 && n.createdAt != 0
  }

  ghost predicate Sound(m: Nodes) { forall id :: id in m ==> m[id].id == id && Kept(m[id]) }

  lemma UpdatedIsKept(m: Nodes, n: Node, now: nat)
    requires Sound(m) && now > 0 && Updated(m, n, now).Ok?
    ensures Kept(Updated(m, n, now).value)
  {
    TrimTwice(n.id); TrimTwice(n.userID); TrimTwice(n.botID); TrimTwice(n.nodeType); TrimTwice(n.title);
    TrimTwice(n.summary); TrimTwice(n.category); TrimTwice(n.status); TrimTwice(n.sessionID);
    TrimTwice(n.sourceTurnID); TrimTwice(n.sourceKind); TrimTwice(n.stabilityLabel); TrimTwice(n.mergeKey);
    ActiveIsTrimmed();
    hide Trim;
  }

  lemma ActiveIsTrimmed()
    ensures Trim("active") == "active"
  {
  }

  lemma PutKept(m: Nodes, r: Result<Node>)
    requires Sound(m) && (r.Ok? ==> Kept(r.value))
    ensures Sound(Put(m, r))
  {
    hide Kept;
  }

  lemma PutIsSound(m: Nodes, n: Node, now: nat)
    requires Sound(m) && now > 0
    ensures Sound(Put(m, Updated(m, n, now)))
  {
    hide *;
    if Updated(m, n, now).Ok? { UpdatedIsKept(m, n, now); }
    PutKept(m, Updated(m, n, now));
  }

  // ---------------------------------------------------------------- field by field

  /** All texts of v are those of n without the spaces around, but for the id and a blank status, which becomes active;
      a count of none becomes one; the weights and entities are those of n. */
  ghost predicate TextsOf(v: Node, n: Node) {
    && v.userID == Trim(n.userID) && v.botID == Trim(n.botID) && v.sessionID == Trim(n.sessionID)
    && v.nodeType == Trim(n.nodeType) && v.title == Trim(n.title) && v.summary == Trim(n.summary)
    && v.sourceTurnID == Trim(n.sourceTurnID) && v.sourceKind == Trim(n.sourceKind)
    && v.category == Trim(n.category) && v.stabilityLabel == Trim(n.stabilityLabel) && v.mergeKey == Trim(n.mergeKey)
    && v.status == (if Trim(n.status) == "" then "active" else Trim(n.status))
    && v.evidence == (if n.evidence >= 1 then n.evidence else 1)
    && v.salience == n.salience && v.confidence == n.confidence && v.stability == n.stability
    && v.entities == n.entities
  }

  /** The first of three times that is not the zero time; the last counts in any case. */
  function FirstTime(a: nat, b: nat, c: nat): nat { if a != 0 then a else if b != 0 then b else c }

  /** What UpdateMemoryNode stores: it needs an id, a user, a bot, a type and a summary; missing times are those of the
      node stored under the id, or else the time of the call. */
  lemma UpdatedIs(m: Nodes, n: Node, now: nat)
    ensures var r := Updated(m, n, now);
            && (r.Ok? <==>
                  && Trim(n.id) != "" && Trim(n.userID) != "" && Trim(n.botID) != "" && Trim(n.nodeType) != ""
                  && Trim(n.summary) != "")
            && (r.Ok? ==>
                  var v, id := r.value, Trim(n.id);
                  && v.id == id && TextsOf(v, n) && v.updatedAt == now
                  && v.createdAt == FirstTime(n.createdAt, if id in m then m[id].createdAt else 0, now)
                  && v.occurredAt == FirstTime(n.occurredAt, if id in m then m[id].occurredAt else 0, now)
                  && v.observedAt == FirstTime(n.observedAt, if id in m then m[id].observedAt else 0, now)
                  && v.validFrom == FirstTime(n.validFrom, if id in m then m[id].validFrom else 0, v.occurredAt))
  {
    hide Trim;
  }

  /** What CreateMemoryNode stores: the same under its own or a new id, created at the first reading of the clock, which
      also fills the other times, and updated at the second. */
  lemma CreatedFields(m: Nodes, n: Node, newID: string, now: nat, later: nat)
    requires now > 0 && newID != "" && Trim(newID) == newID
    ensures var r := Created(m, n, newID, now, later);
            && (r.Ok? <==>
                  && (n.id == "" || Trim(n.id) != "") && Trim(n.userID) != "" && Trim(n.botID) != ""
                  && Trim(n.nodeType) != "" && Trim(n.summary) != "")
            && (r.Ok? ==>
                  var v := r.value;
                  && v.id == (if n.id == "" then newID else Trim(n.id)) && TextsOf(v, n)
                  && v.createdAt == now && v.updatedAt == later
                  && v.occurredAt == (if n.occurredAt != 0 then n.occurredAt else now)
                  && v.observedAt == (if n.observedAt != 0 then n.observedAt else now)
                  && v.validFrom == (if n.validFrom != 0 then n.validFrom else v.occurredAt))
  {
    TrimTwice(n.userID); TrimTwice(n.botID); TrimTwice(n.sessionID); TrimTwice(n.nodeType); TrimTwice(n.title);
    TrimTwice(n.summary); TrimTwice(n.status); TrimTwice(n.sourceTurnID); TrimTwice(n.sourceKind);
    TrimTwice(n.category); TrimTwice(n.stabilityLabel); TrimTwice(n.mergeKey);
    ActiveIsTrimmed();
    hide Trim;
  }

  /** Which nodes a listing considers. */
  lemma SelectedMeans(u: Tables, userID: string, botID: string, nodeType: string, n: Node)
    ensures Selected(u, userID, botID, Filter([], [nodeType], "", "active", 128), n) <==>
              && Trim(n.userID) == Trim(userID) && Trim(n.botID) == Trim(botID)
              && (Trim(nodeType) == "" || Lowered(u, Trim(n.nodeType)) == Lowered(u, Trim(nodeType)))
              && FoldsTo(u, Trim(n.status), "active")
  {
    TrimNothing();
    ActiveIsTrimmed();
    assert LowerSet(u, []) == {};
    LowerOne(u, nodeType);
    hide Trim, FoldsTo, LowerSet, Lowered;
  }

  lemma LowerOne(u: Tables, value: string)
    ensures LowerSet(u, [value]) == if Trim(value) == "" then {} else {Lowered(u, Trim(value))}
  {
    hide Trim;
    var l := Lowered(u, Trim(value));
    assert value in [value];
    assert (set v | v in [value] :: Lowered(u, Trim(v))) == {l};
    assert l == "" <==> Trim(value) == "";
  }

  /** Some value of the list, trimmed and ignoring case; a list without visible values admits everything. */
  ghost predicate Admits(u: Tables, values: seq<string>, s: string) {
    || (forall v :: v in values ==> Trim(v) == "")
    || exists v :: v in values && Trim(v) != "" && Lowered(u, Trim(v)) == Lowered(u, Trim(s))
  }

  lemma AdmitsIs(u: Tables, values: seq<string>, s: string)
    ensures Admits(u, values, s) <==> LowerSet(u, values) == {} || Lowered(u, Trim(s)) in LowerSet(u, values)
  {
    hide Trim;
    var set_ := LowerSet(u, values);
    forall l ensures l in set_ <==> l != "" && exists v :: v in values && Lowered(u, Trim(v)) == l { }
    forall v | v in values && Trim(v) != "" ensures Lowered(u, Trim(v)) in set_ { }
    if set_ != {} {
      var l :| l in set_;
      var v :| v in values && Lowered(u, Trim(v)) == l;
      assert Trim(v) != "";
    }
  }

  /** The whole of a listing in plain terms: distinct stored nodes of the user and the bot that pass the filter, the
      most recent first, at most `limit` of them or 20; and no other such node is more recent than one of these, or
      missing while there is room. */
  lemma ListingMeans(u: Tables, m: Nodes, userID: string, botID: string, f: Filter, out: seq<Node>, id: string)
    requires IsListing(u, m, userID, botID, f, out)
    ensures |out| <= (if f.limit <= 0 then 20 else f.limit)
    ensures forall i, j :: 0 <= i < j < |out| ==>
              && out[i].id != out[j].id && out[i].occurredAt >= out[j].occurredAt
              && (out[i].occurredAt == out[j].occurredAt ==> out[i].updatedAt >= out[j].updatedAt)
    ensures id in m && m[id] in out ==> Passes(u, userID, botID, f, m[id])
    ensures id in m && m[id] !in out && Passes(u, userID, botID, f, m[id]) ==>
              && |out| == (if f.limit <= 0 then 20 else f.limit)
              && forall n :: n in out ==>
                   n.occurredAt > m[id].occurredAt
                     || (n.occurredAt == m[id].occurredAt && n.updatedAt >= m[id].updatedAt)
  {
    if id in m { PassesIs(u, userID, botID, f, m[id]); }
    hide Selected, Passes;
  }

  ghost predicate Passes(u: Tables, userID: string, botID: string, f: Filter, n: Node) {
    && Trim(n.userID) == Trim(userID) && Trim(n.botID) == Trim(botID)
    && Admits(u, f.ids, n.id) && Admits(u, f.nodeTypes, n.nodeType)
    && (Trim(f.sessionID) == "" || Trim(n.sessionID) == Trim(f.sessionID))
    && (Trim(f.status) == ""
        || (|Trim(n.status)| == |Trim(f.status)|
            && forall i :: 0 <= i < |Trim(f.status)| ==> u.fold(Trim(n.status)[i]) == u.fold(Trim(f.status)[i])))
  }

  lemma PassesIs(u: Tables, userID: string, botID: string, f: Filter, n: Node)
    ensures Passes(u, userID, botID, f, n) <==> Selected(u, userID, botID, f, n)
  {
    AdmitsIs(u, f.ids, n.id);
    AdmitsIs(u, f.nodeTypes, n.nodeType);
    hide Trim, LowerSet, Lowered, Admits;
  }

  lemma TrimNothing()
    ensures Trim("") == ""
  {
  }

  // ---------------------------------------------------------------- the total evidence

  ghost function Pick(m: Nodes): (id: string)
    requires m != map[]
    ensures id in m
  {
    var id :| id in m; id
  }

  ghost function Total(m: Nodes): int
    decreases |m|
  {
    if m == map[] then 0 else m[Pick(m)].evidence + Total(m - {Pick(m)})
  }

  lemma {:induction false} TotalWithout(m: Nodes, id: string)
    requires id in m
    ensures Total(m) == m[id].evidence + Total(m - {id})
    decreases |m|
  {
    var first := Pick(m);
    if first != id {
      TotalWithout(m - {first}, id);
      TotalWithout(m - {id}, first);
      assert m - {first} - {id} == m - {id} - {first};
    }
  }

  lemma TotalUpdate(m: Nodes, id: string, n: Node)
    ensures Total(m[id := n]) == Total(m) + n.evidence - if id in m then m[id].evidence else 0
  {
    var after := m[id := n];
    TotalWithout(after, id);
    if id in m {
      TotalWithout(m, id);
      assert after - {id} == m - {id};
    } else {
      assert after - {id} == m;
    }
  }

  // ---------------------------------------------------------------- the class

  datatype Filter = Filter(ids: seq<string>, nodeTypes: seq<string>, sessionID: string, status: string, limit: int)

  function Lowered(u: Tables, s: string): (r: string)
    ensures |r| == |s|
  {
    seq(|s|, i requires 0 <= i < |s| => u.lower(s[i]))
  }

  /** toLowerSet. */
  function LowerSet(u: Tables, values: seq<string>): set<string> {
    (set v | v in values :: Lowered(u, Trim(v))) - {""}
  }

  /** strings.EqualFold. */
  predicate FoldsTo(u: Tables, s: string, t: string) {
    |s| == |t| && forall i :: 0 <= i < |s| ==> u.fold(s[i]) == u.fold(t[i])
  }

  predicate Selected(u: Tables, userID: string, botID: string, f: Filter, n: Node) {
    && Trim(n.userID) == Trim(userID) && Trim(n.botID) == Trim(botID)
    && (LowerSet(u, f.ids) == {} || Lowered(u, Trim(n.id)) in LowerSet(u, f.ids))
    && (LowerSet(u, f.nodeTypes) == {} || Lowered(u, Trim(n.nodeType)) in LowerSet(u, f.nodeTypes))
    && (Trim(f.sessionID) == "" || Trim(n.sessionID) == Trim(f.sessionID))
    && (Trim(f.status) == "" || FoldsTo(u, Trim(n.status), Trim(f.status)))
  }

  /** a is at least as recent as b. */
  predicate Recent(a: Node, b: Node) {
    a.occurredAt > b.occurredAt || (a.occurredAt == b.occurredAt && a.updatedAt >= b.updatedAt)
  }

  function LimitOf(f: Filter): nat { if f.limit <= 0 then 20 else f.limit }

  ghost predicate DistinctIds(s: seq<Node>) { forall i, j :: 0 <= i < j < |s| ==> s[i].id != s[j].id }

  ghost predicate Ordered(s: seq<Node>) { forall i, j :: 0 <= i < j < |s| ==> Recent(s[i], s[j]) }

  /** A listing: selected stored nodes without repetition, the most recent first, and none is left out unless the
      limit is reached by nodes at least as recent. */
  ghost predicate IsListing(u: Tables, m: Nodes, userID: string, botID: string, f: Filter, out: seq<Node>) {
    && (forall n :: n in out ==> n.id in m && m[n.id] == n && Selected(u, userID, botID, f, n))
    && DistinctIds(out) && Ordered(out) && |out| <= LimitOf(f)
    && (forall id :: id in m && Selected(u, userID, botID, f, m[id]) && m[id] !in out ==>
          |out| == LimitOf(f) && forall n :: n in out ==> Recent(n, m[id]))
  }

  predicate MoreRecent(a: Node, b: Node) {
    a.occurredAt > b.occurredAt || (a.occurredAt == b.occurredAt && a.updatedAt > b.updatedAt)
  }

  /** sort.Slice with the recency comparator. */
  method SortByRecency(nodes: seq<Node>) returns (out: seq<Node>)
    requires DistinctIds(nodes)
    ensures Ordered(out) && DistinctIds(out) && |out| == |nodes|
    ensures forall n :: n in out <==> n in nodes
  {
    out := SortSlice(nodes, MoreRecent);
    SortedIsOrdered(nodes, out);
    IdsPermuted(nodes, out);
  }

  lemma SortedIsOrdered(nodes: seq<Node>, out: seq<Node>)
    requires WeakOrder(MoreRecent, nodes) ==> Sorted(MoreRecent, out)
    ensures Ordered(out)
  {
  }

  lemma IdsPermuted(a: seq<Node>, b: seq<Node>)
    requires DistinctIds(a) && multiset(a) == multiset(b)
    ensures DistinctIds(b) && |a| == |b| && forall n :: n in a <==> n in b
  {
    SameElements(a, b);
    assert Distinct(a);
    StaysDistinct(a, b);
    forall i, j | 0 <= i < j < |b| ensures b[i].id != b[j].id {
      assert b[i] in a && b[j] in a && b[i] != b[j];
      var x :| 0 <= x < |a| && a[x] == b[i];
      var y :| 0 <= y < |a| && a[y] == b[j];
    }
  }

  /** Cutting a sorted, complete list at the limit gives a listing. */
  lemma CutIsListing(u: Tables, m: Nodes, userID: string, botID: string, f: Filter, all: seq<Node>)
    requires Ordered(all) && DistinctIds(all)
    requires forall n :: n in all ==> n.id in m && m[n.id] == n && Selected(u, userID, botID, f, n)
    requires forall id :: id in m && Selected(u, userID, botID, f, m[id]) ==> m[id] in all
    ensures IsListing(u, m, userID, botID, f, if |all| > LimitOf(f) then all[..LimitOf(f)] else all)
  {
    hide Recent, Selected, LimitOf;
    var limit := LimitOf(f);
    if |all| > limit {
      var out := all[..limit];
      forall id, n | id in m && Selected(u, userID, botID, f, m[id]) && m[id] !in out && n in out
          ensures Recent(n, m[id]) {
        assert forall j :: 0 <= j < limit ==> out[j] == all[j];
        var j :| 0 <= j < |all| && all[j] == m[id];
        var i :| 0 <= i < |out| && out[i] == n;
      }
    }
  }

  class Store {
    var nodes: Nodes

    constructor ()
      ensures nodes == map[]
    {
      nodes := map[];
    }

    /** UpdateMemoryNode. */
    method UpdateMemoryNode(node: Node, now: nat) returns (r: Result<Node>)
      requires Sound(nodes) && now > 0
      modifies this
      ensures Sound(nodes)
      ensures r == Updated(old(nodes), node, now) && nodes == Put(old(nodes), r)
    {
      PutIsSound(nodes, node, now);
      hide Trim, Sound;
      var n := Tidy(node).(id := Trim(node.id));
      if n.id == "" || Missing(n) { return Err; }
      if n.status == "" { n := n.(status := "active"); }
      if n.evidence <= 0 { n := n.(evidence := 1); }
      assert n == Counted(Tidy(node).(id := Trim(node.id)));
      hide Tidy, Counted, Dates, Missing;
      n := Dates(nodes, n, now);
      nodes := nodes[n.id := n];
      r := Ok(n);
    }

    /** CreateMemoryNode; newID is what NewID would return. */
    method CreateMemoryNode(node: Node, newID: string, now: nat, later: nat) returns (r: Result<Node>)
      requires Sound(nodes) && now > 0 && later > 0
      modifies this
      ensures Sound(nodes)
      ensures r == Created(old(nodes), node, newID, now, later) && nodes == Put(old(nodes), r)
    {
      hide Tidy, Counted, Updated, Sound;
      var n := Tidy(node);
      if Missing(n) { return Err; }
      r := UpdateMemoryNode(Drafted(node, newID, now), later);
    }

    /** ListMemoryNodes: the map is visited in any order. */
    method ListMemoryNodes(u: Tables, userID: string, botID: string, f: Filter) returns (out: seq<Node>)
      requires Sound(nodes)
      ensures IsListing(u, nodes, userID, botID, f, out)
    {
      hide Selected, Kept, Ordered;
      out := [];
      var keys := nodes.Keys;
      while keys != {}
        invariant keys <= nodes.Keys
        invariant forall n :: n in out <==>
                    n.id in nodes && n.id !in keys && nodes[n.id] == n && Selected(u, userID, botID, f, n)
        invariant DistinctIds(out)
        decreases |keys|
      {
        var id :| id in keys;
        keys := keys - {id};
        if Selected(u, userID, botID, f, nodes[id]) { out := out + [nodes[id]]; }
      }
      out := SortByRecency(out);
      CutIsListing(u, nodes, userID, botID, f, out);
      if |out| > LimitOf(f) { out := out[..LimitOf(f)]; }
    }
  }
}
