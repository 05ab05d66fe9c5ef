/** Similarity of memory nodes and the merge of one into another (agentx/memorygraph/similarity.go). Weights and
    scores are reals; a time is a natural number and 0 is Go's zero time. */
module Similarity {
  import opened Folds
  import opened Text
  import Persona

  type Tables = Persona.Tables

  datatype Entity = Entity(id: string, kind: string, name: string, role: string)

  datatype Node = Node(
    id: string, userID: string, botID: string, sessionID: string, nodeType: string, title: string, summary: string,
    salience: real, confidence: real, stability: real, status: string, occurredAt: nat, observedAt: nat,
    validFrom: nat, sourceTurnID: string, sourceKind: string, category: string, stabilityLabel: string,
    mergeKey: string, evidence: int, entities: seq<Entity>, createdAt: nat, updatedAt: nat)

  datatype Match = Match(nodeID: string, similarity: real, shouldMerge: bool, node: Node)

  const MERGE_THRESHOLD := 0.72

  // ---------------------------------------------------------------- the dice coefficient

  /** Twice the shared runes over all runes, counted with multiplicity. */
  function Dice(left: string, right: string): real {
    if left == "" || right == "" then 0.0
    else 2.0 * |multiset(left) * multiset(right)| as real / (|left| + |right|) as real
  }

  lemma SharedBound(a: multiset<char>, b: multiset<char>)
    ensures |a * b| <= |a| && |a * b| <= |b| && a * b == b * a
    ensures |a * b| == |a| == |b| <==> a == b
  {
    assert |a - b| == |a| - |a * b|;
    assert |b - a| == |b| - |b * a|;
    assert a * b == b * a;
    if |a - b| == 0 && |b - a| == 0 {
      assert a - b == multiset{} && b - a == multiset{};
      forall c ensures a[c] == b[c] {
        assert (a - b)[c] == 0 && (b - a)[c] == 0;
      }
      assert a == b;
    }
    if a == b { assert a * b == a; }
  }

  lemma Sign(d: real, y: real)
    requires y > 0.0
    ensures d * y >= 0.0 <==> d >= 0.0
    ensures d * y <= 0.0 <==> d <= 0.0
  {
  }

  lemma RatioCompare(p: real, y: real, t: real)
    requires y > 0.0
    ensures p / y >= t <==> p >= t * y
    ensures p / y <= t <==> p <= t * y
  {
    var d := p / y - t;
    Sign(d, y);
    assert d * y == p - t * y;
  }

  lemma Quotient(x: nat, y: nat)
    requires 0 < y && 2 * x <= y
    ensures 0.0 <= 2.0 * x as real / y as real <= 1.0
    ensures 2.0 * x as real / y as real == 1.0 <==> 2 * x == y
    ensures 2.0 * x as real / y as real >= MERGE_THRESHOLD <==> 25 * x >= 9 * y
  {
    RatioCompare(2.0 * x as real, y as real, 0.0);
    RatioCompare(2.0 * x as real, y as real, 1.0);
    RatioCompare(2.0 * x as real, y as real, MERGE_THRESHOLD);
  }

  lemma SharedNothing(left: string, right: string)
    ensures |multiset(left) * multiset(right)| == 0 <==> forall c :: c in left ==> c !in right
  {
    var m := multiset(left) * multiset(right);
    if |m| == 0 {
      assert m == multiset{};
      forall c | c in left ensures c !in right {
        assert c in multiset(left) && m[c] == 0;
      }
    } else {
      assert m != multiset{};
      var c :| c in m;
      assert c in multiset(left) && c in multiset(right);
      assert c in left && c in right;
    }
  }

  /** The dice coefficient is symmetric and between 0 and 1; for non-empty texts it is 1 exactly when one is a
      permutation of the other, and it is 0 exactly when they share no rune. */
  lemma DiceLaws(left: string, right: string)
    ensures Dice(left, right) == Dice(right, left)
    ensures 0.0 <= Dice(left, right) <= 1.0
    ensures left != "" && right != "" ==> (Dice(left, right) == 1.0 <==> multiset(left) == multiset(right))
    ensures Dice(left, right) == 0.0 <==> forall c :: c in left ==> c !in right
  {
    SharedNothing(left, right);
    SharedBound(multiset(left), multiset(right));
    if left != "" && right != "" { Quotient(|multiset(left) * multiset(right)|, |left| + |right|); }
  }

  /** runeFrequency. */
  method RuneFrequency(value: string) returns (out: map<char, nat>)
    ensures forall c :: c in out <==> c in multiset(value)
    ensures forall c :: c in out ==> out[c] == multiset(value)[c]
  {
    out := map[];
    for k := 0 to |value|
      invariant forall c :: c in out <==> c in multiset(value[..k])
      invariant forall c :: c in out ==> out[c] == multiset(value[..k])[c]
    {
      assert value[..k + 1] == value[..k] + [value[k]];
      var r := value[k];
      out := out[r := (if r in out then out[r] else 0) + 1];
    }
    assert value[..|value|] == value;
  }

  /** The sum over a frequency map. */
  method CountRunes(frequency: map<char, nat>, ghost runes: multiset<char>) returns (count: nat)
    requires forall c :: c in frequency <==> c in runes
    requires forall c :: c in frequency ==> frequency[c] == runes[c]
    ensures count == |runes|
  {
    count := 0;
    var keys := frequency.Keys;
    ghost var done: multiset<char> := multiset{};
    while keys != {}
      invariant keys <= frequency.Keys
      invariant forall c :: done[c] == if c in keys then 0 else runes[c]
      invariant count == |done|
      decreases |keys|
    {
      var c :| c in keys;
      done := done[c := frequency[c]];
      count := count + frequency[c];
      keys := keys - {c};
    }
    assert done == runes;
  }

  /** diceCoefficient. */
  method DiceCoefficient(left: string, right: string) returns (d: real)
    ensures d == Dice(left, right)
  {
    var leftSet := RuneFrequency(left);
    var rightSet := RuneFrequency(right);
    ghost var a, b := multiset(left), multiset(right);
    assert left != "" ==> left[0] in leftSet;
    assert right != "" ==> right[0] in rightSet;
    if |leftSet| == 0 || |rightSet| == 0 { return 0.0; }
    var leftCount := CountRunes(leftSet, a);
    var rightCount := CountRunes(rightSet, b);
    var shared := 0;
    var keys := leftSet.Keys;
    ghost var done: multiset<char> := multiset{};
    while keys != {}
      invariant keys <= leftSet.Keys
      invariant forall c :: done[c] == if c in keys then 0 else (a * b)[c]
      invariant shared == |done|
      decreases |keys|
    {
      var c :| c in keys;
      keys := keys - {c};
      var n := leftSet[c];
      var m := if c in rightSet then rightSet[c] else 0;
      if m == 0 { continue; }
      done := done[c := if n < m then n else m];
      shared := shared + if n < m then n else m;
    }
    assert done == a * b;
    d := 2.0 * shared as real / (leftCount + rightCount) as real;
  }

  // ---------------------------------------------------------------- similarity of nodes

  /** similarityText: title and summary, lowercase, without spaces, punctuation and symbols. */
  function SimilarityText(u: Tables, n: Node): string { Persona.Normalize(u, Trim(n.title + " " + n.summary)) }

  /** The same type, and not two different categories. */
  predicate SameKind(a: Node, b: Node) {
    && Trim(a.nodeType) == Trim(b.nodeType)
    && (Trim(a.category) == "" || Trim(b.category) == "" || Trim(a.category) == Trim(b.category))
  }

  predicate SameKey(a: Node, b: Node) { Trim(a.mergeKey) != "" && Trim(a.mergeKey) == Trim(b.mergeKey) }

  /** nodeSimilarity. */
  function NodeSimilarity(u: Tables, a: Node, b: Node): real {
    if Trim(a.nodeType) != Trim(b.nodeType) then 0.0
    else if Trim(a.category) != "" && Trim(b.category) != "" && Trim(a.category) != Trim(b.category) then 0.0
    else if Trim(a.mergeKey) != "" && Trim(a.mergeKey) == Trim(b.mergeKey) then 1.0
    else
      var ta, tb := SimilarityText(u, a), SimilarityText(u, b);
      if ta == "" || tb == "" then 0.0 else if ta == tb then 1.0 else Dice(ta, tb)
  }

  /** The similarity is symmetric and between 0 and 1; it is 1 exactly when the nodes are of one kind and share a
      merge key or have texts that are permutations of each other, and it is 0 exactly when they are of different kinds
      or share neither a merge key nor a rune. */
  lemma SimilarityLaws(u: Tables, a: Node, b: Node)
    ensures NodeSimilarity(u, a, b) == NodeSimilarity(u, b, a)
    ensures 0.0 <= NodeSimilarity(u, a, b) <= 1.0
    ensures NodeSimilarity(u, a, b) == 1.0 <==>
              && SameKind(a, b)
              && (|| SameKey(a, b)
                  || (SimilarityText(u, a) != "" && multiset(SimilarityText(u, a)) == multiset(SimilarityText(u, b))))
    ensures NodeSimilarity(u, a, b) == 0.0 <==>
              || Trim(a.nodeType) != Trim(b.nodeType)
              || (Trim(a.category) != "" && Trim(b.category) != "" && Trim(a.category) != Trim(b.category))
              || (&& (Trim(a.mergeKey) == "" || Trim(a.mergeKey) != Trim(b.mergeKey))
                  && forall c :: c in SimilarityText(u, a) ==> c !in SimilarityText(u, b))
  {
    var ta, tb := SimilarityText(u, a), SimilarityText(u, b);
    DiceLaws(ta, tb);
    hide Trim, Dice, SimilarityText;
    assert |multiset(ta)| == |ta| && |multiset(tb)| == |tb|;
  }

  /** The runes of the two texts that pair up. */
  function Shared(u: Tables, a: Node, b: Node): nat {
    |multiset(SimilarityText(u, a)) * multiset(SimilarityText(u, b))|
  }

  /** Two nodes are similar enough to merge exactly when they are of one kind and either share a merge key or have
      non-empty texts of which at least 72 percent pairs up. */
  lemma MergesIff(u: Tables, a: Node, b: Node)
    ensures NodeSimilarity(u, a, b) >= 0.72 <==>
              && Trim(a.nodeType) == Trim(b.nodeType)
              && (Trim(a.category) == "" || Trim(b.category) == "" || Trim(a.category) == Trim(b.category))
              && (|| (Trim(a.mergeKey) != "" && Trim(a.mergeKey) == Trim(b.mergeKey))
                  || (&& SimilarityText(u, a) != "" && SimilarityText(u, b) != ""
                      && 25 * Shared(u, a, b) >= 9 * (|SimilarityText(u, a)| + |SimilarityText(u, b)|)))
  {
    var ta, tb := SimilarityText(u, a), SimilarityText(u, b);
    hide Trim, SimilarityText;
    SharedBound(multiset(ta), multiset(tb));
    if ta != "" && tb != "" { Quotient(|multiset(ta) * multiset(tb)|, |ta| + |tb|); }
  }

  /** The texts compared are the letters of the title and then those of the summary. */
  lemma SimilarityTextIs(u: Tables, n: Node)
    requires Persona.Sane(u)
    ensures SimilarityText(u, n) == Persona.Letters(u, n.title) + Persona.Letters(u, n.summary)
  {
    var text := n.title + " " + n.summary;
    Persona.NormalizeIsLetters(u, Trim(text));
    Persona.NormalizeIsLetters(u, text);
    Persona.LettersConcat(u, n.title + " ", n.summary);
    Persona.LettersConcat(u, n.title, " ");
    Persona.LettersOfSpace(u, ' ');
    assert Persona.Letters(u, n.title) + "" == Persona.Letters(u, n.title);
    hide Trim;
  }

  // ---------------------------------------------------------------- the best match

  predicate Eligible(candidate: Node, n: Node) { Trim(n.id) != "" && Trim(n.id) != Trim(candidate.id) }

  function MatchOf(u: Tables, candidate: Node, n: Node): Match {
    var score := NodeSimilarity(u, candidate, n);
    Match(n.id, score, score >= MERGE_THRESHOLD, n)
  }

  /** Position i holds the first of the most similar eligible nodes among the first n. */
  ghost predicate IsBest(u: Tables, candidate: Node, existing: seq<Node>, n: int, i: int) {
    && 0 <= i < n <= |existing| && Eligible(candidate, existing[i])
    && (forall j :: 0 <= j < n && Eligible(candidate, existing[j]) ==>
          NodeSimilarity(u, candidate, existing[j]) <= NodeSimilarity(u, candidate, existing[i]))
    && (forall j :: 0 <= j < i && Eligible(candidate, existing[j]) ==>
          NodeSimilarity(u, candidate, existing[j]) < NodeSimilarity(u, candidate, existing[i]))
  }

  ghost predicate NoneEligible(candidate: Node, existing: seq<Node>, n: int) {
    n <= |existing| && forall j :: 0 <= j < n ==> !Eligible(candidate, existing[j])
  }

  /** The outcome of a search in `existing`. */
  ghost predicate IsMatch(u: Tables, candidate: Node, existing: seq<Node>, best: Option<Match>) {
    if best.None? then NoneEligible(candidate, existing, |existing|)
    else exists i :: IsBest(u, candidate, existing, |existing|, i) && best.value == MatchOf(u, candidate, existing[i])
  }

  lemma EligibleDef(candidate: Node, n: Node)
    ensures Eligible(candidate, n) <==> !(Trim(n.id) == "" || Trim(n.id) == Trim(candidate.id))
  {
  }

  lemma BestStep(u: Tables, candidate: Node, existing: seq<Node>, k: nat, at: int)
    requires k < |existing| && IsBest(u, candidate, existing, k, at)
    ensures !Eligible(candidate, existing[k]) ==> IsBest(u, candidate, existing, k + 1, at)
    ensures Eligible(candidate, existing[k]) ==>
              var score := NodeSimilarity(u, candidate, existing[k]);
              IsBest(u, candidate, existing, k + 1, if score > NodeSimilarity(u, candidate, existing[at]) then k
                  else at)
  {
    hide NodeSimilarity, Eligible;
  }

  lemma FirstStep(u: Tables, candidate: Node, existing: seq<Node>, k: nat)
    requires k < |existing| && NoneEligible(candidate, existing, k)
    ensures if Eligible(candidate, existing[k]) then IsBest(u, candidate, existing, k + 1, k)
            else NoneEligible(candidate, existing, k + 1)
  {
    hide NodeSimilarity, Eligible;
  }

  /** findBestSimilarityNode. */
  method FindBestSimilarityNode(u: Tables, candidate: Node, existing: seq<Node>) returns (best: Option<Match>)
    ensures IsMatch(u, candidate, existing, best)
  {
    hide NodeSimilarity, Eligible, IsBest, NoneEligible;
    best := None;
    ghost var at := 0;
    assert NoneEligible(candidate, existing, 0) by { NoneAtStart(candidate, existing); }
    for k := 0 to |existing|
      invariant best.None? ==> NoneEligible(candidate, existing, k)
      invariant best.Some? ==>
                0 <= at < k && IsBest(u, candidate, existing, k, at)
                    && best.value == MatchOf(u, candidate, existing[at])
    {
      var node := existing[k];
      EligibleDef(candidate, node);
      if best.None? { FirstStep(u, candidate, existing, k); } else { BestStep(u, candidate, existing, k, at); }
      if Trim(node.id) == "" || Trim(node.id) == Trim(candidate.id) { continue; }
      var score := NodeSimilarity(u, candidate, node);
      if best.None? || score > best.value.similarity {
        best := Some(Match(node.id, score, score >= MERGE_THRESHOLD, node));
        at := k;
      }
    }
  }

  lemma NoneAtStart(candidate: Node, existing: seq<Node>)
    ensures NoneEligible(candidate, existing, 0)
  {
  }

  /** What a match stands for: no eligible node is more similar, and none is missed. */
  lemma MatchIsMaximal(u: Tables, candidate: Node, existing: seq<Node>, best: Option<Match>)
    requires IsMatch(u, candidate, existing, best)
    ensures best.None? <==> forall n :: n in existing ==> Trim(n.id) == "" || Trim(n.id) == Trim(candidate.id)
    ensures best.Some? ==> && best.value.node in existing && Trim(best.value.node.id) != ""
                           && Trim(best.value.node.id) != Trim(candidate.id)
                           && best.value.nodeID == best.value.node.id
                           && best.value.similarity == NodeSimilarity(u, candidate, best.value.node)
                           && (best.value.shouldMerge <==> best.value.similarity >= 0.72)
                           && forall n :: n in existing && Trim(n.id) != "" && Trim(n.id) != Trim(candidate.id) ==>
                                NodeSimilarity(u, candidate, n) <= NodeSimilarity(u, candidate, best.value.node)
  {
    forall n ensures Eligible(candidate, n) <==> Trim(n.id) != "" && Trim(n.id) != Trim(candidate.id) { }
    hide NodeSimilarity, Eligible, Trim;
    if best.Some? {
      var i :| IsBest(u, candidate, existing, |existing|, i) && best.value == MatchOf(u, candidate, existing[i]);
      assert best.value.node == existing[i] && existing[i] in existing;
    }
  }

  // ---------------------------------------------------------------- entities

  function EntityKey(e: Entity): string { Trim(e.id) + ":" + Trim(e.name) }

  function Keys(items: seq<Entity>): set<string> { set e | e in items :: EntityKey(e) }

  /** The items whose key is new, the first of each key. */
  function Fresh(items: seq<Entity>, seen: set<string>): seq<Entity> {
    if items == [] then []
    else if EntityKey(items[0]) in seen then Fresh(items[1..], seen)
    else [items[0]] + Fresh(items[1..], seen + {EntityKey(items[0])})
  }

  function MergeEntities(left: seq<Entity>, right: seq<Entity>): seq<Entity> { left + Fresh(right, Keys(left)) }

  lemma KeysCons(e: Entity, rest: seq<Entity>)
    ensures Keys([e] + rest) == {EntityKey(e)} + Keys(rest)
  {
    hide EntityKey;
    forall k ensures k in Keys([e] + rest) <==> k == EntityKey(e) || k in Keys(rest) {
      if k == EntityKey(e) { assert ([e] + rest)[0] == e; }
      if k in Keys(rest) {
        var x :| x in rest && EntityKey(x) == k;
        assert x in [e] + rest;
      }
    }
  }

  ghost predicate DistinctKeys(items: seq<Entity>) {
    forall i, j :: 0 <= i < j < |items| ==> EntityKey(items[i]) != EntityKey(items[j])
  }

  lemma DistinctCons(e: Entity, rest: seq<Entity>)
    requires DistinctKeys(rest) && EntityKey(e) !in Keys(rest)
    ensures DistinctKeys([e] + rest)
  {
    hide EntityKey;
    var all := [e] + rest;
    forall i, j | 0 <= i < j < |all| ensures EntityKey(all[i]) != EntityKey(all[j]) {
      assert all[j] == rest[j - 1];
      assert EntityKey(rest[j - 1]) in Keys(rest);
      if i > 0 { assert all[i] == rest[i - 1]; }
    }
  }

  lemma {:induction false} FreshKeys(items: seq<Entity>, seen: set<string>)
    ensures Keys(Fresh(items, seen)) == Keys(items) - seen
    ensures DistinctKeys(Fresh(items, seen))
  {
    hide EntityKey, Keys, DistinctKeys;
    if items == [] {
      KeysNone();
    } else {
      var key, rest := EntityKey(items[0]), items[1..];
      assert items == [items[0]] + rest;
      KeysCons(items[0], rest);
      if key in seen {
        FreshKeys(rest, seen);
      } else {
        FreshKeys(rest, seen + {key});
        KeysCons(items[0], Fresh(rest, seen + {key}));
        DistinctCons(items[0], Fresh(rest, seen + {key}));
      }
    }
  }

  lemma KeysNone()
    ensures Keys([]) == {} && DistinctKeys([])
  {
  }

  lemma {:induction false} FreshNone(items: seq<Entity>, seen: set<string>)
    requires Keys(items) <= seen
    ensures Fresh(items, seen) == []
  {
    hide EntityKey;
    if items != [] {
      assert EntityKey(items[0]) in Keys(items);
      assert Keys(items[1..]) <= Keys(items);
      FreshNone(items[1..], seen);
    }
  }

  /** Merging keeps the left entities in front, ends with exactly the keys of both, adds no key twice, and merging
      the same entities again adds nothing. */
  lemma MergeEntitiesLaws(left: seq<Entity>, right: seq<Entity>)
    ensures var out := MergeEntities(left, right);
            && left <= out
            && Keys(out) == Keys(left) + Keys(right)
            && (forall i, j :: 0 <= i < j < |out| && |left| <= j ==> EntityKey(out[i]) != EntityKey(out[j]))
            && MergeEntities(out, right) == out
  {
    var extra := Fresh(right, Keys(left));
    var out := MergeEntities(left, right);
    FreshKeys(right, Keys(left));
    hide EntityKey, Fresh;
    assert Keys(out) == Keys(left) + Keys(extra);
    FreshNone(right, Keys(out));
    forall i, j | 0 <= i < j < |out| && |left| <= j ensures EntityKey(out[i]) != EntityKey(out[j]) {
      assert out[j] == extra[j - |left|];
      assert EntityKey(extra[j - |left|]) in Keys(extra);
      if i < |left| { assert EntityKey(left[i]) in Keys(left); } else { assert out[i] == extra[i - |left|]; }
    }
  }

  lemma {:induction false} FreshSnoc(items: seq<Entity>, e: Entity, seen: set<string>)
    ensures var new_ := Fresh(items, seen);
            Fresh(items + [e], seen) == if EntityKey(e) in seen + Keys(items) then new_ else new_ + [e]
  {
    hide EntityKey;
    if items == [] {
      assert items + [e] == [e] && [e][1..] == [];
      assert Keys(items) == {};
    } else {
      var key := EntityKey(items[0]);
      assert (items + [e])[1..] == items[1..] + [e];
      FreshSnoc(items[1..], e, if key in seen then seen else seen + {key});
      assert items == [items[0]] + items[1..];
      KeysCons(items[0], items[1..]);
    }
  }

  lemma KeysSnoc(items: seq<Entity>, k: nat)
    requires k < |items|
    ensures Keys(items[..k + 1]) == Keys(items[..k]) + {EntityKey(items[k])}
    ensures items[..k + 1] == items[..k] + [items[k]]
  {
    hide EntityKey;
    assert items[..k + 1] == items[..k] + [items[k]];
  }

  lemma FreshNothing(seen: set<string>)
    ensures Fresh([], seen) == []
  {
  }

  lemma MergeEntitiesDef(left: seq<Entity>, right: seq<Entity>)
    ensures MergeEntities(left, right) == left + Fresh(right, Keys(left))
  {
  }

  /** The same in plain terms: an entity of the right is there afterwards if and only if no entity of the left and no
      earlier one of the right has its trimmed id and name. */
  ghost predicate SameEntity(a: Entity, b: Entity) {
    Trim(a.id) + ":" + Trim(a.name) == Trim(b.id) + ":" + Trim(b.name)
  }

  lemma {:induction false} FreshAre(items: seq<Entity>, seen: set<string>, e: Entity)
    ensures e in Fresh(items, seen) <==>
              exists i :: 0 <= i < |items| && items[i] == e && EntityKey(e) !in seen
                && forall j :: 0 <= j < i ==> EntityKey(items[j]) != EntityKey(e)
  {
    hide EntityKey;
    if items != [] {
      var key, rest := EntityKey(items[0]), items[1..];
      var seen' := if key in seen then seen else seen + {key};
      FreshAre(rest, seen', e);
      if i :| 0 <= i < |items| && items[i] == e && EntityKey(e) !in seen
              && forall j :: 0 <= j < i ==> EntityKey(items[j]) != EntityKey(e) {
        if i > 0 {
          assert rest[i - 1] == e && EntityKey(items[0]) != EntityKey(e);
          forall j | 0 <= j < i - 1 ensures EntityKey(rest[j]) != EntityKey(e) { assert rest[j] == items[j + 1]; }
        }
      }
      if i :| 0 <= i < |rest| && rest[i] == e && EntityKey(e) !in seen'
              && forall j :: 0 <= j < i ==> EntityKey(rest[j]) != EntityKey(e) {
        if key !in seen || key != EntityKey(e) {
          assert items[i + 1] == e;
          forall j | 0 <= j < i + 1 ensures EntityKey(items[j]) != EntityKey(e) {
            if j > 0 { assert items[j] == rest[j - 1]; }
          }
        }
      }
    }
  }

  lemma FreshSame(left: seq<Entity>, right: seq<Entity>, e: Entity)
    ensures e in Fresh(right, Keys(left)) <==>
              exists i :: 0 <= i < |right| && right[i] == e && (forall j :: 0 <= j < i ==> !SameEntity(right[j], e))
                && forall j :: 0 <= j < |left| ==> !SameEntity(left[j], e)
  {
    forall a, b ensures SameEntity(a, b) <==> EntityKey(a) == EntityKey(b) { }
    if j :| 0 <= j < |left| && EntityKey(left[j]) == EntityKey(e) { assert left[j] in left; }
    assert EntityKey(e) in Keys(left) <==> exists j :: 0 <= j < |left| && SameEntity(left[j], e);
    hide EntityKey, Keys, Fresh, SameEntity;
    FreshAre(right, Keys(left), e);
  }

  lemma MergedEntities(left: seq<Entity>, right: seq<Entity>)
    ensures var out := MergeEntities(left, right);
            && left <= out
            && forall e :: e in out[|left|..] <==>
                 exists i :: 0 <= i < |right| && right[i] == e && (forall j :: 0 <= j < i ==> !SameEntity(right[j], e))
                   && forall j :: 0 <= j < |left| ==> !SameEntity(left[j], e)
  {
    var out := MergeEntities(left, right);
    assert out[|left|..] == Fresh(right, Keys(left));
    hide EntityKey, Keys, Fresh, SameEntity, MergeEntities;
    forall e ensures e in Fresh(right, Keys(left)) <==>
                       exists i :: 0 <= i < |right| && right[i] == e
                         && (forall j :: 0 <= j < i ==> !SameEntity(right[j], e))
                         && forall j :: 0 <= j < |left| ==> !SameEntity(left[j], e) {
      FreshSame(left, right, e);
    }
  }

  /** mergeEntities. */
  method MergeEntitiesLoop(left: seq<Entity>, right: seq<Entity>) returns (out: seq<Entity>)
    ensures out == MergeEntities(left, right)
  {
    MergeEntitiesDef(left, right);
    KeysNone();
    hide *;
    out := left;
    var seen: set<string> := {};
    for k := 0 to |left|
      invariant seen == Keys(left[..k])
    {
      KeysSnoc(left, k);
      seen := seen + {EntityKey(left[k])};
    }
    assert left[..|left|] == left;
    FreshNothing(Keys(left));
    for k := 0 to |right|
      invariant seen == Keys(left) + Keys(right[..k])
      invariant out == left + Fresh(right[..k], Keys(left))
    {
      KeysSnoc(right, k);
      FreshSnoc(right[..k], right[k], Keys(left));
      if EntityKey(right[k]) in seen { continue; }
      seen := seen + {EntityKey(right[k])};
      out := out + [right[k]];
    }
    assert right[..|right|] == right;
  }

  // ---------------------------------------------------------------- mergeNode

  function Later(a: nat, b: nat): nat { if b > a then b else a }

  function Heavier(a: real, b: real): real { if b > a then b else a }

  function Longer(a: string, b: string): string { if |b| > |a| then b else a }

  function FirstFilled(a: string, b: string): string { if Trim(a) == "" then Trim(b) else a }

  function Earlier(existing: nat, candidate: nat): nat {
    if candidate < existing || existing == 0 then candidate else existing
  }

  function AtLeastOne(count: int): int { if count > 1 then count else 1 }

  function MergeNode(e: Node, c: Node): Node {
    Node(e.id, e.userID, e.botID, e.sessionID, e.nodeType, Longer(e.title, c.title), Longer(e.summary, c.summary),
         Heavier(e.salience, c.salience), Heavier(e.confidence, c.confidence), Heavier(e.stability, c.stability),
         e.status, Later(e.occurredAt, c.occurredAt), Later(e.observedAt, c.observedAt),
         Earlier(e.validFrom, c.validFrom), e.sourceTurnID, FirstFilled(e.sourceKind, c.sourceKind),
         FirstFilled(e.category, c.category), FirstFilled(e.stabilityLabel, c.stabilityLabel),
         FirstFilled(e.mergeKey, c.mergeKey), e.evidence + AtLeastOne(c.evidence),
         MergeEntities(e.entities, c.entities), e.createdAt, e.updatedAt)
  }

  /** Every field of a merge: the longer texts, the later times, the greater weights, what was missing, and the rest as
      it was. */
  lemma MergeNodeIs(e: Node, c: Node)
    ensures var m := MergeNode(e, c);
            && m.id == e.id && m.userID == e.userID && m.botID == e.botID && m.sessionID == e.sessionID
            && m.nodeType == e.nodeType && m.status == e.status && m.sourceTurnID == e.sourceTurnID
            && m.createdAt == e.createdAt && m.updatedAt == e.updatedAt
            && m.title == (if |c.title| > |e.title| then c.title else e.title)
            && m.summary == (if |c.summary| > |e.summary| then c.summary else e.summary)
            && m.occurredAt == (if c.occurredAt > e.occurredAt then c.occurredAt else e.occurredAt)
            && m.observedAt == (if c.observedAt > e.observedAt then c.observedAt else e.observedAt)
            && m.validFrom == (if e.validFrom == 0 || c.validFrom < e.validFrom then c.validFrom else e.validFrom)
            && m.salience == (if c.salience > e.salience then c.salience else e.salience)
            && m.confidence == (if c.confidence > e.confidence then c.confidence else e.confidence)
            && m.stability == (if c.stability > e.stability then c.stability else e.stability)
            && m.sourceKind == (if Trim(e.sourceKind) == "" then Trim(c.sourceKind) else e.sourceKind)
            && m.category == (if Trim(e.category) == "" then Trim(c.category) else e.category)
            && m.stabilityLabel == (if Trim(e.stabilityLabel) == "" then Trim(c.stabilityLabel) else e.stabilityLabel)
            && m.mergeKey == (if Trim(e.mergeKey) == "" then Trim(c.mergeKey) else e.mergeKey)
            && m.evidence == e.evidence + (if c.evidence > 1 then c.evidence else 1)
            && m.entities == MergeEntities(e.entities, c.entities)
  {
    hide Trim, MergeEntities;
  }

  // mergeNode, field by field: the texts, the times, the weights, the gaps, the rest.

  method MergeTexts(e: Node, c: Node) returns (summary: string, title: string)
    ensures summary == Longer(e.summary, c.summary) && title == Longer(e.title, c.title)
  {
    summary, title := e.summary, e.title;
    if |c.summary| > |summary| { summary := c.summary; }
    if |c.title| > |title| { title := c.title; }
  }

  method MergeTimes(e: Node, c: Node) returns (occurredAt: nat, observedAt: nat, validFrom: nat)
    ensures occurredAt == Later(e.occurredAt, c.occurredAt) && observedAt == Later(e.observedAt, c.observedAt)
    ensures validFrom == Earlier(e.validFrom, c.validFrom)
  {
    occurredAt, observedAt, validFrom := e.occurredAt, e.observedAt, e.validFrom;
    if c.occurredAt > occurredAt { occurredAt := c.occurredAt; }
    if c.observedAt > observedAt { observedAt := c.observedAt; }
    if c.validFrom < validFrom || validFrom == 0 { validFrom := c.validFrom; }
  }

  method MergeWeights(e: Node, c: Node) returns (salience: real, confidence: real, stability: real)
    ensures salience == Heavier(e.salience, c.salience) && confidence == Heavier(e.confidence, c.confidence)
    ensures stability == Heavier(e.stability, c.stability)
  {
    salience, confidence, stability := e.salience, e.confidence, e.stability;
    if c.salience > salience { salience := c.salience; }
    if c.confidence > confidence { confidence := c.confidence; }
    if c.stability > stability { stability := c.stability; }
  }

  method FillGaps(e: Node, c: Node)
      returns (sourceKind: string, category: string, stabilityLabel: string, mergeKey: string)
    ensures sourceKind == FirstFilled(e.sourceKind, c.sourceKind) && category == FirstFilled(e.category, c.category)
    ensures stabilityLabel == FirstFilled(e.stabilityLabel, c.stabilityLabel)
    ensures mergeKey == FirstFilled(e.mergeKey, c.mergeKey)
  {
    hide Trim;
    sourceKind, category, stabilityLabel, mergeKey := e.sourceKind, e.category, e.stabilityLabel, e.mergeKey;
    if Trim(sourceKind) == "" { sourceKind := Trim(c.sourceKind); }
    if Trim(category) == "" { category := Trim(c.category); }
    if Trim(stabilityLabel) == "" { stabilityLabel := Trim(c.stabilityLabel); }
    if Trim(mergeKey) == "" { mergeKey := Trim(c.mergeKey); }
  }

  method MergeNodeSteps(existing: Node, candidate: Node) returns (merged: Node)
    ensures merged == MergeNode(existing, candidate)
  {
    hide Longer, Later, Earlier, Heavier, FirstFilled, MergeEntities;
    var e, c := existing, candidate;
    var summary, title := MergeTexts(e, c);
    var occurredAt, observedAt, validFrom := MergeTimes(e, c);
    var salience, confidence, stability := MergeWeights(e, c);
    var sourceKind, category, stabilityLabel, mergeKey := FillGaps(e, c);
    var entities := MergeEntitiesLoop(e.entities, c.entities);
    merged := e.(
      title := title, summary := summary, salience := salience, confidence := confidence, stability := stability,
      occurredAt := occurredAt, observedAt := observedAt, validFrom := validFrom, sourceKind := sourceKind,
      category := category, stabilityLabel := stabilityLabel, mergeKey := mergeKey,
      evidence := e.evidence + AtLeastOne(c.evidence), entities := entities);
  }

  // ---------------------------------------------------------------- the order of merges

  datatype Measures = Measures(occurredAt: nat, observedAt: nat, validFrom: nat, salience: real, confidence: real,
                               stability: real, evidence: int)

  function MeasuresOf(n: Node): Measures {
    Measures(n.occurredAt, n.observedAt, n.validFrom, n.salience, n.confidence, n.stability, n.evidence)
  }

  /** What a merge does to the measures depends on the measures only. */
  function MergeMeasures(m: Measures, c: Measures): Measures {
    Measures(Later(m.occurredAt, c.occurredAt), Later(m.observedAt, c.observedAt), Earlier(m.validFrom, c.validFrom),
             Heavier(m.salience, c.salience), Heavier(m.confidence, c.confidence), Heavier(m.stability, c.stability),
             m.evidence + AtLeastOne(c.evidence))
  }

  /** Two merges in a row, in either order: everything but ValidFrom agrees, and ValidFrom agrees exactly when both
      candidates have one or neither has. */
  lemma MergesCommute(e: Node, a: Node, b: Node)
    ensures var ab, ba := MeasuresOf(MergeNode(MergeNode(e, a), b)), MeasuresOf(MergeNode(MergeNode(e, b), a));
            && ab.(validFrom := 0) == ba.(validFrom := 0)
            && (ab.validFrom == ba.validFrom <==> (a.validFrom == 0 <==> b.validFrom == 0))
  {
    hide Trim, MergeEntities, FirstFilled, Longer;
  }

  /** mergeNode over a list of candidates. */
  function MergeAll(e: Node, candidates: seq<Node>): Node { Fold(MergeNode, e, candidates) }

  function MergeOne(m: Measures, c: Node): Measures { MergeMeasures(m, MeasuresOf(c)) }

  lemma {:induction false} MergeAllIsMeasured(e: Node, candidates: seq<Node>)
    ensures MeasuresOf(MergeAll(e, candidates)) == Fold(MergeOne, MeasuresOf(e), candidates)
    decreases |candidates|
  {
    hide MergeEntities, FirstFilled, Longer;
    if candidates != [] { MergeAllIsMeasured(MergeNode(e, candidates[0]), candidates[1..]); }
  }

  predicate HasDate(c: Node) { c.validFrom != 0 }

  predicate HasNoDate(c: Node) { c.validFrom == 0 }

  predicate AnyMeasures(m: Measures) { true }

  lemma DatedSwap()
    ensures Swaps(MergeOne, AnyMeasures, HasDate)
  {
  }

  lemma UndatedSwap()
    ensures Swaps(MergeOne, AnyMeasures, HasNoDate)
  {
  }

  /** Two orders that end with a dated and with an undated candidate differ in ValidFrom. */
  lemma LastDecides(e: Node, xs: seq<Node>, c: Node)
    ensures MeasuresOf(MergeAll(e, xs + [c])).validFrom == 0 <==> HasNoDate(c)
  {
    MergeAllIsMeasured(e, xs + [c]);
    FoldSnoc(MergeOne, MeasuresOf(e), xs, c);
    hide Fold;
  }

  /** All candidates have a ValidFrom, or none has. */
  predicate Uniform(xs: seq<Node>) { (forall c :: c in xs ==> HasDate(c)) || (forall c :: c in xs ==> HasNoDate(c)) }

  /** Every order of the candidates leaves the same times, weights and evidence. */
  ghost predicate OrderFree(e: Node, xs: seq<Node>) {
    forall ys :: multiset(ys) == multiset(xs) ==> MeasuresOf(MergeAll(e, ys)) == MeasuresOf(MergeAll(e, xs))
  }

  lemma MixedDiffer(e: Node, xs: seq<Node>, i: nat, j: nat)
    requires i < |xs| && j < |xs| && HasDate(xs[i]) && HasNoDate(xs[j])
    ensures !OrderFree(e, xs)
  {
    hide MergeNode, MeasuresOf, MergeAll, Without;
    var ys, zs := Without(xs, i) + [xs[i]], Without(xs, j) + [xs[j]];
    WithoutIs(xs, i);
    WithoutIs(xs, j);
    LastDecides(e, Without(xs, i), xs[i]);
    LastDecides(e, Without(xs, j), xs[j]);
    assert MeasuresOf(MergeAll(e, ys)) != MeasuresOf(MergeAll(e, zs));
  }

  /** The order of the merges does not matter exactly when all candidates have a ValidFrom or none has. */
  lemma MergeOrderDoesNotMatter(e: Node, xs: seq<Node>)
    ensures OrderFree(e, xs) <==> Uniform(xs)
  {
    if Uniform(xs) {
      hide MergeNode, MeasuresOf, MergeAll, Uniform;
      forall ys | multiset(ys) == multiset(xs) ensures MeasuresOf(MergeAll(e, ys)) == MeasuresOf(MergeAll(e, xs)) {
        AnyOrder(e, xs, ys);
      }
    } else {
      hide OrderFree;
      var d :| d in xs && !HasDate(d);
      var c :| c in xs && !HasNoDate(c);
      var i :| 0 <= i < |xs| && xs[i] == c;
      var j :| 0 <= j < |xs| && xs[j] == d;
      MixedDiffer(e, xs, i, j);
    }
  }

  lemma AnyOrder(e: Node, xs: seq<Node>, ys: seq<Node>)
    requires multiset(ys) == multiset(xs) && Uniform(xs)
    ensures MeasuresOf(MergeAll(e, ys)) == MeasuresOf(MergeAll(e, xs))
  {
    MergeAllIsMeasured(e, xs);
    MergeAllIsMeasured(e, ys);
    DatedSwap();
    UndatedSwap();
    hide MergeNode, MeasuresOf, MergeOne, MergeAll, Swaps, HasDate, HasNoDate, AnyMeasures;
    AnyMeasuresFit(MeasuresOf(e));
    if forall c :: c in xs ==> HasDate(c) {
      FoldPermutation(MergeOne, AnyMeasures, HasDate, MeasuresOf(e), xs, ys);
    } else {
      FoldPermutation(MergeOne, AnyMeasures, HasNoDate, MeasuresOf(e), xs, ys);
    }
  }

  lemma AnyMeasuresFit(m: Measures)
    ensures AnyMeasures(m)
  {
  }
}
