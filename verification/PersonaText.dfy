/** The text algebra of persona fields (store/store.go): fields separated by delimiters, joined with '；'. */
module PersonaText {
  import opened Text

  predicate IsDelimiter(c: char) { c == '|' || c == '；' || c == ';' || c == '\n' }

  predicate DelimiterFree(s: string) { forall i :: 0 <= i < |s| ==> !IsDelimiter(s[i]) }

  /** The first position at or after k that holds a delimiter, or the length. */
  function NextDelimiter(s: string, k: nat): (r: nat)
    requires k <= |s|
    ensures k <= r <= |s| && (r < |s| ==> IsDelimiter(s[r])) && forall i :: k <= i < r ==> !IsDelimiter(s[i])
    decreases |s| - k
  {
    if k == |s| || IsDelimiter(s[k]) then k else NextDelimiter(s, k + 1)
  }

  /** strings.FieldsFunc on delimiters: the maximal delimiter-free stretches. */
  function Fields(s: string): seq<string>
    decreases |s|
  {
    if s == "" then []
    else
      var k := NextDelimiter(s, 0);
      if k == |s| then [s]
      else if k == 0 then Fields(s[1..])
      else [s[..k]] + Fields(s[k + 1..])
  }

  /** dedup: trimmed, non-empty, first occurrence only. */
  function Dedup(values: seq<string>): seq<string> {
    if values == [] then []
    else
      var r := Dedup(values[..|values| - 1]);
      var v := Trim(values[|values| - 1]);
      if v == "" || v in r then r else r + [v]
  }

  const SEPARATOR := "；"

  function Join(parts: seq<string>): string {
    if |parts| == 0 then "" else if |parts| == 1 then parts[0] else parts[0] + SEPARATOR + Join(parts[1..])
  }

  function SplitText(v: string): seq<string> {
    if Blank(v) then [] else Dedup(Fields(v))
  }

  function AppendText(base: string, adds: seq<string>): string { Join(Dedup(SplitText(base) + adds)) }

  // ---------------------------------------------------------------- trimming

  lemma {:induction false} TrimRightFix(s: string)
    requires s == "" || !IsSpace(s[|s| - 1])
    ensures TrimRight(s) == s
  {
  }

  lemma TrimDelimiterFree(s: string)
    requires DelimiterFree(s)
    ensures DelimiterFree(Trim(s))
  {
    var i, j := TrimPart(s);
  }

  // ---------------------------------------------------------------- splitting a join

  lemma FieldsHead(p: string, rest: string)
    requires DelimiterFree(p) && p != ""
    ensures Fields(p + SEPARATOR + rest) == [p] + Fields(rest)
  {
    var s := p + SEPARATOR + rest;
    assert s[|p|] == '；';
    forall i | 0 <= i < |p| ensures s[i] == p[i] { }
    assert NextDelimiter(s, 0) == |p|;
    assert s[..|p|] == p && s[|p| + 1..] == rest;
  }

  lemma FieldsOne(p: string)
    requires DelimiterFree(p) && p != ""
    ensures Fields(p) == [p]
  {
  }

  /** Delimiter-free, non-empty parts. */
  predicate Plain(parts: seq<string>) { forall i :: 0 <= i < |parts| ==> DelimiterFree(parts[i]) && parts[i] != "" }

  lemma PlainTail(parts: seq<string>)
    requires Plain(parts) && parts != []
    ensures Plain(parts[1..]) && DelimiterFree(parts[0]) && parts[0] != ""
  {
    hide DelimiterFree;
  }

  lemma JoinHead(head: string, rest: seq<string>)
    requires rest != []
    ensures Join([head] + rest) == head + SEPARATOR + Join(rest)
  {
    assert ([head] + rest)[1..] == rest;
  }

  lemma JoinOne(part: string)
    ensures Join([part]) == part
  {
  }

  lemma {:induction false} FieldsOfJoin(parts: seq<string>, last: string)
    requires Plain(parts)
    ensures Fields(Join(parts + [last])) == parts + Fields(last)
  {
    hide *;
    if parts == [] {
      JoinOne(last);
      assert parts + [last] == [last];
    } else {
      var head, rest := parts[0], parts[1..];
      PlainTail(parts);
      FieldsOfJoin(rest, last);
      JoinHead(head, rest + [last]);
      FieldsHead(head, Join(rest + [last]));
      assert parts + [last] == [head] + (rest + [last]);
      assert parts + Fields(last) == [head] + (rest + Fields(last));
    }
  }

  lemma FieldsOfPlainJoin(parts: seq<string>)
    requires Plain(parts)
    ensures Fields(Join(parts)) == parts
  {
    if parts != [] {
      var n := |parts| - 1;
      assert parts == parts[..n] + [parts[n]];
      FieldsOfJoin(parts[..n], parts[n]);
      FieldsOne(parts[n]);
    }
  }

  /** What splitting does, from the front: a text is cut at the first '|', '；', ';' or line break, and an empty stretch
      is no field. */
  lemma FieldsAre(head: string, c: char, rest: string)
    requires c in {'|', '；', ';', '\n'} && forall i :: 0 <= i < |head| ==> head[i] !in {'|', '；', ';', '\n'}
    ensures Fields(head + [c] + rest) == (if head == "" then [] else [head]) + Fields(rest)
    ensures Fields(head) == if head == "" then [] else [head]
  {
    var s := head + [c] + rest;
    forall i | 0 <= i < |head| ensures s[i] == head[i] { }
    assert s[|head|] == c;
    FirstDelimiter(s, |head|);
    assert s[..|head|] == head && s[|head| + 1..] == rest;
    FirstDelimiter(head, |head|);
    assert [] + Fields(rest) == Fields(rest);
    assert head == "" ==> s[1..] == rest;
  }

  lemma FirstDelimiter(s: string, k: nat)
    requires k <= |s| && (forall i :: 0 <= i < k ==> s[i] !in {'|', '；', ';', '\n'})
    requires k < |s| ==> s[k] in {'|', '；', ';', '\n'}
    ensures NextDelimiter(s, 0) == k
  {
    assert forall c :: IsDelimiter(c) <==> c in {'|', '；', ';', '\n'};
    hide IsDelimiter;
  }

  /** What joining does, at the end. */
  lemma {:induction false} JoinAppends(parts: seq<string>, last: string)
    ensures Join(parts + [last]) == if parts == [] then last else Join(parts) + "；" + last
  {
    if |parts| > 1 {
      JoinAppends(parts[1..], last);
      assert (parts + [last])[1..] == parts[1..] + [last];
    } else if |parts| == 1 {
      assert (parts + [last])[1..] == [last];
    } else {
      assert parts + [last] == [last];
    }
  }

  /** Splitting keeps the visible fields, trimmed, each once. */
  lemma SplitIs(v: string)
    ensures SplitText(v) == if Trim(v) == "" then [] else Dedup(Fields(v))
  {
  }

  // ---------------------------------------------------------------- dedup

  /** Trimmed, non-empty and pairwise distinct. */
  predicate Clean(parts: seq<string>) {
    && (forall i :: 0 <= i < |parts| ==> parts[i] != "" && Trim(parts[i]) == parts[i])
    && (forall i, j :: 0 <= i < j < |parts| ==> parts[i] != parts[j])
  }

  lemma {:induction false} DedupClean(values: seq<string>)
    ensures Clean(Dedup(values))
    ensures forall v :: v in values && Trim(v) != "" ==> Trim(v) in Dedup(values)
    ensures forall w :: w in Dedup(values) ==> exists v :: v in values && Trim(v) == w
  {
    hide Trim;
    if values != [] {
      var n := |values| - 1;
      DedupClean(values[..n]);
      TrimTwice(values[n]);
      assert values == values[..n] + [values[n]];
    }
  }

  lemma {:induction false} DedupOfClean(parts: seq<string>)
    requires Clean(parts)
    ensures Dedup(parts) == parts
  {
    hide Trim;
    if parts != [] {
      var n := |parts| - 1;
      DedupOfClean(parts[..n]);
      assert parts == parts[..n] + [parts[n]];
    }
  }

  /** What is already there stays, in order, in front. */
  lemma {:induction false} DedupExtends(a: seq<string>, b: seq<string>)
    ensures Dedup(a) <= Dedup(a + b)
  {
    hide Trim;
    if b == [] {
      assert a + b == a;
    } else {
      var n := |b| - 1;
      assert (a + b)[..|a + b| - 1] == a + b[..n];
      DedupExtends(a, b[..n]);
    }
  }

  lemma {:induction false} DedupAssoc(a: seq<string>, b: seq<string>)
    ensures Dedup(Dedup(a) + b) == Dedup(a + b)
  {
    hide Trim;
    if b == [] {
      assert a + b == a && Dedup(a) + b == Dedup(a);
      DedupClean(a);
      DedupOfClean(Dedup(a));
    } else {
      var n := |b| - 1;
      assert (a + b)[..|a + b| - 1] == a + b[..n];
      assert (Dedup(a) + b)[..|Dedup(a) + b| - 1] == Dedup(a) + b[..n];
      DedupAssoc(a, b[..n]);
    }
  }

  lemma DedupPlain(values: seq<string>)
    requires forall i :: 0 <= i < |values| ==> DelimiterFree(values[i])
    ensures Plain(Dedup(values))
  {
    DedupClean(values);
    forall i | 0 <= i < |Dedup(values)| ensures DelimiterFree(Dedup(values)[i]) && Dedup(values)[i] != "" {
      assert Dedup(values)[i] in Dedup(values);
      var v :| v in values && Trim(v) == Dedup(values)[i];
      TrimDelimiterFree(v);
    }
  }

  lemma {:induction false} FieldsAreDelimiterFree(s: string)
    ensures forall i :: 0 <= i < |Fields(s)| ==> DelimiterFree(Fields(s)[i])
    decreases |s|
  {
    if s != "" {
      var k := NextDelimiter(s, 0);
      if k < |s| { FieldsAreDelimiterFree(s[1..]); FieldsAreDelimiterFree(s[k + 1..]); }
    }
  }

  lemma SplitIsPlain(v: string)
    ensures Plain(SplitText(v)) && Clean(SplitText(v))
  {
    FieldsAreDelimiterFree(v);
    DedupPlain(Fields(v));
    DedupClean(Fields(v));
  }

  lemma TrimmedHead(p: string)
    requires Trim(p) == p && p != ""
    ensures !IsSpace(p[0])
  {
    TrimLeftShrinks(p);
  }

  lemma JoinNotBlank(parts: seq<string>)
    requires Clean(parts) && parts != []
    ensures !Blank(Join(parts))
  {
    TrimmedHead(parts[0]);
    assert Join(parts)[0] == parts[0][0];
    HeadSurvives(Join(parts));
  }

  /** Splitting a join of distinct, trimmed, non-empty, delimiter-free parts returns the parts. */
  lemma SplitJoin(parts: seq<string>)
    requires Clean(parts) && Plain(parts)
    ensures SplitText(Join(parts)) == parts
  {
    FieldsOfPlainJoin(parts);
    DedupOfClean(parts);
    if parts != [] { JoinNotBlank(parts); }
  }

  // ---------------------------------------------------------------- appendPersonaText

  predicate AllDelimiterFree(adds: seq<string>) { forall i :: 0 <= i < |adds| ==> DelimiterFree(adds[i]) }

  /** With delimiter-free additions the segments afterwards are the old segments, in order, then the new ones. */
  lemma AppendSegments(base: string, adds: seq<string>)
    requires AllDelimiterFree(adds)
    ensures SplitText(AppendText(base, adds)) == Dedup(SplitText(base) + adds)
    ensures SplitText(base) <= SplitText(AppendText(base, adds))
    ensures forall a :: a in adds && Trim(a) != "" ==> Trim(a) in SplitText(AppendText(base, adds))
  {
    var d := SplitText(base);
    var r := Dedup(d + adds);
    SplitIsPlain(base);
    DedupPlain(d + adds);
    DedupClean(d + adds);
    hide Trim;
    SplitJoin(r);
    DedupExtends(d, adds);
    DedupOfClean(d);
  }

  lemma AppendIdempotent(base: string, adds: seq<string>)
    requires AllDelimiterFree(adds)
    ensures AppendText(AppendText(base, adds), adds) == AppendText(base, adds)
  {
    AppendTwice(base, adds, adds);
    var d := SplitText(base);
    assert d + (adds + adds) == d + adds + adds;
    DedupAgain(d + adds, adds);
  }

  lemma {:induction false} DedupAgain(a: seq<string>, b: seq<string>)
    requires forall v :: v in b ==> v in a
    ensures Dedup(a + b) == Dedup(a)
  {
    hide Trim;
    if b == [] {
      assert a + b == a;
    } else {
      var n := |b| - 1;
      assert (a + b)[..|a + b| - 1] == a + b[..n];
      DedupAgain(a, b[..n]);
      DedupClean(a);
      assert b[n] in b;
    }
  }

  /** Appending a1 and then a2 is appending both at once. */
  lemma AppendTwice(base: string, a1: seq<string>, a2: seq<string>)
    requires AllDelimiterFree(a1) && AllDelimiterFree(a2)
    ensures AppendText(AppendText(base, a1), a2) == AppendText(base, a1 + a2)
  {
    hide *;
    var d := SplitText(base);
    AppendSegments(base, a1);
    DedupAssoc(d + a1, a2);
    assert d + a1 + a2 == d + (a1 + a2);
    AppendDef(AppendText(base, a1), a2);
    AppendDef(base, a1 + a2);
  }

  lemma AppendDef(base: string, adds: seq<string>)
    ensures AppendText(base, adds) == Join(Dedup(SplitText(base) + adds))
  {
  }

  // ---------------------------------------------------------------- the imperative original

  /** dedup, with its set of values already seen. */
  method DedupLoop(values: seq<string>) returns (out: seq<string>)
    ensures out == Dedup(values)
  {
    hide Trim;
    var seen: set<string> := {};
    out := [];
    for k := 0 to |values|
      invariant out == Dedup(values[..k]) && forall v :: v in seen <==> v in out
    {
      assert values[..k + 1][..k] == values[..k];
      var value := Trim(values[k]);
      if value == "" { continue; }
      if value in seen { continue; }
      seen := seen + {value};
      out := out + [value];
    }
    assert values[..|values|] == values;
  }
}
