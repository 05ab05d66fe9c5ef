/** Where the persona cycle puts a fact (agentx/subtasks/persona_decision.go, store/store.go): in the field its category
    names, and nowhere else. */
module PersonaFields {
  import opened Persona
  import opened PersonaText
  import opened Text

  /** The segments of the text that a category names; the elements of the list for personality. */
  ghost predicate Holds(b: Bot, category: string, w: string) {
    || (category == "identity" && w in SplitText(b.identity))
    || (category == "personality" && w != "" && exists v :: v in b.personality && Trim(v) == w)
    || (category == "expression_style" && w in SplitText(b.expressionStyle))
    || (category == "life_context" && w in SplitText(b.lifeContext))
    || (category == "taboos_and_preferences" && w in SplitText(b.taboos))
  }

  /** The letters of one contain the letters of the other. */
  ghost predicate Near(u: Tables, text: string, content: string) {
    var h, w := Normalize(u, text), Normalize(u, content);
    h != "" && w != "" && ((exists i :: At(w, h, i)) || (exists i :: At(h, w, i)))
  }

  /** What the field that a category names already says. */
  ghost predicate Says(u: Tables, b: Bot, category: string, content: string) {
    || (category == "identity" && Near(u, b.identity, content))
    || (category == "personality" && exists v :: v in b.personality && Near(u, v, content))
    || (category == "expression_style" && Near(u, b.expressionStyle, content))
    || (category == "life_context" && Near(u, b.lifeContext, content))
    || (category == "taboos_and_preferences" && Near(u, b.taboos, content))
  }

  const CATEGORIES := ["identity", "personality", "expression_style", "life_context", "taboos_and_preferences"]

  /** A fact that may be stored: stable, of a known category, and about the user only for the preferences. */
  predicate Storable(item: Item) {
    && Trim(item.stability) == "stable" && Trim(item.category) in CATEGORIES
    && (Trim(item.kind) == "user_fact" ==> Trim(item.category) == "taboos_and_preferences")
  }

  // ---------------------------------------------------------------- categories and fields

  function CategoryOf(f: Field): string {
    match f
    case Identity => "identity"
    case Personality => "personality"
    case ExpressionStyle => "expression_style"
    case LifeContext => "life_context"
    case TaboosAndPreferences => "taboos_and_preferences"
  }

  lemma CategoriesDiffer()
    ensures forall f, g :: f != g ==> CategoryOf(f) != CategoryOf(g)
  {
    assert |"identity"| == 8 && |"personality"| == 11 && |"expression_style"| == 16 && |"life_context"| == 12;
    assert |"taboos_and_preferences"| == 22;
  }

  lemma FieldIs(item: Item)
    ensures FieldOf(item).Some? <==> Trim(item.category) in CATEGORIES
    ensures FieldOf(item).Some? ==> CategoryOf(FieldOf(item).value) == Trim(item.category)
  {
    hide Trim;
  }

  lemma StorableIs(item: Item)
    ensures Storable(item) <==> Eligible(item)
    ensures Eligible(item) ==> FieldOf(item).Some? && CategoryOf(FieldOf(item).value) == Trim(item.category)
  {
    FieldIs(item);
    CategoriesDiffer();
    hide Trim, FieldOf;
  }

  lemma HoldsIs(b: Bot, f: Field, w: string)
    ensures Holds(b, CategoryOf(f), w) <==>
              if f == Personality then w != "" && exists v :: v in b.personality && Trim(v) == w
              else w in SplitText(TextOf(b, f))
  {
    CategoriesDiffer();
    hide Trim, SplitText;
  }

  lemma NearIs(u: Tables, text: string, content: string)
    ensures Near(u, text, content) <==>
              Normalize(u, content) != "" && Related(Normalize(u, text), Normalize(u, content))
  {
    var h, w := Normalize(u, text), Normalize(u, content);
    hide Normalize;
    if Contains(h, w) { var i :| 0 <= i <= |h| && At(w, h, i); }
    if Contains(w, h) { var i :| 0 <= i <= |w| && At(h, w, i); }
    if h == w { assert At(w, h, 0); }
    if i :| At(w, h, i) { assert 0 <= i <= |h|; }
    if i :| At(h, w, i) { assert 0 <= i <= |w|; }
  }

  lemma SaysIs(u: Tables, b: Bot, f: Field, content: string)
    ensures Says(u, b, CategoryOf(f), content) <==> Covers(u, b, f, content)
  {
    CategoriesDiffer();
    hide Near, Related, Normalize;
    var hs := Haystacks(b, f);
    forall v ensures Near(u, v, content) <==>
                       Normalize(u, content) != "" && Related(Normalize(u, v), Normalize(u, content)) {
      NearIs(u, v, content);
    }
    if f == Personality {
      if v :| v in b.personality && Near(u, v, content) {
        var i :| 0 <= i < |hs| && hs[i] == v;
        assert Related(Normalize(u, hs[i]), Normalize(u, content));
      }
    } else {
      assert hs == [TextOf(b, f)];
      if Near(u, TextOf(b, f), content) { assert Related(Normalize(u, hs[0]), Normalize(u, content)); }
    }
  }

  // ---------------------------------------------------------------- one item

  /** An item that may not be stored, or that says nothing new, leaves the record as it is; every other one is
      stored. */
  lemma StepChangesIff(u: Tables, b: Bot, item: Item)
    ensures !Storable(item) || Says(u, b, Trim(item.category), item.content) ==> StepItem(u, b, item) == b
    ensures Storable(item) && !Says(u, b, Trim(item.category), item.content) ==>
              Eligible(item) && FieldOf(item).Some? && CategoryOf(FieldOf(item).value) == Trim(item.category)
              && StepItem(u, b, item) == ApplyPatch(b, FieldOf(item).value, item.content)
  {
    StorableIs(item);
    hide Storable, ApplyPatch, Says, Trim, FieldOf, Covers;
    if Eligible(item) { SaysIs(u, b, FieldOf(item).value, item.content); }
  }

  /** A text that splits into nothing has no letters, and then the legacy text of a synchronised record has none. */
  lemma NoLegacySegments(b: Bot, f: Field)
    requires Sync(b) == b && f != Personality && f != TaboosAndPreferences && SplitText(TextOf(b, f)) == []
    ensures SplitText(LegacyOf(b, f)) == []
  {
    var u, legacy := PlainTables(), LegacyOf(b, f);
    PlainSane();
    SegmentLetters(u, TextOf(b, f));
    LegacyLetters(u, b, f);
    SegmentLetters(u, legacy);
    SplitIsPlain(legacy);
    hide Sync, SplitText, LegacyOf, Letters, Clean, Plain;
    if SplitText(legacy) != [] {
      var w := SplitText(legacy)[0];
      assert w in SplitText(legacy);
      SegmentHasLetters(SplitText(legacy), w);
      EmptyIsNotContaining(u, legacy, w);
    }
  }

  lemma SegmentHasLetters(parts: seq<string>, w: string)
    requires Clean(parts) && Plain(parts) && w in parts
    ensures Letters(PlainTables(), w) != ""
  {
    var i :| 0 <= i < |parts| && parts[i] == w;
    assert DelimiterFree(w) && w != "" && Trim(w) == w;
    TrimmedHead(w);
    NoLettersIff(PlainTables(), w);
  }

  /** A patch to another field splits and joins a text field, and keeps its segments. */
  lemma OtherTextKeeps(b: Bot, target: Field, content: string, f: Field)
    requires Sync(b) == b && f != Personality && f != target
    ensures SplitText(TextOf(ApplyPatch(b, target, content), f)) == SplitText(TextOf(b, f))
  {
    var text := TextOf(b, f);
    PatchedField(b, target, content, f);
    var parts := SplitText(text);
    SplitIsPlain(text);
    DedupOfClean(parts);
    assert parts + [] == parts;
    assert AppendText(text, []) == Join(parts);
    hide ApplyPatch, Sync, SplitText, AppendText;
    if parts == [] {
      EmptySplits();
      if f != TaboosAndPreferences { NoLegacySegments(b, f); }
    } else {
      JoinNotBlank(parts);
      SplitJoin(parts);
    }
  }

  lemma EmptySplits()
    ensures Join([]) == "" && Blank("") && SplitText("") == []
  {
    assert Trim("") == "";
  }

  /** A delimiter-free addition becomes the last segment, unless it is one already. */
  lemma TargetTextGains(b: Bot, f: Field, content: string)
    requires f != Personality && DelimiterFree(content) && Trim(content) != ""
    ensures var s := SplitText(TextOf(ApplyPatch(b, f, content), f));
            s == SplitText(TextOf(b, f)) + if Trim(content) in SplitText(TextOf(b, f)) then [] else [Trim(content)]
  {
    var text, c := TextOf(b, f), Trim(content);
    TrimDelimiterFree(content);
    TrimTwice(content);
    AppendOne(text, c);
    DedupGains(text, c);
    hide *;
    TargetText(b, f, content);
  }

  lemma AppendOne(text: string, c: string)
    requires DelimiterFree(c)
    ensures SplitText(AppendText(text, [c])) == Dedup(SplitText(text) + [c])
  {
    hide DelimiterFree, SplitText, AppendText, Dedup;
    AppendSegments(text, [c]);
  }

  lemma TargetText(b: Bot, f: Field, content: string)
    requires f != Personality && SplitText(AppendText(TextOf(b, f), [Trim(content)])) != []
    ensures TextOf(ApplyPatch(b, f, content), f) == AppendText(TextOf(b, f), [Trim(content)])
  {
    PatchedField(b, f, content, f);
    hide ApplyPatch, SplitText, AppendText, Trim;
    NotBlankIfSplits(AppendText(TextOf(b, f), [Trim(content)]));
  }

  lemma DedupGains(text: string, c: string)
    requires Trim(c) == c && c != ""
    ensures Dedup(SplitText(text) + [c]) == SplitText(text) + if c in SplitText(text) then [] else [c]
    ensures Dedup(SplitText(text) + [c]) != []
  {
    var parts := SplitText(text);
    SplitIsPlain(text);
    DedupOfClean(parts);
    hide SplitText, Trim;
    assert (parts + [c])[..|parts|] == parts;
  }

  lemma NotBlankIfSplits(text: string)
    requires SplitText(text) != []
    ensures !Blank(text)
  {
  }

  /** The list keeps its elements, trimmed, and gains a new one only if it is the target. */
  lemma ListGains(b: Bot, target: Field, content: string, w: string)
    requires Sync(b) == b
    ensures var b' := ApplyPatch(b, target, content);
            Holds(b', "personality", w) <==>
              Holds(b, "personality", w) || (target == Personality && w == Trim(content) && w != "")
  {
    var adds := AddsFor(Personality, target, content);
    var values := b.personality + adds;
    PatchedPersonality(b, target, content);
    DedupClean(values);
    TrimTwice(content);
    var b', d := ApplyPatch(b, target, content), Dedup(values);
    SyncedTraits(b);
    HoldsIs(b, Personality, w);
    HoldsIs(b', Personality, w);
    hide ApplyPatch, Sync, Trim, Dedup, Holds;
    if d == [] {
      forall v | v in values ensures Trim(v) == "" { }
      forall v | v in b.personality ensures Trim(v) == "" { assert v in values; }
      assert adds != [] ==> adds[0] in values;
    } else {
      forall v | v in d ensures Trim(v) == v {
        var i :| 0 <= i < |d| && d[i] == v;
      }
      if v :| v in b.personality && Trim(v) == w && w != "" { assert v in values; assert w in d; }
      if target == Personality && w == Trim(content) && w != "" {
        assert values[|b.personality|] == Trim(content);
        assert Trim(Trim(content)) in d;
      }
      if w in d && w != "" {
        var v :| v in values && Trim(v) == w;
        if v !in b.personality { assert v in adds; }
      }
    }
  }

  lemma SyncedTraits(b: Bot)
    requires Sync(b) == b
    ensures b.traits == b.personality
  {
    hide Trim;
  }

  /** What one stored item does to what the fields hold: its trimmed content joins the field of its category, and
      nothing else changes. */
  lemma StepHolds(u: Tables, b: Bot, item: Item, category: string, w: string)
    requires Sync(b) == b && category in CATEGORIES
    requires Storable(item) ==> DelimiterFree(item.content)
    ensures var b' := StepItem(u, b, item);
            && Sync(b') == b'
            && (Holds(b', category, w) <==>
                  || Holds(b, category, w)
                  || (&& Storable(item) && !Says(u, b, Trim(item.category), item.content)
                      && category == Trim(item.category) && w == Trim(item.content) && w != ""))
  {
    StepChangesIff(u, b, item);
    hide StepItem, Storable, Says, ApplyPatch, Sync, Holds, Trim, FieldOf, CATEGORIES;
    if Storable(item) && !Says(u, b, Trim(item.category), item.content) {
      var f := FieldOf(item).value;
      AppliedStaysSynced(b, f, item.content);
      var g := FieldNamed(category);
      PatchHolds(b, f, item.content, g, w);
      CategoriesDiffer();
    }
  }

  lemma FieldNamed(category: string) returns (g: Field)
    requires category in CATEGORIES
    ensures CategoryOf(g) == category
  {
    g := if category == "identity" then Identity else if category == "personality" then Personality
        else if category == "expression_style" then ExpressionStyle
        else if category == "life_context" then LifeContext else TaboosAndPreferences;
  }

  lemma PatchHolds(b: Bot, f: Field, content: string, g: Field, w: string)
    requires Sync(b) == b && DelimiterFree(content)
    ensures Holds(ApplyPatch(b, f, content), CategoryOf(g), w) <==>
              Holds(b, CategoryOf(g), w) || (f == g && w == Trim(content) && w != "")
  {
    var b' := ApplyPatch(b, f, content);
    HoldsIs(b, g, w);
    HoldsIs(b', g, w);
    hide ApplyPatch, Sync, Trim, SplitText, Holds;
    if g == Personality {
      ListGains(b, f, content, w);
    } else if f != g {
      OtherTextKeeps(b, f, content, g);
    } else if Trim(content) == "" {
      BlankKeeps(b, f, content);
      SegmentsAreNotEmpty(TextOf(b, g));
    } else {
      TargetTextGains(b, f, content);
      SegmentsAreNotEmpty(TextOf(b, g));
    }
  }

  lemma SegmentsAreNotEmpty(text: string)
    ensures "" !in SplitText(text)
  {
    SplitIsPlain(text);
  }

  /** A blank addition is no segment. */
  lemma BlankKeeps(b: Bot, f: Field, content: string)
    requires Sync(b) == b && f != Personality && Trim(content) == ""
    ensures SplitText(TextOf(ApplyPatch(b, f, content), f)) == SplitText(TextOf(b, f))
  {
    var text := TextOf(b, f);
    PatchedField(b, f, content, f);
    var parts := SplitText(text);
    SplitIsPlain(text);
    DedupOfClean(parts);
    assert (parts + [""])[..|parts|] == parts && Trim("") == "";
    assert Dedup(parts + [""]) == parts;
    assert AppendText(text, [Trim(content)]) == Join(parts);
    hide ApplyPatch, Sync, SplitText, AppendText, Dedup;
    if parts == [] {
      EmptySplits();
      if f != TaboosAndPreferences { NoLegacySegments(b, f); }
    } else {
      JoinNotBlank(parts);
      SplitJoin(parts);
    }
  }

  // ---------------------------------------------------------------- runs

  predicate StorablePlain(items: seq<Item>) {
    forall i :: 0 <= i < |items| && Storable(items[i]) ==> DelimiterFree(items[i].content)
  }

  /** Item i is stored by the run: it may be, and its field does not say it when its turn comes. */
  ghost predicate Stored(u: Tables, b: Bot, items: seq<Item>, i: nat)
    requires i < |items|
  {
    && Storable(items[i])
    && !Says(u, RunItems(u, b, items[..i]).bot, Trim(items[i].category), items[i].content)
  }

  /** After every run of delimiter-free facts a field holds exactly what it held before and the trimmed contents of the
      items of its own category that were stored. */
  lemma {:induction false} RunHolds(u: Tables, b: Bot, items: seq<Item>, category: string, w: string)
    requires Sync(b) == b && category in CATEGORIES && StorablePlain(items)
    ensures var final := RunItems(u, b, items).bot;
            && Sync(final) == final
            && (Holds(final, category, w) <==>
                  || Holds(b, category, w)
                  || exists i :: 0 <= i < |items| && Stored(u, b, items, i)
                       && category == Trim(items[i].category) && w == Trim(items[i].content) && w != "")
  {
    hide StepItem, Storable, Says, Sync, Holds, Trim, Applies;
    if items != [] {
      var n := |items| - 1;
      assert StorablePlain(items[..n]) by { hide DelimiterFree; }
      RunHolds(u, b, items[..n], category, w);
      StepHolds(u, RunItems(u, b, items[..n]).bot, items[n], category, w);
      forall i | 0 <= i < n ensures Stored(u, b, items[..n], i) <==> Stored(u, b, items, i) {
        assert items[..n][..i] == items[..i];
      }
      if i :| 0 <= i < n && Stored(u, b, items[..n], i) && category == Trim(items[i].category)
              && w == Trim(items[i].content) && w != "" {
        assert Stored(u, b, items, i);
      }
    }
  }

  lemma StepCounts(u: Tables, b: Bot, item: Item)
    ensures Applies(u, b, item) <==> Storable(item) && !Says(u, b, Trim(item.category), item.content)
    ensures var b' := StepItem(u, b, item);
            && b'.prompt == b.prompt
            && (b.version >= 0 ==> b'.version == b.version + if Applies(u, b, item) then 1 else 0)
  {
    StepChangesIff(u, b, item);
    assert Trim("") == "";
    hide Storable, Says, Trim, Normalize, Covers, AppendText, Dedup, FieldOf, Patched;
    if Applies(u, b, item) { PatchedIs(b, PatchOf(FieldOf(item).value, item.content)); }
  }

  /** The places of the items that are stored. */
  ghost function StoredAt(u: Tables, b: Bot, items: seq<Item>): set<int> {
    set i | 0 <= i < |items| && Stored(u, b, items, i)
  }

  lemma StoredLast(u: Tables, b: Bot, items: seq<Item>)
    requires items != []
    ensures var n := |items| - 1;
            |StoredAt(u, b, items)| == |StoredAt(u, b, items[..n])| + if Stored(u, b, items, n) then 1 else 0
  {
    hide Storable, Says, RunItems, Trim;
    var n := |items| - 1;
    forall i | 0 <= i < n ensures Stored(u, b, items[..n], i) <==> Stored(u, b, items, i) {
      assert items[..n][..i] == items[..i];
    }
    hide Stored;
    assert StoredAt(u, b, items) == StoredAt(u, b, items[..n]) + if Stored(u, b, items, n) then {n} else {};
    assert n !in StoredAt(u, b, items[..n]);
    hide StoredAt;
  }

  /** A run counts the items it stores, raises the version by as many, and leaves the prompt. */
  lemma {:induction false} RunCounts(u: Tables, b: Bot, items: seq<Item>)
    ensures var r := RunItems(u, b, items);
            && r.applied == |StoredAt(u, b, items)|
            && r.bot.prompt == b.prompt && (b.version >= 0 ==> r.bot.version == b.version + r.applied)
  {
    hide StepItem, Storable, Says, Trim, Applies;
    if items != [] {
      var n := |items| - 1;
      RunCounts(u, b, items[..n]);
      StepCounts(u, RunItems(u, b, items[..n]).bot, items[n]);
      StoredLast(u, b, items);
      hide StoredAt;
    }
  }

  /** A storable, delimiter-free fact that its field does not say when its turn comes is a segment of that field at the
      end of the run, whatever else the run stores. */
  lemma FactEndsUp(u: Tables, b: Bot, items: seq<Item>, i: nat)
    requires Sync(b) == b && StorablePlain(items) && i < |items| && Stored(u, b, items, i)
    requires Trim(items[i].content) != ""
    ensures var final, w := RunItems(u, b, items).bot, Trim(items[i].content);
            && (Trim(items[i].category) == "identity" ==> w in SplitText(final.identity))
            && (Trim(items[i].category) == "personality" ==> exists v :: v in final.personality && Trim(v) == w)
            && (Trim(items[i].category) == "expression_style" ==> w in SplitText(final.expressionStyle))
            && (Trim(items[i].category) == "life_context" ==> w in SplitText(final.lifeContext))
            && (Trim(items[i].category) == "taboos_and_preferences" ==> w in SplitText(final.taboos))
  {
    RunHolds(u, b, items, Trim(items[i].category), Trim(items[i].content));
    assert Storable(items[i]);
    hide RunItems, Trim, SplitText, Sync, StorablePlain, Stored, Says, Storable;
    CategoriesDiffer();
    assert CategoryOf(Identity) == "identity" && CategoryOf(LifeContext) == "life_context";
  }
}
