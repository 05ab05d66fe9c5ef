/** Persona accretion: deciding on extracted facts (agentx/subtasks/persona_decision.go), applying them one by one
    (agentx/subtasks/runner.go) and storing the result (store/store.go).

    A field is written by joining segments, read back by splitting, and compared after normalisation. Re-running
    the same facts ought to change nothing; `ReplayIsNoOp` says exactly when it does not. */
module Persona {
  import opened Text
  import opened PersonaText

  /** Go's rune tables: unicode.ToLower, whether a rune is a space, punctuation or a symbol, and one representative of
      each orbit of unicode.SimpleFold. */
  datatype Tables = Tables(lower: char -> char, dropped: char -> bool, fold: char -> char)

  /** Spaces and the four delimiters are dropped by the comparison. */
  ghost predicate Sane(u: Tables) {
    && (forall c :: IsSpace(c) ==> u.dropped(u.lower(c)))
    && (forall c :: IsDelimiter(c) ==> u.dropped(u.lower(c)))
  }

  // ---------------------------------------------------------------- normalizePersonaComparison

  /** Rune-wise lowercase without spaces, punctuation and symbols. */
  function Letters(u: Tables, s: string): string {
    if s == "" then ""
    else Letters(u, s[..|s| - 1]) + if u.dropped(u.lower(s[|s| - 1])) then "" else [u.lower(s[|s| - 1])]
  }

  function Normalize(u: Tables, s: string): string { Letters(u, Trim(s)) }

  /** strings.Contains. */
  predicate Contains(s: string, p: string) { exists i :: 0 <= i <= |s| && At(p, s, i) }

  lemma {:induction false} LettersConcat(u: Tables, a: string, b: string)
    ensures Letters(u, a + b) == Letters(u, a) + Letters(u, b)
  {
    if b == "" {
      assert a + b == a;
    } else {
      var n := |b| - 1;
      assert (a + b)[..|a + b| - 1] == a + b[..n];
      LettersConcat(u, a, b[..n]);
    }
  }

  /** Rune by rune: nothing for a dropped one, else the lowered rune. */
  lemma {:induction false} LettersAre(u: Tables, s: string)
    ensures Letters(u, s) == Concat(seq(|s|, i requires 0 <= i < |s| =>
              if u.dropped(u.lower(s[i])) then "" else [u.lower(s[i])]))
  {
    var parts := seq(|s|, i requires 0 <= i < |s| => if u.dropped(u.lower(s[i])) then "" else [u.lower(s[i])]);
    if s != "" {
      var n := |s| - 1;
      LettersAre(u, s[..n]);
      var before := seq(n, i requires 0 <= i < n => if u.dropped(u.lower(s[..n][i])) then "" else [u.lower(s[..n][i])]);
      assert parts == before + [parts[n]];
      ConcatSnoc(before, parts[n]);
    }
  }

  lemma LettersOfSpace(u: Tables, c: char)
    requires Sane(u) && (IsSpace(c) || IsDelimiter(c))
    ensures Letters(u, [c]) == ""
  {
    assert [c][..0] == "";
  }

  lemma {:induction false} LettersTrimLeft(u: Tables, s: string)
    requires Sane(u)
    ensures Letters(u, TrimLeft(s)) == Letters(u, s)
  {
    if s != "" && IsSpace(s[0]) {
      LettersTrimLeft(u, s[1..]);
      assert s == [s[0]] + s[1..];
      LettersConcat(u, [s[0]], s[1..]);
      LettersOfSpace(u, s[0]);
    }
  }

  lemma {:induction false} LettersTrimRight(u: Tables, s: string)
    requires Sane(u)
    ensures Letters(u, TrimRight(s)) == Letters(u, s)
  {
    if s != "" && IsSpace(s[|s| - 1]) { LettersTrimRight(u, s[..|s| - 1]); }
  }

  /** Trimming does not matter to the comparison. */
  lemma NormalizeIsLetters(u: Tables, s: string)
    requires Sane(u)
    ensures Normalize(u, s) == Letters(u, s)
  {
    LettersTrimLeft(u, s);
    LettersTrimRight(u, TrimLeft(s));
  }

  lemma ContainsSelf(s: string)
    ensures Contains(s, s)
  {
    assert At(s, s, 0);
  }

  lemma ContainsConcat(a: string, b: string, p: string)
    requires Contains(a, p) || Contains(b, p)
    ensures Contains(a + b, p)
  {
    var s := a + b;
    if Contains(a, p) {
      var i :| 0 <= i <= |a| && At(p, a, i);
      assert s[i..i + |p|] == a[i..i + |p|];
      assert At(p, s, i);
    } else {
      var i :| 0 <= i <= |b| && At(p, b, i);
      assert s[|a| + i..|a| + i + |p|] == b[i..i + |p|];
      assert At(p, s, |a| + i);
    }
  }

  lemma ContainsPrefix(s: string, t: string, p: string)
    requires s <= t && Contains(s, p)
    ensures Contains(t, p)
  {
    assert t == s + t[|s|..];
    ContainsConcat(s, t[|s|..], p);
  }

  /** The letters of a join are the letters of its parts; what is appended comes after. */
  lemma LettersOfPair(u: Tables, p: string, rest: string)
    requires Sane(u)
    ensures Letters(u, p + SEPARATOR + rest) == Letters(u, p) + Letters(u, rest)
  {
    LettersOfSpace(u, '；');
    LettersConcat(u, p + SEPARATOR, rest);
    LettersConcat(u, p, SEPARATOR);
    assert Letters(u, p) + "" == Letters(u, p);
  }

  lemma LettersOfHead(u: Tables, parts: seq<string>)
    requires Sane(u) && parts != []
    ensures Letters(u, Join(parts)) == Letters(u, parts[0]) + Letters(u, Join(parts[1..]))
  {
    hide Letters, Sane;
    if |parts| == 1 {
      NoLetters(u);
      assert Letters(u, parts[0]) + "" == Letters(u, parts[0]);
    } else {
      LettersOfPair(u, parts[0], Join(parts[1..]));
    }
  }

  lemma ConcatAssoc(a: string, b: string, c: string)
    ensures a + (b + c) == a + b + c
  {
  }

  /** The letters of a join are the letters of its parts; what is appended comes after. */
  lemma {:induction false} LettersOfJoin(u: Tables, parts: seq<string>, last: string)
    requires Sane(u)
    ensures Letters(u, Join(parts + [last])) == Letters(u, Join(parts)) + Letters(u, last)
  {
    hide *;
    if parts == [] {
      assert parts + [last] == [last];
      JoinOne(last);
      NoLetters(u);
      assert "" + Letters(u, last) == Letters(u, last);
    } else {
      var all := parts + [last];
      assert all[1..] == parts[1..] + [last];
      LettersOfJoin(u, parts[1..], last);
      LettersOfHead(u, parts);
      LettersOfHead(u, all);
      ConcatAssoc(Letters(u, parts[0]), Letters(u, Join(parts[1..])), Letters(u, last));
    }
  }

  lemma {:induction false} LettersOfJoinPrefix(u: Tables, a: seq<string>, b: seq<string>)
    requires Sane(u) && a <= b
    ensures Letters(u, Join(a)) <= Letters(u, Join(b))
    decreases |b|
  {
    if |a| < |b| {
      var n := |b| - 1;
      LettersOfJoinPrefix(u, a, b[..n]);
      assert b == b[..n] + [b[n]];
      LettersOfJoin(u, b[..n], b[n]);
    } else {
      assert a == b;
    }
  }

  lemma {:induction false} PartIsContained(u: Tables, parts: seq<string>, p: string)
    requires Sane(u) && p in parts
    ensures Contains(Letters(u, Join(parts)), Letters(u, p))
  {
    var n := |parts| - 1;
    assert parts == parts[..n] + [parts[n]];
    LettersOfJoin(u, parts[..n], parts[n]);
    var x, y, w := Letters(u, Join(parts[..n])), Letters(u, parts[n]), Letters(u, p);
    assert Letters(u, Join(parts)) == x + y;
    if p == parts[n] { ContainsSelf(w); } else { PartIsContained(u, parts[..n], p); }
    ContainsConcat(x, y, w);
  }

  // ---------------------------------------------------------------- the bot and its fields

  datatype Field = Identity | Personality | ExpressionStyle | LifeContext | TaboosAndPreferences

  datatype Bot = Bot(identity: string, personality: seq<string>, expressionStyle: string, lifeContext: string,
                     taboos: string,
                     summary: string, relationship: string, speakingStyle: string, background: string, role: string,
                     traits: seq<string>, prompt: string, version: int)

  function FirstNonEmpty(a: string, b: string): string {
    if Trim(a) != "" then Trim(a) else Trim(b)
  }

  function DerivedIdentity(b: Bot): string {
    if Blank(b.identity) then FirstNonEmpty(b.summary, b.relationship) else b.identity
  }

  function DerivedStyle(b: Bot): string {
    if Blank(b.expressionStyle) then Trim(b.speakingStyle) else b.expressionStyle
  }

  function DerivedLife(b: Bot): string {
    if Blank(b.lifeContext) then FirstNonEmpty(b.background, b.role) else b.lifeContext
  }

  function DerivedPersonality(b: Bot): seq<string> { if b.personality == [] then b.traits else b.personality }

  /** DerivePersonaV2FromLegacy. */
  function Derive(b: Bot): Bot {
    b.(identity := DerivedIdentity(b), personality := DerivedPersonality(b),
       expressionStyle := DerivedStyle(b), lifeContext := DerivedLife(b))
  }

  function Mirror(v: string, legacy: string): string { if Blank(v) then legacy else Trim(v) }

  /** SyncLegacyPersonaFields. */
  function Sync(b: Bot): Bot {
    var d := Derive(b);
    d.(summary := Mirror(d.identity, d.summary), relationship := Mirror(d.identity, d.relationship),
       speakingStyle := Mirror(d.expressionStyle, d.speakingStyle),
       background := Mirror(d.lifeContext, d.background), role := Mirror(d.lifeContext, d.role),
       traits := if d.personality != [] then d.personality else d.traits)
  }

  lemma MirrorSettles(v: string, a: string, b: string)
    ensures var d := if Blank(v) then FirstNonEmpty(a, b) else v;
            var a', b' := Mirror(d, a), Mirror(d, b);
            (if Blank(d) then FirstNonEmpty(a', b') else d) == d && Mirror(d, a') == a' && Mirror(d, b') == b'
  {
    TrimTwice(v);
    TrimTwice(a);
    TrimTwice(b);
    hide Trim;
  }

  /** The record the store holds is always synchronised: every writer ends with Sync, and Sync settles in one step. */
  lemma SyncIdempotent(b: Bot)
    ensures Sync(Sync(b)) == Sync(b)
  {
    MirrorSettles(b.identity, b.summary, b.relationship);
    MirrorSettles(b.expressionStyle, b.speakingStyle, b.speakingStyle);
    MirrorSettles(b.lifeContext, b.background, b.role);
    hide Blank, Mirror;
  }

  /** Which field mirrors which: a blank field is filled from its older forms, and these then repeat the field. */
  lemma SyncIs(b: Bot)
    ensures var s := Sync(b);
            && s.identity == (if Trim(b.identity) != "" then b.identity
                              else if Trim(b.summary) != "" then Trim(b.summary) else Trim(b.relationship))
            && s.expressionStyle == (if Trim(b.expressionStyle) != "" then b.expressionStyle else Trim(b.speakingStyle))
            && s.lifeContext == (if Trim(b.lifeContext) != "" then b.lifeContext
                                 else if Trim(b.background) != "" then Trim(b.background) else Trim(b.role))
            && s.personality == (if b.personality != [] then b.personality else b.traits)
            && s.summary == (if Trim(s.identity) != "" then Trim(s.identity) else b.summary)
            && s.relationship == (if Trim(s.identity) != "" then Trim(s.identity) else b.relationship)
            && s.speakingStyle == (if Trim(s.expressionStyle) != "" then Trim(s.expressionStyle) else b.speakingStyle)
            && s.background == (if Trim(s.lifeContext) != "" then Trim(s.lifeContext) else b.background)
            && s.role == (if Trim(s.lifeContext) != "" then Trim(s.lifeContext) else b.role)
            && s.traits == (if s.personality != [] then s.personality else b.traits)
            && s.taboos == b.taboos && s.prompt == b.prompt && s.version == b.version
  {
    hide Trim;
  }

  // ---------------------------------------------------------------- deciding and applying one item

  datatype Item = Item(kind: string, content: string, category: string, stability: string)

  /** mapSemanticCategoryToPersonaField. */
  function FieldOf(item: Item): Option<Field> {
    var c := Trim(item.category);
    if c == "identity" then Some(Identity)
    else if c == "personality" then Some(Personality)
    else if c == "expression_style" then Some(ExpressionStyle)
    else if c == "life_context" then Some(LifeContext)
    else if c == "taboos_and_preferences" then Some(TaboosAndPreferences)
    else None
  }

  /** The checks of decidePersonaChange before coverage: a stable fact about a mapped field, and a fact about the user
      only for the preferences. */
  predicate Eligible(item: Item) {
    && FieldOf(item).Some? && Trim(item.stability) == "stable"
    && (Trim(item.kind) == "user_fact" ==> FieldOf(item).value == TaboosAndPreferences)
  }

  /** The texts a field is compared with. */
  function Haystacks(b: Bot, f: Field): seq<string> {
    match f
    case Identity => [b.identity]
    case Personality => b.personality
    case ExpressionStyle => [b.expressionStyle]
    case LifeContext => [b.lifeContext]
    case TaboosAndPreferences => [b.taboos]
  }

  predicate Related(haystack: string, needle: string) {
    haystack != "" && (haystack == needle || Contains(haystack, needle) || Contains(needle, haystack))
  }

  /** personaFieldAlreadyCovers. */
  predicate Covers(u: Tables, b: Bot, f: Field, content: string) {
    var needle := Normalize(u, content);
    needle != "" && exists i :: 0 <= i < |Haystacks(b, f)| && Related(Normalize(u, Haystacks(b, f)[i]), needle)
  }

  /** PersonaPatchInput. */
  datatype Patch = Patch(identity: seq<string>, personality: seq<string>, expressionStyle: seq<string>,
                         lifeContext: seq<string>, taboos: seq<string>, prompt: string)

  /** ApplyBotPersonaPatch: every field is rewritten, whether or not it gains a segment. */
  function Patched(b: Bot, p: Patch): Bot {
    var b := b.(
      identity := AppendText(b.identity, p.identity),
      personality := Dedup(b.personality + p.personality),
      expressionStyle := AppendText(b.expressionStyle, p.expressionStyle),
      lifeContext := AppendText(b.lifeContext, p.lifeContext),
      taboos := AppendText(b.taboos, p.taboos),
      prompt := if Blank(p.prompt) then b.prompt else Trim(p.prompt));
    var b := Sync(b);
    b.(version := if b.version + 1 <= 0 then 1 else b.version + 1)
  }

  /** A patch appends to each of its fields, replaces the prompt if it has one, synchronises and counts the version. */
  lemma PatchedIs(b: Bot, p: Patch)
    ensures Patched(b, p).(version := b.version) ==
              Sync(b.(identity := AppendText(b.identity, p.identity),
                      personality := Dedup(b.personality + p.personality),
                      expressionStyle := AppendText(b.expressionStyle, p.expressionStyle),
                      lifeContext := AppendText(b.lifeContext, p.lifeContext), taboos := AppendText(b.taboos, p.taboos),
                      prompt := if Trim(p.prompt) == "" then b.prompt else Trim(p.prompt)))
    ensures b.version >= 0 ==> Patched(b, p).version == b.version + 1
    ensures b.version < 0 ==> Patched(b, p).version == 1
  {
    hide AppendText, Dedup, Trim;
  }

  function AddsFor(f: Field, target: Field, content: string): seq<string> {
    if f == target then [Trim(content)] else []
  }

  /** patchFromMemoryItem. */
  function PatchOf(f: Field, content: string): Patch {
    Patch(AddsFor(Identity, f, content), AddsFor(Personality, f, content), AddsFor(ExpressionStyle, f, content),
          AddsFor(LifeContext, f, content), AddsFor(TaboosAndPreferences, f, content), "")
  }

  function ApplyPatch(b: Bot, f: Field, content: string): Bot { Patched(b, PatchOf(f, content)) }

  predicate Applies(u: Tables, b: Bot, item: Item) {
    Eligible(item) && !Covers(u, b, FieldOf(item).value, item.content)
  }

  function StepItem(u: Tables, b: Bot, item: Item): Bot {
    if Applies(u, b, item) then ApplyPatch(b, FieldOf(item).value, item.content) else b
  }

  datatype Outcome = Outcome(bot: Bot, applied: nat)

  /** applyPersonaDecisions on a synchronised bot. */
  function RunItems(u: Tables, b: Bot, items: seq<Item>): Outcome {
    if items == [] then Outcome(b, 0)
    else
      var r := RunItems(u, b, items[..|items| - 1]);
      var item := items[|items| - 1];
      Outcome(StepItem(u, r.bot, item), r.applied + if Applies(u, r.bot, item) then 1 else 0)
  }

  // ---------------------------------------------------------------- the imperative originals

  /** normalizePersonaComparison: keeps the lowered runes that are not dropped. */
  method NormalizeLoop(u: Tables, value: string) returns (b: string)
    ensures b == Normalize(u, value)
  {
    hide Trim;
    b := "";
    var s := Trim(value);
    for k := 0 to |s|
      invariant b == Letters(u, s[..k])
    {
      assert s[..k + 1][..k] == s[..k];
      var r := u.lower(s[k]);
      if u.dropped(r) { continue; }
      b := b + [r];
    }
    assert s[..|s|] == s;
  }

  /** personaFieldAlreadyCovers: looks for one related haystack. */
  method CoversLoop(u: Tables, bot: Bot, f: Field, content: string) returns (covered: bool)
    ensures covered == Covers(u, bot, f, content)
  {
    hide Normalize, Contains;
    var needle := NormalizeLoop(u, content);
    if needle == "" { return false; }
    var haystacks := Haystacks(bot, f);
    for k := 0 to |haystacks|
      invariant forall i :: 0 <= i < k ==> !Related(Normalize(u, haystacks[i]), needle)
    {
      var normalized := NormalizeLoop(u, haystacks[k]);
      if normalized == "" { continue; }
      if normalized == needle || Contains(normalized, needle) || Contains(needle, normalized) { return true; }
    }
    return false;
  }

  /** The stored record of one bot. */
  class BotRecord {
    var bot: Bot

    constructor (bot: Bot)
      ensures this.bot == Sync(bot) && Sync(this.bot) == this.bot
    {
      this.bot := Sync(bot);
      SyncIdempotent(bot);
    }

    /** ApplyBotPersonaPatch, field by field. */
    method ApplyBotPersonaPatch(patch: Patch)
      modifies this
      ensures bot == Patched(old(bot), patch)
    {
      hide Sync, AppendText, Dedup, Trim;
      bot := bot.(identity := AppendText(bot.identity, patch.identity));
      var personality := DedupLoop(bot.personality + patch.personality);
      bot := bot.(personality := personality);
      bot := bot.(expressionStyle := AppendText(bot.expressionStyle, patch.expressionStyle));
      bot := bot.(lifeContext := AppendText(bot.lifeContext, patch.lifeContext));
      bot := bot.(taboos := AppendText(bot.taboos, patch.taboos));
      if !Blank(patch.prompt) { bot := bot.(prompt := Trim(patch.prompt)); }
      bot := Sync(bot);
      bot := bot.(version := bot.version + 1);
      if bot.version <= 0 { bot := bot.(version := 1); }
    }

    /** applyPersonaDecisions: decides each item against the record as the previous patches left it. */
    method ApplyPersonaDecisions(u: Tables, items: seq<Item>) returns (applied: nat)
      modifies this
      ensures RunItems(u, old(bot), items) == Outcome(bot, applied)
    {
      hide Patched, PatchOf, Covers, Eligible;
      applied := 0;
      for k := 0 to |items|
        invariant RunItems(u, old(bot), items[..k]) == Outcome(bot, applied)
      {
        assert items[..k + 1][..k] == items[..k];
        if !Eligible(items[k]) { continue; }
        EligibleHasField(items[k]);
        var f := FieldOf(items[k]).value;
        var covered := CoversLoop(u, bot, f, items[k].content);
        if covered { continue; }
        ApplyBotPersonaPatch(PatchOf(f, items[k].content));
        applied := applied + 1;
      }
      assert items[..|items|] == items;
    }
  }

  lemma EligibleHasField(item: Item)
    requires Eligible(item)
    ensures FieldOf(item).Some?
  {
  }

  // ---------------------------------------------------------------- what survives later patches

  /** The text a patch to any field turns this text into, before additions. */
  function Canon(text: string): string { Join(SplitText(text)) }

  /** The letters of w are in the canonical form of field f (in some element, for the personality list). */
  ghost predicate Anchored(u: Tables, b: Bot, f: Field, w: string) {
    match f
    case Personality => exists i :: 0 <= i < |b.personality| && Related(Normalize(u, b.personality[i]), w)
    case _ => Contains(Letters(u, Canon(Haystacks(b, f)[0])), w)
  }

  lemma NoLetters(u: Tables)
    ensures Letters(u, Join([])) == ""
  {
  }

  /** A patched text keeps, in front, the segments it had. */
  lemma PatchedText(u: Tables, text: string, adds: seq<string>, legacy: string)
    requires Sane(u) && |adds| <= 1
    ensures var t := AppendText(text, adds);
            var t' := if Blank(t) then legacy else t;
            Letters(u, Canon(text)) <= Letters(u, t') && Letters(u, Canon(text)) <= Letters(u, Canon(t'))
  {
    var d := SplitText(text);
    var parts := Dedup(d + adds);
    SplitIsPlain(text);
    DedupClean(d + adds);
    DedupExtends(d, adds);
    DedupOfClean(d);
    hide Dedup, Join, Letters, SplitText, Trim, Clean, Plain;
    if parts == [] {
      NoLetters(u);
    } else {
      JoinNotBlank(parts);
      LettersOfJoinPrefix(u, d, parts);
      SegmentsKept(d, adds);
      LettersOfJoinPrefix(u, d, SplitText(Join(parts)));
    }
  }

  /** After one addition of any shape, splitting again finds the earlier segments in front. */
  lemma SegmentsKept(d: seq<string>, adds: seq<string>)
    requires Clean(d) && Plain(d) && |adds| <= 1
    ensures d <= SplitText(Join(Dedup(d + adds)))
  {
    DedupOfClean(d);
    if adds == [] || Trim(adds[0]) == "" || Trim(adds[0]) in d {
      assert Dedup(d + adds) == d by {
        if adds == [] { assert d + adds == d; } else { assert (d + adds)[..|d|] == d; }
      }
      SplitJoin(d);
    } else {
      var c := Trim(adds[0]);
      assert (d + adds)[..|d|] == d;
      DedupClean(d + adds);
      FieldsOfJoin(d, c);
      JoinNotBlank(d + [c]);
      DedupExtends(d, Fields(c));
    }
  }

  // What a patch makes of each field: the appended text, or the legacy text when nothing is left of it.

  function LegacyOf(b: Bot, f: Field): string {
    match f
    case Identity => FirstNonEmpty(b.summary, b.relationship)
    case ExpressionStyle => Trim(b.speakingStyle)
    case LifeContext => FirstNonEmpty(b.background, b.role)
    case _ => ""
  }

  lemma PatchedField(b: Bot, target: Field, content: string, f: Field)
    requires f != Personality
    ensures var t := AppendText(Haystacks(b, f)[0], AddsFor(f, target, content));
            Haystacks(ApplyPatch(b, target, content), f)[0] == if Blank(t) && f != TaboosAndPreferences
                then LegacyOf(b, f) else t
  {
    hide AppendText, Dedup, Trim, Blank;
  }

  lemma PatchedPersonality(b: Bot, target: Field, content: string)
    ensures var d := Dedup(b.personality + AddsFor(Personality, target, content));
            ApplyPatch(b, target, content).personality == if d == [] then b.traits else d
  {
    hide AppendText, Dedup, Trim, Blank;
  }

  /** A patch to any field leaves an anchored comparison anchored, and covered. */
  lemma AnchorSurvivesPatch(u: Tables, b: Bot, target: Field, content: string, f: Field, w: string)
    requires Sane(u) && w != "" && Anchored(u, b, f, w)
    ensures Anchored(u, ApplyPatch(b, target, content), f, w)
    ensures CoversLetters(u, ApplyPatch(b, target, content), f, w)
  {
    hide AppendText, Dedup, Trim, Blank, ApplyPatch, Letters, Contains, Canon;
    var b' := ApplyPatch(b, target, content);
    if f == Personality {
      AnchorSurvivesInList(u, b, target, content, w);
      var i :| 0 <= i < |b'.personality| && Related(Normalize(u, b'.personality[i]), w);
      assert Haystacks(b', f)[i] == b'.personality[i];
    } else {
      var text, adds := Haystacks(b, f)[0], AddsFor(f, target, content);
      PatchedField(b, target, content, f);
      AnchorSurvivesInText(u, text, adds, LegacyOf(b, f), Haystacks(b', f)[0], w);
    }
  }

  /** Covers, for a needle that is already normalised. */
  ghost predicate CoversLetters(u: Tables, b: Bot, f: Field, w: string) {
    exists i :: 0 <= i < |Haystacks(b, f)| && Related(Normalize(u, Haystacks(b, f)[i]), w)
  }

  lemma AnchorSurvivesInText(u: Tables, text: string, adds: seq<string>, legacy: string, text': string, w: string)
    requires Sane(u) && |adds| <= 1 && w != "" && Contains(Letters(u, Canon(text)), w)
    requires text' == AppendText(text, adds) || (Blank(AppendText(text, adds)) && text' == legacy)
    ensures Contains(Letters(u, Canon(text')), w) && Related(Normalize(u, text'), w)
  {
    hide AppendText, Trim, Letters, Canon;
    PatchedText(u, text, adds, text');
    NormalizeIsLetters(u, text');
    ContainsPrefix(Letters(u, Canon(text)), Letters(u, text'), w);
    ContainsPrefix(Letters(u, Canon(text)), Letters(u, Canon(text')), w);
    var i :| 0 <= i <= |Letters(u, text')| && At(w, Letters(u, text'), i);
  }

  lemma AnchorSurvivesInList(u: Tables, b: Bot, target: Field, content: string, w: string)
    requires Sane(u) && w != "" && Anchored(u, b, Personality, w)
    ensures Anchored(u, ApplyPatch(b, target, content), Personality, w)
  {
    hide AppendText, Blank, ApplyPatch, Letters, Contains;
    var b' := ApplyPatch(b, target, content);
    PatchedPersonality(b, target, content);
    var values := b.personality + AddsFor(Personality, target, content);
    DedupClean(values);
    hide Dedup;
    var i :| 0 <= i < |b.personality| && Related(Normalize(u, b.personality[i]), w);
    var h := b.personality[i];
    assert values[i] == h;
    EmptyLetters(u);
    assert Trim(h) != "";
    assert Trim(h) in b'.personality;
    var k :| 0 <= k < |b'.personality| && b'.personality[k] == Trim(h);
    TrimTwice(h);
    hide Trim;
  }

  lemma EmptyLetters(u: Tables)
    ensures Letters(u, "") == ""
  {
  }

  /** An item that a patch was applied for is covered at once. */
  lemma AppliedIsCovered(u: Tables, b: Bot, f: Field, content: string)
    requires Sane(u) && Normalize(u, content) != ""
    ensures CoversLetters(u, ApplyPatch(b, f, content), f, Normalize(u, content))
  {
    hide AppendText, ApplyPatch, Letters;
    var b', c, w := ApplyPatch(b, f, content), Trim(content), Normalize(u, content);
    EmptyLetters(u);
    TrimTwice(content);
    NormalizeIsLetters(u, c);
    if f == Personality {
      PatchedPersonality(b, f, content);
      var values := b.personality + [c];
      DedupClean(values);
      assert values[|b.personality|] == c;
      assert c in b'.personality;
      var k :| 0 <= k < |b'.personality| && b'.personality[k] == c;
      assert Haystacks(b', f)[k] == c;
    } else {
      PatchedField(b, f, content, f);
      AppendedIsContained(u, Haystacks(b, f)[0], c);
      var t := AppendText(Haystacks(b, f)[0], [c]);
      NormalizeIsLetters(u, t);
      assert Haystacks(b', f)[0] == t;
      var i :| 0 <= i <= |Letters(u, t)| && At(w, Letters(u, t), i);
    }
  }

  lemma AppendedIsContained(u: Tables, base: string, c: string)
    requires Sane(u) && c != "" && Trim(c) == c
    ensures var t := AppendText(base, [c]); !Blank(t) && Contains(Letters(u, t), Letters(u, c))
  {
    hide Letters, Contains, SplitText;
    var values := SplitText(base) + [c];
    assert values[|SplitText(base)|] == c;
    DedupClean(values);
    PartIsContained(u, Dedup(values), c);
    JoinNotBlank(Dedup(values));
  }

  // ---------------------------------------------------------------- replay

  /** After item i the run left this item's letters where later patches cannot lose them. */
  ghost predicate AtRisk(u: Tables, after: Bot, item: Item)
    requires FieldOf(item).Some?
  {
    !Anchored(u, after, FieldOf(item).value, Normalize(u, item.content))
  }

  /** Every eligible item has letters, and each one at risk right after its turn is covered by the final bot. */
  ghost predicate Settled(u: Tables, b: Bot, items: seq<Item>, final: Bot) {
    forall i :: 0 <= i < |items| && Eligible(items[i]) ==>
      && Normalize(u, items[i].content) != ""
      && (AtRisk(u, RunItems(u, b, items[..i + 1]).bot, items[i]) ==>
          Covers(u, final, FieldOf(items[i]).value, items[i].content))
  }

  lemma CoversIsLetters(u: Tables, b: Bot, f: Field, content: string)
    ensures Covers(u, b, f, content) <==> Normalize(u, content) != "" && CoversLetters(u, b, f, Normalize(u, content))
  {
  }

  /** What is anchored and covered stays so over the rest of a run. */
  lemma {:induction false} AnchorSurvivesRun(u: Tables, b: Bot, items: seq<Item>, f: Field, w: string)
    requires Sane(u) && w != "" && Anchored(u, b, f, w) && CoversLetters(u, b, f, w)
    ensures var b' := RunItems(u, b, items).bot; Anchored(u, b', f, w) && CoversLetters(u, b', f, w)
  {
    hide Anchored, CoversLetters, ApplyPatch, Covers;
    if items != [] {
      var n := |items| - 1;
      AnchorSurvivesRun(u, b, items[..n], f, w);
      var b1 := RunItems(u, b, items[..n]).bot;
      if Applies(u, b1, items[n]) { AnchorSurvivesPatch(u, b1, FieldOf(items[n]).value, items[n].content, f, w); }
    }
  }

  lemma {:induction false} RunSplit(u: Tables, b: Bot, x: seq<Item>, y: seq<Item>)
    ensures RunItems(u, b, x + y).bot == RunItems(u, RunItems(u, b, x).bot, y).bot
    ensures RunItems(u, b, x + y).applied == RunItems(u, b, x).applied + RunItems(u, RunItems(u, b, x).bot, y).applied
  {
    hide StepItem, Applies;
    if y == [] {
      assert x + y == x;
    } else {
      var n := |y| - 1;
      assert (x + y)[..|x + y| - 1] == x + y[..n];
      RunSplit(u, b, x, y[..n]);
    }
  }

  /** No patch is applied to a bot that covers every eligible item, and only then. */
  lemma {:induction false} NothingAppliedIff(u: Tables, b: Bot, items: seq<Item>)
    ensures RunItems(u, b, items).applied == 0 <==> forall i :: 0 <= i < |items| ==> !Applies(u, b, items[i])
    ensures RunItems(u, b, items).applied == 0 ==> RunItems(u, b, items).bot == b
  {
    hide Applies;
    if items != [] { NothingAppliedIff(u, b, items[..|items| - 1]); }
  }

  /** Running the same items again applies nothing exactly when the first run left every item settled. */
  lemma ReplayWhenSettled(u: Tables, b: Bot, items: seq<Item>)
    requires Sane(u)
    ensures var final := RunItems(u, b, items).bot;
            && (RunItems(u, final, items).applied == 0 <==> Settled(u, b, items, final))
            && (Settled(u, b, items, final) ==> RunItems(u, final, items).bot == final)
  {
    hide ApplyPatch, Anchored, Covers, Normalize;
    var final := RunItems(u, b, items).bot;
    NothingAppliedIff(u, final, items);
    forall i | 0 <= i < |items| && Eligible(items[i])
      ensures !Covers(u, final, FieldOf(items[i]).value, items[i].content) || Normalize(u, items[i].content) != ""
    {
      CoversIsLetters(u, final, FieldOf(items[i]).value, items[i].content);
    }
    if Settled(u, b, items, final) {
      forall i | 0 <= i < |items| && Eligible(items[i])
          ensures Covers(u, final, FieldOf(items[i]).value, items[i].content) {
        if !AtRisk(u, RunItems(u, b, items[..i + 1]).bot, items[i]) { SafeStaysCovered(u, b, items, i); }
      }
    }
  }

  lemma SafeStaysCovered(u: Tables, b: Bot, items: seq<Item>, i: nat)
    requires Sane(u) && i < |items| && Eligible(items[i]) && Normalize(u, items[i].content) != ""
    requires !AtRisk(u, RunItems(u, b, items[..i + 1]).bot, items[i])
    ensures Covers(u, RunItems(u, b, items).bot, FieldOf(items[i]).value, items[i].content)
  {
    hide ApplyPatch, Anchored, Covers, CoversLetters, Normalize;
    var f, w := FieldOf(items[i]).value, Normalize(u, items[i].content);
    var before, after := RunItems(u, b, items[..i]).bot, RunItems(u, b, items[..i + 1]).bot;
    assert items[..i + 1][..i] == items[..i];
    assert after == StepItem(u, before, items[i]);
    CoversIsLetters(u, before, f, items[i].content);
    if Applies(u, before, items[i]) { AppliedIsCovered(u, before, f, items[i].content); }
    AnchorSurvivesRun(u, after, items[i + 1..], f, w);
    RunSplit(u, b, items[..i + 1], items[i + 1..]);
    assert items[..i + 1] + items[i + 1..] == items;
    CoversIsLetters(u, RunItems(u, b, items).bot, f, items[i].content);
  }

  lemma StoredStaysSynced(b: Bot, patch: Patch)
    ensures Sync(Patched(b, patch)) == Patched(b, patch)
  {
    hide Sync, AppendText, Dedup, Blank, Trim;
    var p := b.(
      identity := AppendText(b.identity, patch.identity),
      personality := Dedup(b.personality + patch.personality),
      expressionStyle := AppendText(b.expressionStyle, patch.expressionStyle),
      lifeContext := AppendText(b.lifeContext, patch.lifeContext),
      taboos := AppendText(b.taboos, patch.taboos),
      prompt := if Blank(patch.prompt) then b.prompt else Trim(patch.prompt));
    SyncIdempotent(p);
    SyncKeepsVersion(Sync(p), Patched(b, patch).version);
  }

  lemma AppliedStaysSynced(b: Bot, f: Field, content: string)
    ensures Sync(ApplyPatch(b, f, content)) == ApplyPatch(b, f, content)
  {
    StoredStaysSynced(b, PatchOf(f, content));
    hide Sync, Patched, PatchOf;
  }

  lemma SyncKeepsVersion(b: Bot, v: int)
    ensures Sync(b.(version := v)) == Sync(b).(version := v)
  {
    hide Trim, Blank;
  }

  // ---------------------------------------------------------------- replay, decided before the run

  function TextOf(b: Bot, f: Field): string
    requires f != Personality
  {
    Haystacks(b, f)[0]
  }

  predicate For(item: Item, f: Field) { Eligible(item) && FieldOf(item).value == f }

  /** What one fact does to the letters of a field: nothing if they are related, else it is appended. */
  function Grow(letters: string, w: string): string { if Related(letters, w) then letters else letters + w }

  /** The facts for field f, one after the other. */
  function GrowField(u: Tables, letters: string, items: seq<Item>, f: Field): string {
    if items == [] then letters
    else
      var n := |items| - 1;
      var r := GrowField(u, letters, items[..n], f);
      if For(items[n], f) then Grow(r, Normalize(u, items[n].content)) else r
  }

  /** The first item that applies to the given record, or the number of items. */
  function FirstApplied(u: Tables, b: Bot, items: seq<Item>): (k: nat)
    ensures k <= |items|
  {
    if items == [] || Applies(u, b, items[0]) then 0 else FirstApplied(u, b, items[1..]) + 1
  }

  lemma {:induction false} FirstAppliedIs(u: Tables, b: Bot, items: seq<Item>)
    ensures var k := FirstApplied(u, b, items);
            (k < |items| ==> Applies(u, b, items[k])) && forall i :: 0 <= i < k ==> !Applies(u, b, items[i])
  {
    hide Applies;
    if items != [] && !Applies(u, b, items[0]) {
      FirstAppliedIs(u, b, items[1..]);
      var k := FirstApplied(u, b, items[1..]);
      forall i | 0 <= i < k + 1 ensures !Applies(u, b, items[i]) { assert i > 0 ==> items[i] == items[1..][i - 1]; }
    }
  }

  /** The letters that field f ends up with, in terms of the record and the contents only: the first item that applies
      makes every field canonical, and from there on each field grows by its own facts. */
  function FinalLetters(u: Tables, b: Bot, items: seq<Item>, f: Field): string
    requires f != Personality
  {
    var k := FirstApplied(u, b, items);
    if k == |items| then Letters(u, TextOf(b, f))
    else
      var first := Letters(u, Canon(TextOf(b, f))) + if For(items[k], f) then Normalize(u, items[k].content) else "";
      GrowField(u, first, items[k + 1..], f)
  }

  /** No eligible content holds a delimiter. */
  predicate PlainFacts(items: seq<Item>) {
    forall i :: 0 <= i < |items| && Eligible(items[i]) ==> DelimiterFree(items[i].content)
  }

  /** Every eligible content has letters. */
  predicate LetteredFacts(u: Tables, items: seq<Item>) {
    forall i :: 0 <= i < |items| && Eligible(items[i]) ==> Normalize(u, items[i].content) != ""
  }

  lemma {:induction false} NoLettersIff(u: Tables, s: string)
    ensures Letters(u, s) == "" <==> forall i :: 0 <= i < |s| ==> u.dropped(u.lower(s[i]))
  {
    if s != "" { NoLettersIff(u, s[..|s| - 1]); }
  }

  /** The letters of a text around one of its delimiters. */
  lemma LettersAround(u: Tables, s: string, k: nat)
    requires k < |s|
    ensures Letters(u, s) == Letters(u, s[..k]) + Letters(u, s[k..k + 1]) + Letters(u, s[k + 1..])
  {
    assert s == s[..k] + s[k..k + 1] + s[k + 1..];
    LettersConcat(u, s[..k] + s[k..k + 1], s[k + 1..]);
    LettersConcat(u, s[..k], s[k..k + 1]);
  }

  /** A field of a text has its letters inside the text's letters, and a text has letters only inside its fields. */
  lemma {:induction false} FieldLetters(u: Tables, s: string)
    requires Sane(u)
    ensures forall v :: v in Fields(s) ==> Contains(Letters(u, s), Letters(u, v))
    ensures (forall v :: v in Fields(s) ==> Letters(u, v) == "") ==> Letters(u, s) == ""
    decreases |s|
  {
    hide Letters, Contains;
    if s == "" {
      EmptyLetters(u);
    } else {
      var k := NextDelimiter(s, 0);
      if k == |s| {
        ContainsSelf(Letters(u, s));
        assert s in Fields(s);
      } else {
        var head, rest := s[..k], s[k + 1..];
        LettersAround(u, s, k);
        LettersOfSpace(u, s[k]);
        assert s[k..k + 1] == [s[k]];
        FieldLetters(u, rest);
        FieldsCons(s, k);
        EmptyLetters(u);
        hide Fields;
        assert Letters(u, s) == Letters(u, head) + Letters(u, rest);
        ContainsSelf(Letters(u, head));
        forall v | v in Fields(s) ensures Contains(Letters(u, s), Letters(u, v)) {
          ContainsConcat(Letters(u, head), Letters(u, rest), Letters(u, v));
        }
      }
    }
  }

  lemma FieldsCons(s: string, k: nat)
    requires k < |s| && k == NextDelimiter(s, 0)
    ensures forall v :: v in Fields(s) <==> (k > 0 && v == s[..k]) || v in Fields(s[k + 1..])
    ensures k == 0 ==> s[..k] == ""
  {
    var rest := Fields(s[k + 1..]);
    if k > 0 { InCons(s[..k], rest); }
  }

  lemma InCons<T>(x: T, rest: seq<T>)
    ensures forall v :: v in [x] + rest <==> v == x || v in rest
  {
    assert ([x] + rest)[0] == x;
  }

  /** The segments of a text have their letters inside the text's letters; a text without segments has none. */
  lemma SegmentLetters(u: Tables, text: string)
    requires Sane(u)
    ensures forall p :: p in SplitText(text) ==> Contains(Letters(u, text), Letters(u, p))
    ensures SplitText(text) == [] ==> Letters(u, text) == ""
  {
    FieldLetters(u, text);
    DedupClean(Fields(text));
    EmptyLetters(u);
    NormalizeIsLetters(u, text);
    hide Letters, Contains, Fields, Dedup;
    forall v | v in Fields(text) ensures Letters(u, Trim(v)) == Letters(u, v) { NormalizeIsLetters(u, v); }
  }

  /** The legacy text of a synchronised bot has the letters of the field it mirrors. */
  lemma LegacyLetters(u: Tables, b: Bot, f: Field)
    requires Sane(u) && Sync(b) == b && f != Personality && f != TaboosAndPreferences
    ensures Letters(u, LegacyOf(b, f)) == Letters(u, TextOf(b, f))
  {
    NormalizeIsLetters(u, TextOf(b, f));
    TrimTwice(TextOf(b, f));
    hide Trim, Letters;
  }

  lemma CanonOfNoLetters(u: Tables, text: string)
    requires Sane(u) && Letters(u, text) == ""
    ensures Letters(u, Canon(text)) == ""
  {
    var parts := SplitText(text);
    SegmentLetters(u, text);
    hide Letters, SplitText;
    forall i | 0 <= i < |parts| ensures Letters(u, parts[i]) == "" { assert parts[i] in parts; }
    JoinOfNoLetters(u, parts);
  }

  lemma {:induction false} JoinOfNoLetters(u: Tables, parts: seq<string>)
    requires Sane(u) && forall i :: 0 <= i < |parts| ==> Letters(u, parts[i]) == ""
    ensures Letters(u, Join(parts)) == ""
  {
    if parts != [] {
      LettersOfHead(u, parts);
      JoinOfNoLetters(u, parts[1..]);
    } else {
      NoLetters(u);
    }
  }

  /** The field's letters survive another split and join. */
  predicate CanonicalAt(u: Tables, b: Bot, f: Field)
    requires f != Personality
  {
    Letters(u, Canon(TextOf(b, f))) == Letters(u, TextOf(b, f))
  }

  /** A patch without an addition for a text field leaves it canonical. */
  lemma OtherFieldIsCanonical(u: Tables, b: Bot, target: Field, content: string, f: Field)
    requires Sane(u) && Sync(b) == b && f != Personality && f != target
    ensures var b' := ApplyPatch(b, target, content);
            Letters(u, TextOf(b', f)) == Letters(u, Canon(TextOf(b, f))) && CanonicalAt(u, b', f)
  {
    hide ApplyPatch, Letters, Sync;
    var text := TextOf(b, f);
    PatchedField(b, target, content, f);
    var parts := SplitText(text);
    SplitIsPlain(text);
    DedupOfClean(parts);
    assert parts + [] == parts;
    assert AppendText(text, []) == Canon(text) == Join(parts);
    if parts == [] {
      NoLetters(u);
      SegmentLetters(u, text);
      EmptyLetters(u);
      CanonOfNoLetters(u, "");
      if f != TaboosAndPreferences {
        LegacyLetters(u, b, f);
        CanonOfNoLetters(u, LegacyOf(b, f));
      }
      assert Blank("") by { assert Trim("") == ""; }
    } else {
      JoinNotBlank(parts);
      SplitJoin(parts);
    }
  }

  lemma SegmentsAreCovered(u: Tables, b: Bot, f: Field, content: string)
    requires Sane(u) && f != Personality && Normalize(u, content) != ""
    ensures Trim(content) in SplitText(TextOf(b, f)) ==> Covers(u, b, f, content)
  {
    var text, c := TextOf(b, f), Trim(content);
    CoversText(u, b, f, content);
    SegmentLetters(u, text);
    hide Letters, Contains, SplitText, Covers;
    if c in SplitText(text) { EmptyIsNotContaining(u, text, c); }
  }

  /** A new delimiter-free segment appends its letters to the canonical ones. */
  lemma TextGrows(u: Tables, text: string, c: string)
    requires Sane(u) && c != "" && Trim(c) == c && DelimiterFree(c) && c !in SplitText(text)
    ensures var t := AppendText(text, [c]);
            !Blank(t) && Letters(u, t) == Letters(u, Canon(text)) + Letters(u, c) && Canon(t) == t
  {
    var parts := SplitText(text);
    hide Letters, SplitText, Trim, DelimiterFree;
    SplitIsPlain(text);
    DedupOfClean(parts);
    assert (parts + [c])[..|parts|] == parts && Dedup(parts + [c]) == parts + [c];
    hide Dedup;
    AppendSegments(text, [c]);
    LettersOfJoin(u, parts, c);
    DedupClean(parts + [c]);
    JoinNotBlank(parts + [c]);
  }

  /** A patch with a delimiter-free addition that the field does not cover appends its letters to the canonical ones. */
  lemma TargetFieldGrows(u: Tables, b: Bot, f: Field, content: string)
    requires Sane(u) && f != Personality && DelimiterFree(content) && Normalize(u, content) != ""
    requires !Covers(u, b, f, content)
    ensures var b' := ApplyPatch(b, f, content);
            Letters(u, TextOf(b', f)) == Letters(u, Canon(TextOf(b, f))) + Normalize(u, content)
                && CanonicalAt(u, b', f)
  {
    hide ApplyPatch, Letters, Covers, SplitText, Trim, AppendText, Canon, DelimiterFree;
    var c, text := Trim(content), TextOf(b, f);
    SegmentsAreCovered(u, b, f, content);
    EmptyLetters(u);
    TrimTwice(content);
    TrimDelimiterFree(content);
    TextGrows(u, text, c);
    PatchedField(b, f, content, f);
  }

  lemma EmptyIsNotContaining(u: Tables, text: string, c: string)
    requires Contains(Letters(u, text), Letters(u, c)) && Letters(u, c) != ""
    ensures Letters(u, text) != ""
  {
    hide Letters;
  }

  /** Coverage of a text field, in letters. */
  lemma CoversText(u: Tables, b: Bot, f: Field, content: string)
    requires Sane(u) && f != Personality
    ensures Covers(u, b, f, content) <==>
              Normalize(u, content) != "" && Related(Letters(u, TextOf(b, f)), Normalize(u, content))
  {
    NormalizeIsLetters(u, TextOf(b, f));
    hide Letters, Contains, Normalize;
    if Related(Normalize(u, TextOf(b, f)), Normalize(u, content)) {
      assert Related(Normalize(u, Haystacks(b, f)[0]), Normalize(u, content));
    }
  }

  /** One item on a canonical field. */
  lemma StepGrows(u: Tables, b: Bot, item: Item, f: Field)
    requires Sane(u) && Sync(b) == b && f != Personality && CanonicalAt(u, b, f)
    requires Eligible(item) ==> DelimiterFree(item.content) && Normalize(u, item.content) != ""
    ensures var b' := StepItem(u, b, item);
            var l := Letters(u, TextOf(b, f));
            && Sync(b') == b' && CanonicalAt(u, b', f)
            && Letters(u, TextOf(b', f)) == if For(item, f) then Grow(l, Normalize(u, item.content)) else l
  {
    hide FieldOf;
    if Applies(u, b, item) { PatchGrows(u, b, item, f); }
    if For(item, f) { CoversText(u, b, f, item.content); }
    hide ApplyPatch, Letters, Normalize, Sync, Covers, Contains;
  }

  /** An item that applies, on any field of any record. */
  lemma PatchGrows(u: Tables, b: Bot, item: Item, f: Field)
    requires Sane(u) && Sync(b) == b && f != Personality && Applies(u, b, item)
    requires DelimiterFree(item.content) && Normalize(u, item.content) != ""
    ensures var b' := ApplyPatch(b, FieldOf(item).value, item.content);
            && Sync(b') == b' && CanonicalAt(u, b', f)
            && Letters(u, TextOf(b', f))
               == Letters(u, Canon(TextOf(b, f))) + if For(item, f) then Normalize(u, item.content) else ""
  {
    hide *;
    AppliesIs(u, b, item);
    var target := FieldOf(item).value;
    AppliedStaysSynced(b, target, item.content);
    ForIs(item, f);
    if target == f {
      TargetFieldGrows(u, b, f, item.content);
    } else {
      OtherFieldIsCanonical(u, b, target, item.content, f);
      assert Letters(u, Canon(TextOf(b, f))) + "" == Letters(u, Canon(TextOf(b, f)));
    }
  }

  lemma AppliesIs(u: Tables, b: Bot, item: Item)
    requires Applies(u, b, item)
    ensures Eligible(item) && FieldOf(item).Some? && !Covers(u, b, FieldOf(item).value, item.content)
  {
    hide FieldOf;
  }

  lemma ForIs(item: Item, f: Field)
    requires Eligible(item) && FieldOf(item).Some?
    ensures For(item, f) <==> FieldOf(item).value == f
  {
    hide FieldOf;
  }

  lemma {:induction false} RunGrows(u: Tables, b: Bot, items: seq<Item>, f: Field)
    requires Sane(u) && Sync(b) == b && f != Personality && CanonicalAt(u, b, f)
    requires PlainFacts(items) && LetteredFacts(u, items)
    ensures var b' := RunItems(u, b, items).bot;
            && Sync(b') == b' && CanonicalAt(u, b', f)
            && Letters(u, TextOf(b', f)) == GrowField(u, Letters(u, TextOf(b, f)), items, f)
  {
    hide StepItem, Letters, Sync, Normalize, Eligible, CanonicalAt, Grow, For, DelimiterFree;
    if items != [] {
      var n := |items| - 1;
      FactsTail(u, items, 0, n);
      assert items[0..n] == items[..n];
      RunGrows(u, b, items[..n], f);
      StepGrows(u, RunItems(u, b, items[..n]).bot, items[n], f);
    }
  }

  lemma FactsTail(u: Tables, items: seq<Item>, i: nat, j: nat)
    requires i <= j <= |items| && PlainFacts(items) && LetteredFacts(u, items)
    ensures PlainFacts(items[i..j]) && LetteredFacts(u, items[i..j])
  {
    hide Eligible, DelimiterFree, Normalize;
    var part := items[i..j];
    forall k | 0 <= k < |part| && Eligible(part[k])
        ensures DelimiterFree(part[k].content) && Normalize(u, part[k].content) != "" {
      assert part[k] == items[i + k];
    }
  }

  /** Before the first item that applies, the record stays as it was. */
  lemma RunToFirst(u: Tables, b: Bot, items: seq<Item>, k: nat)
    requires k < |items| && Applies(u, b, items[k]) && forall i :: 0 <= i < k ==> !Applies(u, b, items[i])
    ensures RunItems(u, b, items).bot
            == RunItems(u, ApplyPatch(b, FieldOf(items[k]).value, items[k].content), items[k + 1..]).bot
  {
    hide Covers, ApplyPatch, FieldOf;
    NothingAppliedIff(u, b, items[..k]);
    assert items[..k + 1][..k] == items[..k];
    RunSplit(u, b, items[..k + 1], items[k + 1..]);
    assert items[..k + 1] + items[k + 1..] == items;
  }

  lemma RunFromFirst(u: Tables, b: Bot, items: seq<Item>, f: Field, k: nat)
    requires Sane(u) && Sync(b) == b && f != Personality && PlainFacts(items) && LetteredFacts(u, items)
    requires k < |items| && Applies(u, b, items[k]) && forall i :: 0 <= i < k ==> !Applies(u, b, items[i])
    ensures var w := if For(items[k], f) then Normalize(u, items[k].content) else "";
            var first := Letters(u, Canon(TextOf(b, f))) + w;
            Letters(u, TextOf(RunItems(u, b, items).bot, f)) == GrowField(u, first, items[k + 1..], f)
  {
    hide *;
    FactAt(u, items, k);
    AppliesIs(u, b, items[k]);
    var b1, rest := ApplyPatch(b, FieldOf(items[k]).value, items[k].content), items[k + 1..];
    RunToFirst(u, b, items, k);
    PatchGrows(u, b, items[k], f);
    FactsTail(u, items, k + 1, |items|);
    assert items[k + 1..|items|] == rest;
    RunGrows(u, b1, rest, f);
  }

  lemma FactAt(u: Tables, items: seq<Item>, k: nat)
    requires k < |items| && PlainFacts(items) && LetteredFacts(u, items)
    ensures Eligible(items[k]) ==> DelimiterFree(items[k].content) && Normalize(u, items[k].content) != ""
  {
    hide Eligible, DelimiterFree, Normalize;
  }

  /** The letters of a field after a whole run, from any synchronised record. */
  lemma RunEndsWith(u: Tables, b: Bot, items: seq<Item>, f: Field)
    requires Sane(u) && Sync(b) == b && f != Personality && PlainFacts(items) && LetteredFacts(u, items)
    ensures Letters(u, TextOf(RunItems(u, b, items).bot, f)) == FinalLetters(u, b, items, f)
  {
    var k := FirstApplied(u, b, items);
    FirstAppliedIs(u, b, items);
    hide Sync, Letters, Normalize, Applies, RunItems, GrowField, FirstApplied, PlainFacts, LetteredFacts, Canon, For;
    if k == |items| { NothingAppliedIff(u, b, items); } else { RunFromFirst(u, b, items, f, k); }
  }

  /** Items for the personality list are anchored as soon as they had their turn. */
  lemma PersonalityIsSafe(u: Tables, b: Bot, item: Item)
    requires Sane(u) && For(item, Personality) && Normalize(u, item.content) != ""
    ensures !AtRisk(u, StepItem(u, b, item), item)
  {
    hide ApplyPatch, Letters, Canon, Covers, Contains, Normalize;
    var f, w := Personality, Normalize(u, item.content);
    CoversIsLetters(u, b, f, item.content);
    if Applies(u, b, item) { AppliedIsCovered(u, b, f, item.content); }
    var b' := StepItem(u, b, item);
    var i :| 0 <= i < |Haystacks(b', f)| && Related(Normalize(u, Haystacks(b', f)[i]), w);
    assert b'.personality[i] == Haystacks(b', f)[i];
  }

  lemma PersonalityStaysCovered(u: Tables, b: Bot, items: seq<Item>, i: nat)
    requires Sane(u) && i < |items| && For(items[i], Personality) && Normalize(u, items[i].content) != ""
    ensures Covers(u, RunItems(u, b, items).bot, Personality, items[i].content)
  {
    hide StepItem, Eligible, Normalize, Covers, AtRisk;
    assert items[..i + 1][..i] == items[..i];
    PersonalityIsSafe(u, RunItems(u, b, items[..i]).bot, items[i]);
    SafeStaysCovered(u, b, items, i);
  }

  /** The condition, on strings that are known before the run: every eligible content has letters, and those for a text
      field are related to what the field will end up with. */
  predicate StaysRelated(u: Tables, b: Bot, items: seq<Item>) {
    forall i :: 0 <= i < |items| && Eligible(items[i]) ==>
      && Normalize(u, items[i].content) != ""
      && (FieldOf(items[i]).value != Personality ==>
            Related(FinalLetters(u, b, items, FieldOf(items[i]).value), Normalize(u, items[i].content)))
  }

  /** Replay: for delimiter-free contents and any synchronised record, running the items a second time applies nothing,
      and then leaves the record as it is, exactly when the items stay related. */
  lemma ReplayIsNoOp(u: Tables, b: Bot, items: seq<Item>)
    requires Sane(u) && Sync(b) == b && PlainFacts(items)
    ensures var final := RunItems(u, b, items).bot;
            && (RunItems(u, final, items).applied == 0 <==> StaysRelated(u, b, items))
            && (StaysRelated(u, b, items) ==> RunItems(u, final, items) == Outcome(final, 0))
  {
    hide Sync, Normalize, Covers, FinalLetters, Related, FieldOf, StepItem, DelimiterFree;
    var final := RunItems(u, b, items).bot;
    NothingAppliedIff(u, final, items);
    forall i | 0 <= i < |items| && Eligible(items[i])
      ensures LetteredFacts(u, items) ==>
                (Covers(u, final, FieldOf(items[i]).value, items[i].content) <==>
                 (FieldOf(items[i]).value != Personality ==>
                    Related(FinalLetters(u, b, items, FieldOf(items[i]).value), Normalize(u, items[i].content))))
      ensures Covers(u, final, FieldOf(items[i]).value, items[i].content) ==> Normalize(u, items[i].content) != ""
    {
      var f := FieldOf(items[i]).value;
      CoversIsLetters(u, final, f, items[i].content);
      if LetteredFacts(u, items) {
        if f == Personality {
          PersonalityStaysCovered(u, b, items, i);
        } else {
          RunEndsWith(u, b, items, f);
          CoversText(u, final, f, items[i].content);
        }
      }
    }
  }

  // ---------------------------------------------------------------- a replay that does change the bot

  function PlainTables(): Tables { Tables(c => c, c => IsSpace(c) || IsDelimiter(c), c => c) }

  function IdentityBot(identity: string, version: int): Bot {
    Bot(identity, [], "", "", "", identity, identity, "", "", "", [], "", version)
  }

  lemma TrimPlain(s: string)
    requires s != "" && !IsSpace(s[0]) && !IsSpace(s[|s| - 1])
    ensures Trim(s) == s && !Blank(s)
  {
    TrimRightFix(s);
  }

  lemma {:induction false} PlainLetters(s: string)
    requires forall i :: 0 <= i < |s| ==> !IsSpace(s[i]) && !IsDelimiter(s[i])
    ensures Letters(PlainTables(), s) == s
  {
    if s != "" {
      PlainLetters(s[..|s| - 1]);
      assert s == s[..|s| - 1] + [s[|s| - 1]];
    }
  }

  lemma PlainSane()
    ensures Sane(PlainTables())
  {
  }

  predicate LowerWord(s: string) { s != "" && forall i :: 0 <= i < |s| ==> 'a' <= s[i] <= 'z' }

  /** A word of small letters is its own normal form. */
  lemma PlainWord(s: string)
    requires LowerWord(s)
    ensures Normalize(PlainTables(), s) == s && Trim(s) == s
  {
    TrimPlain(s);
    PlainLetters(s);
  }

  lemma EligibleIdentity(content: string)
    ensures var item := Item("self_fact", content, "identity", "stable");
            Eligible(item) && FieldOf(item) == Some(Identity)
  {
    TrimPlain("identity");
    TrimPlain("stable");
    TrimPlain("self_fact");
    hide Trim;
  }

  lemma IdentityCovers(u: Tables, b: Bot, content: string)
    ensures Covers(u, b, Identity, content) <==>
            Normalize(u, content) != "" && Related(Normalize(u, b.identity), Normalize(u, content))
  {
    hide Normalize, Related;
    var h := Haystacks(b, Identity);
    assert |h| == 1 && h[0] == b.identity;
    if Related(Normalize(u, b.identity), Normalize(u, content)) {
      assert Related(Normalize(u, h[0]), Normalize(u, content));
    }
  }

  /** A string that lacks the k-th symbol of p does not contain p. */
  lemma NotContained(s: string, p: string, k: nat)
    requires |s| < |p| || (k < |p| && forall i :: 0 <= i < |s| ==> s[i] != p[k])
    ensures !Contains(s, p)
  {
    forall i | 0 <= i <= |s| ensures !At(p, s, i) {
      if i + |p| <= |s| {
        var w := s[i..i + |p|];
        assert w[k] == s[i + k];
      }
    }
  }

  lemma SmallContains()
    ensures Contains("xyz", "x") && !Contains("x", "q") && !Contains("q", "x") && !Contains("xq", "xyz")
            && !Contains("xyz", "xq")
  {
    assert At("x", "xyz", 0);
    NotContained("x", "q", 0);
    NotContained("q", "x", 0);
    NotContained("xq", "xyz", 0);
    NotContained("xyz", "xq", 1);
  }

  lemma TwoItems(u: Tables, b: Bot, x: Item, y: Item)
    requires !Applies(u, b, x) && Applies(u, b, y)
    ensures RunItems(u, b, [x, y]).bot == ApplyPatch(b, FieldOf(y).value, y.content)
  {
    hide Applies, ApplyPatch;
    assert [x, y][..1] == [x] && [x][..0] == [];
    assert RunItems(u, b, []) == Outcome(b, 0);
    assert RunItems(u, b, [x]).bot == b;
  }

  /** An item skipped before another one is applied is applied on replay if the patch uncovers it. */
  lemma UncoveredIsReapplied(u: Tables, b: Bot, x: Item, y: Item)
    requires !Applies(u, b, x) && Applies(u, b, y) && Applies(u, ApplyPatch(b, FieldOf(y).value, y.content), x)
    ensures RunItems(u, RunItems(u, b, [x, y]).bot, [x, y]).applied > 0
  {
    TwoItems(u, b, x, y);
    hide Applies, ApplyPatch;
    assert [x, y][0] == x;
    NothingAppliedIff(u, ApplyPatch(b, FieldOf(y).value, y.content), [x, y]);
  }

  lemma AppliesToIdentity(b: Bot, content: string, letters: string)
    requires Normalize(PlainTables(), b.identity) == letters && Normalize(PlainTables(), content) == content != ""
    ensures Applies(PlainTables(), b, Item("self_fact", content, "identity", "stable")) <==> !Related(letters, content)
  {
    EligibleIdentity(content);
    hide Eligible, FieldOf, PlainTables, Related, Normalize;
    IdentityCovers(PlainTables(), b, content);
  }

  function Fact(content: string): Item { Item("self_fact", content, "identity", "stable") }

  lemma FirstIsSkipped(b: Bot)
    requires b.identity == "x"
    ensures !Applies(PlainTables(), b, Fact("xyz"))
  {
    hide Contains, Applies, Normalize, Letters, Trim, PlainTables, Eligible, FieldOf, Covers;
    PlainWord("x");
    PlainWord("xyz");
    SmallContains();
    AppliesToIdentity(b, "xyz", "x");
  }

  lemma SecondIsApplied(b: Bot)
    requires b.identity == "x"
    ensures Applies(PlainTables(), b, Fact("q"))
  {
    hide Contains, Applies, Normalize, Letters, Trim, PlainTables, Eligible, FieldOf, Covers;
    PlainWord("x");
    PlainWord("q");
    SmallContains();
    AppliesToIdentity(b, "q", "x");
  }

  lemma FirstIsUncovered(b: Bot)
    requires b.identity == "x；q"
    ensures Applies(PlainTables(), b, Fact("xyz"))
  {
    hide Contains, Applies, Normalize, Letters, Trim, PlainTables, Eligible, FieldOf, Covers;
    LettersAfter();
    PlainWord("xyz");
    SmallContains();
    AppliesToIdentity(b, "xyz", "xq");
  }

  /** Replay is not always a no-op: with the identity "x", the first run skips "xyz" because it contains the field, then
      appends "q"; the second run no longer finds "xyz" covered by "x；q" and appends it. */
  lemma ReplayCanChangeTheBot()
    ensures var u, b, items := PlainTables(), IdentityBot("x", 1), [Fact("xyz"), Fact("q")];
            var final := RunItems(u, b, items).bot;
            Sane(u) && Sync(b) == b && RunItems(u, final, items).applied > 0
  {
    var b := IdentityBot("x", 1);
    PlainSane();
    SyncIdentityBot();
    EligibleIdentity("q");
    hide PlainTables, Sane, Sync, Applies, RunItems, ApplyPatch, Eligible, FieldOf;
    FinalIdentity(b);
    FirstIsSkipped(b);
    SecondIsApplied(b);
    FirstIsUncovered(ApplyPatch(b, Identity, "q"));
    UncoveredIsReapplied(PlainTables(), b, Fact("xyz"), Fact("q"));
  }

  lemma SyncIdentityBot()
    ensures Sync(IdentityBot("x", 1)) == IdentityBot("x", 1)
  {
    TrimPlain("x");
    assert Trim("") == "";
    hide Trim;
  }

  lemma FinalIdentity(b: Bot)
    requires b.identity == "x"
    ensures ApplyPatch(b, Identity, "q").identity == "x；q"
  {
    TrimPlain("q");
    AppendedText();
    hide ApplyPatch, AppendText, Trim, Blank;
    PatchedField(b, Identity, "q", Identity);
  }

  lemma AppendToOne(a: string, c: string)
    requires Trim(a) == a && a != "" && DelimiterFree(a) && Trim(c) == c && c != "" && a != c
    ensures AppendText(a, [c]) == a + SEPARATOR + c && !Blank(a + SEPARATOR + c)
  {
    hide Trim, DelimiterFree, Dedup, Join, SplitText;
    JoinOne(a);
    SplitJoin([a]);
    assert Clean([a] + [c]);
    DedupOfClean([a] + [c]);
    JoinHead(a, [c]);
    JoinOne(c);
    JoinNotBlank([a] + [c]);
  }

  lemma AppendedText()
    ensures AppendText("x", ["q"]) == "x；q" && !Blank("x；q")
  {
    TrimPlain("x");
    TrimPlain("q");
    hide Trim, AppendText;
    AppendToOne("x", "q");
    assert "x" + SEPARATOR + "q" == "x；q";
  }

  lemma LettersAfter()
    ensures Normalize(PlainTables(), "x；q") == "xq"
  {
    hide PlainTables, Sane, Trim, Letters;
    PlainSane();
    PlainWord("x");
    PlainWord("q");
    NormalizeIsLetters(PlainTables(), "x");
    NormalizeIsLetters(PlainTables(), "q");
    LettersOfPair(PlainTables(), "x", "q");
    assert "x" + SEPARATOR + "q" == "x；q";
    NormalizeIsLetters(PlainTables(), "x；q");
    hide Normalize;
    assert "x" + "q" == "xq";
  }
}
