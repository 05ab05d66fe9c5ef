/** The few operations of Go's strings package that the models share. A `char` stands for one rune. */
module Text {

  datatype Option<T> = None | Some(value: T)

  /** unicode.IsSpace: the code points with the property White_Space. */
  predicate IsSpace(c: char) {
    || '\U{9}' <= c <= '\U{d}' || c == '\U{20}' || c == '\U{85}' || c == '\U{a0}' || c == '\U{1680}'
    || '\U{2000}' <= c <= '\U{200a}' || c == '\U{2028}' || c == '\U{2029}' || c == '\U{202f}'
    || c == '\U{205f}' || c == '\U{3000}'
  }

  function TrimLeft(s: string): (r: string)
    ensures r == "" || !IsSpace(r[0])
  {
    if s != "" && IsSpace(s[0]) then TrimLeft(s[1..]) else s
  }

  function TrimRight(s: string): (r: string)
    ensures r <= s && (r == "" || !IsSpace(r[|r| - 1]))
  {
    if s != "" && IsSpace(s[|s| - 1]) then TrimRight(s[..|s| - 1]) else s
  }

  /** strings.TrimSpace. */
  function Trim(s: string): string { TrimRight(TrimLeft(s)) }

  lemma TrimTwice(s: string)
    ensures Trim(Trim(s)) == Trim(s)
  {
    var t := Trim(s);
    if t != "" { assert t[0] == TrimLeft(s)[0]; }
  }

  lemma {:induction false} TrimLeftShrinks(s: string)
    ensures |TrimLeft(s)| <= |s| && (s != "" && IsSpace(s[0]) ==> |TrimLeft(s)| < |s|)
  {
    if s != "" && IsSpace(s[0]) { TrimLeftShrinks(s[1..]); }
  }

  /** A text that begins with a visible rune is not blank. */
  lemma {:induction false} HeadSurvives(s: string)
    requires s != "" && !IsSpace(s[0])
    ensures TrimRight(s) != "" && Trim(s) != ""
  {
    if IsSpace(s[|s| - 1]) { HeadSurvives(s[..|s| - 1]); }
  }

  lemma {:induction false} TrimLeftSuffix(s: string)
    ensures exists k :: 0 <= k <= |s| && TrimLeft(s) == s[k..]
  {
    if s != "" && IsSpace(s[0]) {
      TrimLeftSuffix(s[1..]);
      var k :| 0 <= k <= |s| - 1 && TrimLeft(s[1..]) == s[1..][k..];
      assert s[1..][k..] == s[k + 1..];
    } else {
      assert s[0..] == s;
    }
  }

  /** Trim keeps a contiguous part. */
  lemma TrimPart(s: string) returns (i: nat, j: nat)
    ensures i <= j <= |s| && Trim(s) == s[i..j]
  {
    TrimLeftSuffix(s);
    i :| 0 <= i <= |s| && TrimLeft(s) == s[i..];
    j := i + |TrimRight(s[i..])|;
    assert s[i..j] == s[i..][..j - i];
  }

  predicate Blank(s: string) { Trim(s) == "" }

  /** p occurs in s at position i. */
  predicate At(p: string, s: string, i: int): (r: bool)
    ensures r ==> 0 <= i && i + |p| <= |s|
  {
    0 <= i && i + |p| <= |s| && s[i..i + |p|] == p
  }

  lemma AtMeans(p: string, s: string, i: int)
    ensures At(p, s, i) <==> 0 <= i <= |s| - |p| && forall k :: 0 <= k < |p| ==> s[i + k] == p[k]
  {
    if 0 <= i <= |s| - |p| {
      var w := s[i..i + |p|];
      assert forall k :: 0 <= k < |p| ==> w[k] == s[i + k];
    }
  }

  function Concat(parts: seq<string>): string {
    if parts == [] then "" else parts[0] + Concat(parts[1..])
  }

  lemma {:induction false} ConcatSnoc(parts: seq<string>, last: string)
    ensures Concat(parts + [last]) == Concat(parts) + last
  {
    if parts == [] {
      assert parts + [last] == [last] && Concat([last]) == last + Concat([]);
    } else {
      assert (parts + [last])[1..] == parts[1..] + [last];
      ConcatSnoc(parts[1..], last);
    }
  }

  /** Simple case folding of the letters that fold to an ASCII letter. */
  function FoldChar(c: char): char {
    if 'A' <= c <= 'Z' then c - 'A' + 'a' else if c == '\U{17f}' then 's' else if c == '\U{212a}' then 'k' else c
  }

  /** strings.EqualFold against an ASCII word. */
  predicate EqualFold(s: string, word: string) {
    |s| == |word| && forall i :: 0 <= i < |s| ==> FoldChar(s[i]) == FoldChar(word[i])
  }

  // ---------------------------------------------------------------- what the operations mean

  /** The code points with the property White_Space, by number. */
  lemma SpacesAre(c: char)
    ensures IsSpace(c) <==>
              || c as int in {0x9, 0xA, 0xB, 0xC, 0xD, 0x20, 0x85, 0xA0, 0x1680, 0x2028, 0x2029, 0x202F, 0x205F, 0x3000}
              || 0x2000 <= c as int <= 0x200A
  {
  }

  lemma {:induction false} TrimLeftIs(s: string) returns (i: nat)
    ensures i <= |s| && TrimLeft(s) == s[i..] && forall k :: 0 <= k < i ==> IsSpace(s[k])
  {
    hide IsSpace;
    i := 0;
    if s != "" && IsSpace(s[0]) {
      var k := TrimLeftIs(s[1..]);
      i := k + 1;
      assert s[1..][k..] == s[i..];
      forall j | 0 <= j < i ensures IsSpace(s[j]) { assert j > 0 ==> s[j] == s[1..][j - 1]; }
    }
  }

  lemma {:induction false} TrimRightIs(s: string)
    ensures forall k :: |TrimRight(s)| <= k < |s| ==> IsSpace(s[k])
  {
    hide IsSpace;
    if s != "" && IsSpace(s[|s| - 1]) { TrimRightIs(s[..|s| - 1]); }
  }

  /** Trim removes spaces at both ends, all of them, and nothing else. */
  lemma TrimIs(s: string) returns (i: nat, j: nat)
    ensures i <= j <= |s| && Trim(s) == s[i..j]
    ensures forall k :: 0 <= k < i || j <= k < |s| ==> IsSpace(s[k])
    ensures i < j ==> !IsSpace(s[i]) && !IsSpace(s[j - 1])
  {
    i := TrimLeftIs(s);
    TrimRightIs(s[i..]);
    hide IsSpace;
    j := i + |TrimRight(s[i..])|;
    assert s[i..j] == s[i..][..j - i];
    forall k | j <= k < |s| ensures IsSpace(s[k]) { assert s[k] == s[i..][k - i]; }
    if i < j { assert s[i] == TrimLeft(s)[0] && s[j - 1] == Trim(s)[j - i - 1]; }
  }

  /** A text is blank exactly if it holds nothing but spaces. */
  lemma BlankIs(s: string)
    ensures Blank(s) <==> forall k :: 0 <= k < |s| ==> IsSpace(s[k])
  {
    var i, j := TrimIs(s);
    hide Trim, IsSpace;
    if i < j { assert !IsSpace(s[i]); }
  }

  /** What folds to a lower-case ASCII word: the word, with some letters in capitals, the long s for s, the Kelvin sign
      for k. */
  lemma EqualFoldIs(s: string, word: string)
    requires forall i :: 0 <= i < |word| ==> 'a' <= word[i] <= 'z' || word[i] == '_'
    ensures EqualFold(s, word) <==> |s| == |word| && forall i :: 0 <= i < |s| ==>
              || s[i] == word[i]
              || (word[i] != '_' && s[i] as int == word[i] as int - 32)
              || (word[i] == 's' && s[i] as int == 0x17F)
              || (word[i] == 'k' && s[i] as int == 0x212A)
  {
  }
}
