/** `ShikiParser.is_title_valid`: a full match of the pattern
    `([a-zA-Zа-яА-Я0-9]+\s{0,1})*[a-zA-Zа-яА-Я0-9]+`.
    The pattern is modelled by its structure (groups of a word and an
    optional separator, then a final word) and proved equal to a
    character-level description of the accepted strings. */
module TitleValidator {
  import opened Wrappers

  /** `[a-zA-Zа-яА-Я0-9]`: the Cyrillic ranges are U+0430-U+044F and
      U+0410-U+042F, so `ё` (U+0451) and `Ё` (U+0401) fall outside them. */
  predicate IsTitleChar(c: char) {
    'a' <= c <= 'z' || 'A' <= c <= 'Z' || '\U{430}' <= c <= '\U{44F}' || '\U{410}' <= c <= '\U{42F}' || '0' <= c <= '9'
  }

  /** `\s` in a `str` pattern: every character for which `str.isspace()`
      holds, so tab, newline and the Unicode spaces as well as ' '. */
  predicate IsSpace(c: char) {
    '\t' <= c <= '\r' || '\U{1C}' <= c <= ' ' || c == '\U{85}' || c == '\U{A0}' || c == '\U{1680}'
    || '\U{2000}' <= c <= '\U{200A}' || c == '\U{2028}' || c == '\U{2029}' || c == '\U{202F}'
    || c == '\U{205F}' || c == '\U{3000}'
  }

  /** `[a-zA-Zа-яА-Я0-9]+` */
  predicate IsWord(w: string) {
    |w| > 0 && forall i :: 0 <= i < |w| ==> IsTitleChar(w[i])
  }

  /** One repetition of the group `([a-zA-Zа-яА-Я0-9]+\s{0,1})`. */
  datatype Group = Group(word: string, sep: Option<char>)

  predicate GroupOk(g: Group) {
    IsWord(g.word) && (g.sep.Some? ==> IsSpace(g.sep.value))
  }

  function GroupText(g: Group): string {
    g.word + (if g.sep.Some? then [g.sep.value] else [])
  }

  /** The text matched by the repeated groups followed by the final word. */
  function Assemble(groups: seq<Group>, last: string): string {
    if groups == [] then last else GroupText(groups[0]) + Assemble(groups[1..], last)
  }

  /** The whole string is matched by the pattern. */
  ghost predicate MatchesPattern(s: string) {
    exists groups: seq<Group>, last: string ::
      (forall i :: 0 <= i < |groups| ==> GroupOk(groups[i])) && IsWord(last) && Assemble(groups, last) == s
  }

  /** The character-level description: non-empty, no whitespace at either
      end, no two whitespace characters in a row, and every other character
      from the title alphabet. */
  predicate WellSpaced(s: string) {
    && |s| > 0
    && !IsSpace(s[0])
    && !IsSpace(s[|s| - 1])
    && (forall i :: 0 <= i < |s| ==> IsTitleChar(s[i]) || IsSpace(s[i]))
    && (forall i :: 0 <= i < |s| - 1 ==> !(IsSpace(s[i]) && IsSpace(s[i + 1])))
  }

  /** A word before a well-spaced string keeps it well spaced. */
  lemma PrependWord(w: string, rest: string)
    requires IsWord(w) && WellSpaced(rest)
    ensures WellSpaced(w + rest)
  {
    var s := w + rest;
    forall i | 0 <= i < |s| - 1
      ensures !(IsSpace(s[i]) && IsSpace(s[i + 1]))
    {
      if i + 1 < |w| {
        assert s[i] == w[i];
      } else if i + 1 == |w| {
        assert s[i] == w[i] && s[i + 1] == rest[0];
      } else {
        assert s[i] == rest[i - |w|] && s[i + 1] == rest[i + 1 - |w|];
      }
    }
  }

  /** A word and one whitespace character before a well-spaced string keep
      it well spaced. */
  lemma PrependWordAndSpace(w: string, c: char, rest: string)
    requires IsWord(w) && IsSpace(c) && WellSpaced(rest)
    ensures WellSpaced(w + [c] + rest)
  {
    var t := [c] + rest;
    assert w + [c] + rest == w + t;
    var s := w + t;
    forall i | 0 <= i < |s| - 1
      ensures !(IsSpace(s[i]) && IsSpace(s[i + 1]))
    {
      if i + 1 < |w| {
        assert s[i] == w[i];
      } else if i + 1 == |w| {
        assert s[i] == w[i];
      } else if i == |w| {
        assert s[i + 1] == rest[0];
      } else {
        assert s[i] == rest[i - |w| - 1] && s[i + 1] == rest[i - |w|];
      }
    }
    assert s[|s| - 1] == rest[|rest| - 1];
  }

  /** One step of `Assemble`: the first group's text, then the rest. */
  lemma AssembleStep(groups: seq<Group>, last: string)
    requires groups != []
    ensures Assemble(groups, last) == GroupText(groups[0]) + Assemble(groups[1..], last)
  {
  }

  /** Every string the pattern matches is well spaced. */
  lemma {:induction false} AssembledIsWellSpaced(groups: seq<Group>, last: string)
    requires forall i :: 0 <= i < |groups| ==> GroupOk(groups[i])
    requires IsWord(last)
    ensures WellSpaced(Assemble(groups, last))
    decreases |groups|
  {
    if groups == [] {
      assert Assemble(groups, last) == last;
      assert forall i :: 0 <= i < |last| ==> IsTitleChar(last[i]);
    } else {
      var g, tail := groups[0], groups[1..];
      assert GroupOk(g);
      assert forall i :: 0 <= i < |tail| ==> GroupOk(tail[i]) by {
        assert forall i :: 0 <= i < |tail| ==> tail[i] == groups[i + 1];
      }
      var rest := Assemble(tail, last);
      AssembledIsWellSpaced(tail, last);
      AssembleStep(groups, last);
      if g.sep.Some? {
        assert GroupText(g) + rest == g.word + [g.sep.value] + rest;
        PrependWordAndSpace(g.word, g.sep.value, rest);
      } else {
        assert GroupText(g) == g.word;
        PrependWord(g.word, rest);
      }
    }
  }

  /** Index of the first whitespace character, or the length. */
  function FirstSpace(s: string): (k: nat)
    ensures k <= |s|
    ensures forall i :: 0 <= i < k ==> !IsSpace(s[i])
    ensures k < |s| ==> IsSpace(s[k])
  {
    if s == [] then 0 else if IsSpace(s[0]) then 0 else 1 + FirstSpace(s[1..])
  }

  /** What follows a whitespace character inside a well-spaced string is
      well spaced. */
  lemma AfterSpaceIsWellSpaced(s: string, k: nat)
    requires WellSpaced(s) && k < |s| && IsSpace(s[k])
    ensures k + 1 < |s|
    ensures WellSpaced(s[k + 1..])
  {
    var rest := s[k + 1..];
    assert rest[0] == s[k + 1];
    assert rest[|rest| - 1] == s[|s| - 1];
    assert forall i :: 0 <= i < |rest| ==> rest[i] == s[k + 1 + i];
    forall i | 0 <= i < |rest| - 1
      ensures !(IsSpace(rest[i]) && IsSpace(rest[i + 1]))
    {
      assert rest[i] == s[k + 1 + i] && rest[i + 1] == s[k + 2 + i];
    }
  }

  /** The characters before the first whitespace of a well-spaced string
      form a word. */
  lemma FirstWordIsWord(s: string)
    requires WellSpaced(s)
    ensures 0 < FirstSpace(s)
    ensures IsWord(s[..FirstSpace(s)])
  {
    var k := FirstSpace(s);
    assert !IsSpace(s[0]);
    var w := s[..k];
    assert forall i :: 0 <= i < |w| ==> w[i] == s[i];
  }

  /** A group put in front of a matched string gives a matched string. */
  lemma PrependGroup(g: Group, rest: string)
    requires GroupOk(g) && MatchesPattern(rest)
    ensures MatchesPattern(GroupText(g) + rest)
  {
    var groups, last :| (forall i :: 0 <= i < |groups| ==> GroupOk(groups[i])) && IsWord(last) && Assemble(groups, last) == rest;
    var all := [g] + groups;
    assert all[1..] == groups;
    AssembleStep(all, last);
    assert forall i :: 0 <= i < |all| ==> GroupOk(all[i]);
  }

  /** A single word is matched by the pattern with no groups. */
  lemma WordMatches(w: string)
    requires IsWord(w)
    ensures MatchesPattern(w)
  {
    var none: seq<Group> := [];
    assert Assemble(none, w) == w;
  }

  /** A string is its part before position `k`, the character there, and
      the rest. */
  lemma CutAt(s: string, k: nat)
    requires k < |s|
    ensures s == s[..k] + [s[k]] + s[k + 1..]
  {
  }

  /** Every well-spaced string is matched by the pattern: cut it at its
      first whitespace character and match the rest the same way. */
  lemma {:induction false} WellSpacedMatches(s: string)
    requires WellSpaced(s)
    ensures MatchesPattern(s)
    decreases |s|
  {
    var k := FirstSpace(s);
    FirstWordIsWord(s);
    if k == |s| {
      assert s[..k] == s;
      WordMatches(s);
    } else {
      AfterSpaceIsWellSpaced(s, k);
      var rest := s[k + 1..];
      WellSpacedMatches(rest);
      var g := Group(s[..k], Some(s[k]));
      PrependGroup(g, rest);
      CutAt(s, k);
    }
  }

  /** The pattern and the character-level description accept the same
      strings. */
  lemma PatternIffWellSpaced(s: string)
    ensures MatchesPattern(s) <==> WellSpaced(s)
  {
    if MatchesPattern(s) {
      var groups, last :| (forall i :: 0 <= i < |groups| ==> GroupOk(groups[i])) && IsWord(last) && Assemble(groups, last) == s;
      AssembledIsWellSpaced(groups, last);
    }
    if WellSpaced(s) {
      WellSpacedMatches(s);
    }
  }

  /** `is_title_valid(title)`: true exactly when the pattern matches the
      whole title. */
  function IsTitleValid(title: string): (r: bool)
    ensures r <==> MatchesPattern(title)
  {
    PatternIffWellSpaced(title);
    WellSpaced(title)
  }

  /** The single-word title the tests search for passes. */
  lemma ClaymoreIsValid()
    ensures IsTitleValid("Claymore")
  {
    var s := "Claymore";
    assert forall i :: 0 <= i < |s| ==> IsTitleChar(s[i]);
  }

  /** The three-word title the tests search for passes. */
  lemma MadeInAbyssIsValid()
    ensures IsTitleValid("Made in Abyss")
  {
    var s := "Made in Abyss";
    assert forall i :: 0 <= i < |s| ==> IsTitleChar(s[i]) || s[i] == ' ';
  }

  /** A Cyrillic title with a number passes. */
  lemma CyrillicExample()
    ensures IsTitleValid("Клеймор 2")
  {
    var s := "Клеймор 2";
    assert forall i :: 0 <= i < |s| ==> IsTitleChar(s[i]) || s[i] == ' ';
  }

  /** Words separated by a tab instead of a space pass. */
  lemma TabExample()
    ensures IsTitleValid("a\tb")
  {
    assert WellSpaced("a\tb");
  }

  /** Punctuation, `ё`, the empty string and stray or doubled spaces fail. */
  lemma RejectedExamples()
    ensures !IsTitleValid("Not;.valid-title")
    ensures !IsTitleValid("")
    ensures !IsTitleValid("ёжик")
    ensures !IsTitleValid(" Claymore")
    ensures !IsTitleValid("Made  in Abyss")
  {
    assert !IsTitleChar("Not;.valid-title"[3]) && !IsSpace("Not;.valid-title"[3]);
    assert !IsTitleChar("ёжик"[0]) && !IsSpace("ёжик"[0]);
    assert IsSpace("Made  in Abyss"[4]) && IsSpace("Made  in Abyss"[5]);
  }
}
