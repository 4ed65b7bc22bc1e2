/** `generateSlug` (src/lib/utils.ts:8-13): lower-case the text, delete every
    character outside `[\w ]`, and turn each run of spaces into one hyphen.

    Without the `u` flag `\w` is the ASCII class `[A-Za-z0-9_]`, so the first two
    steps act character by character: an ASCII letter survives lower-cased, a
    digit, `_` or space survives as it is, and anything else survives only if its
    lower-case form contains an ASCII word character.  Of all of Unicode only two
    code points do: U+0130 (lower-case "i" followed by U+0307, which is then
    deleted) and U+212A KELVIN SIGN (lower-case "k"). */
module Slug {

  predicate IsWordChar(c: char) {
    ('a' <= c <= 'z') || ('A' <= c <= 'Z') || ('0' <= c <= '9') || c == '_'
  }

  /** The characters a slug is made of. */
  predicate IsSlugChar(c: char) {
    ('a' <= c <= 'z') || ('0' <= c <= '9') || c == '_' || c == '-'
  }

  /** What is left of `c.toLowerCase()` after `.replace(/[^\w ]+/g, "")`. */
  function Kept(c: char): (r: string)
    ensures |r| <= 1
    ensures forall k :: 0 <= k < |r| ==> (IsSlugChar(r[k]) && r[k] != '-') || r[k] == ' '
  {
    if 'A' <= c <= 'Z' then [(c as int + 32) as char]
    else if IsWordChar(c) || c == ' ' then [c]
    else if c == '\U{0130}' then "i"
    else if c == '\U{212A}' then "k"
    else ""
  }

  /** Steps one and two over the whole text. */
  function LowerStrip(s: string): (r: string)
    ensures |r| <= |s|
    ensures forall k :: 0 <= k < |r| ==> (IsSlugChar(r[k]) && r[k] != '-') || r[k] == ' '
  {
    if s == [] then [] else Kept(s[0]) + LowerStrip(s[1..])
  }

  /** The text after its leading run of spaces. */
  function DropSpaces(s: string): (r: string)
    ensures |r| <= |s| && r == s[|s| - |r|..]
    ensures r != [] ==> r[0] != ' '
    ensures s != [] && s[0] == ' ' ==> |r| < |s|
  {
    if s != [] && s[0] == ' ' then DropSpaces(s[1..]) else s
  }

  /** `.replace(/ +/g, "-")`. */
  function Hyphenate(s: string): (r: string)
    ensures |r| <= |s|
    decreases |s|
  {
    if s == [] then []
    else if s[0] == ' ' then "-" + Hyphenate(DropSpaces(s))
    else [s[0]] + Hyphenate(s[1..])
  }

  function GenerateSlug(text: string): string {
    Hyphenate(LowerStrip(text))
  }

  /** Hyphenating text without hyphens yields only slug characters, never a space,
      and never two hyphens in a row, and never starts with a hyphen when the text
      does not start with a space. */
  lemma {:induction false} HyphenateShape(s: string)
    requires forall k :: 0 <= k < |s| ==> (IsSlugChar(s[k]) && s[k] != '-') || s[k] == ' '
    ensures var r := Hyphenate(s);
      && (forall k :: 0 <= k < |r| ==> IsSlugChar(r[k]))
      && (forall k :: 0 <= k && k + 1 < |r| ==> !(r[k] == '-' && r[k + 1] == '-'))
      && (r != [] && r[0] == '-' ==> s[0] == ' ')
    decreases |s|
  {
    if s == [] {
    } else if s[0] == ' ' {
      var t := DropSpaces(s);
      assert forall k :: 0 <= k < |t| ==> t[k] == s[|s| - |t| + k];
      HyphenateShape(t);
      var r := Hyphenate(t);
      assert Hyphenate(s) == "-" + r;
      assert r != [] ==> r[0] != '-';
    } else {
      HyphenateShape(s[1..]);
    }
  }

  /** A slug holds only lower-case ASCII letters, digits, `_` and `-`: in
      particular no space and no upper-case letter. */
  lemma SlugCharset(text: string)
    ensures forall k :: 0 <= k < |GenerateSlug(text)| ==> IsSlugChar(GenerateSlug(text)[k])
    ensures ' ' !in GenerateSlug(text)
  {
    var r := GenerateSlug(text);
    assert r == Hyphenate(LowerStrip(text));
    HyphenateShape(LowerStrip(text));
    assert forall k :: 0 <= k < |r| ==> IsSlugChar(r[k]);
  }

  /** Each hyphen of a slug stands for a whole run of spaces (the text's own
      hyphens are deleted), so no two hyphens are adjacent. */
  lemma SlugNoDoubleHyphen(text: string)
    ensures var r := GenerateSlug(text);
      forall k :: 0 <= k && k + 1 < |r| ==> !(r[k] == '-' && r[k + 1] == '-')
  {
    var r := GenerateSlug(text);
    assert r == Hyphenate(LowerStrip(text));
    HyphenateShape(LowerStrip(text));
    assert forall k :: 0 <= k && k + 1 < |r| ==> !(r[k] == '-' && r[k + 1] == '-');
  }

  /** A slug is never longer than its text. */
  lemma SlugNoLonger(text: string)
    ensures |GenerateSlug(text)| <= |text|
  {
  }

  /** Text already made of lower-case letters, digits and `_` is its own slug. */
  lemma {:induction false} SlugOfWordIsItself(text: string)
    requires forall k :: 0 <= k < |text| ==> IsSlugChar(text[k]) && text[k] != '-'
    ensures GenerateSlug(text) == text
  {
    LowerStripOfSlugChars(text);
    DropHyphensKeeps(text);
    assert ' ' !in text;
    HyphenateWithoutSpaces(text);
  }

  function DropHyphens(s: string): (r: string) {
    if s == [] then [] else (if s[0] == '-' then [] else [s[0]]) + DropHyphens(s[1..])
  }

  lemma {:induction false} LowerStripOfSlugChars(s: string)
    requires forall k :: 0 <= k < |s| ==> IsSlugChar(s[k])
    ensures LowerStrip(s) == DropHyphens(s)
  {
    if s != [] {
      LowerStripOfSlugChars(s[1..]);
    }
  }

  lemma {:induction false} HyphenateWithoutSpaces(s: string)
    requires ' ' !in s
    ensures Hyphenate(s) == s
  {
    if s != [] {
      assert s[0] in s;
      assert forall c :: c in s[1..] ==> c in s;
      HyphenateWithoutSpaces(s[1..]);
    }
  }

  lemma {:induction false} DropHyphensKeeps(s: string)
    requires forall k :: 0 <= k < |s| ==> IsSlugChar(s[k])
    ensures ' ' !in DropHyphens(s) && '-' !in DropHyphens(s)
    ensures '-' !in s ==> DropHyphens(s) == s
  {
    if s != [] {
      DropHyphensKeeps(s[1..]);
    }
  }

  /** Slugging a slug deletes the hyphens the first pass made, so `generateSlug` is
      not idempotent on any text whose slug has a hyphen. */
  lemma SlugTwiceDropsHyphens(text: string)
    ensures GenerateSlug(GenerateSlug(text)) == DropHyphens(GenerateSlug(text))
  {
    var r := GenerateSlug(text);
    SlugCharset(text);
    LowerStripOfSlugChars(r);
    DropHyphensKeeps(r);
    HyphenateWithoutSpaces(DropHyphens(r));
  }

  /** "a b" becomes "a-b", whose slug is "ab". */
  lemma NotIdempotent()
    ensures GenerateSlug("a b") == "a-b"
    ensures GenerateSlug(GenerateSlug("a b")) == "ab"
  {
    SlugOfSpaced();
    SlugOfHyphenated();
  }

  lemma SlugOfSpaced()
    ensures GenerateSlug("a b") == "a-b"
  {
    LowerStripSpaced();
    HyphenateSpaced();
  }

  lemma LowerStripSpaced()
    ensures LowerStrip("a b") == "a b"
  {
    var t := "a b";
    assert t[1..] == " b" && t[1..][1..] == "b" && "b"[1..] == [];
    assert Kept('a') == "a" && Kept(' ') == " " && Kept('b') == "b";
    assert LowerStrip("b") == "b";
    assert LowerStrip(" b") == " b";
  }

  lemma HyphenateSpaced()
    ensures Hyphenate("a b") == "a-b"
  {
    assert "b" == ['b'] + [] && " b" == [' '] + "b" && "a b" == ['a'] + " b";
    HyphenateKeeps('b', []);
    HyphenateSpace("b");
    HyphenateKeeps('a', " b");
  }

  lemma HyphenateKeeps(c: char, t: string)
    requires c != ' '
    ensures Hyphenate([c] + t) == [c] + Hyphenate(t)
  {
    assert ([c] + t)[1..] == t;
  }

  lemma HyphenateSpace(t: string)
    requires t == [] || t[0] != ' '
    ensures Hyphenate([' '] + t) == "-" + Hyphenate(t)
  {
    assert ([' '] + t)[1..] == t;
    assert DropSpaces([' '] + t) == DropSpaces(t) == t;
  }

  lemma SlugOfHyphenated()
    ensures GenerateSlug("a-b") == "ab"
  {
    var t := "a-b";
    assert t[1..] == "-b" && t[1..][1..] == "b" && "b"[1..] == [];
    assert Kept('a') == "a" && Kept('-') == "" && Kept('b') == "b";
    assert LowerStrip("b") == "b";
    assert LowerStrip("-b") == "b";
    assert LowerStrip(t) == "ab";
    var u := "ab";
    assert u[1..] == "b";
    assert Hyphenate("b") == "b";
    assert Hyphenate(u) == u;
  }
}
