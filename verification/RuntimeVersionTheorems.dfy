/** Normalising is idempotent, and undoes the release tag. */
module RuntimeVersionTheorems {
  import opened Strings
  import opened Wrappers
  import opened RuntimeVersions

  predicate EndsInDigit(s: string) {
    s != "" && IsDigit(s[|s| - 1])
  }

  /** The digits at the end of `a + d` are `d`. */
  lemma {:induction false} TrailingDigits(a: string, d: string)
    requires !EndsInDigit(a) && forall i :: 0 <= i < |d| ==> IsDigit(d[i])
    ensures DigitStart(a + d) == |a| && (a + d)[..|a|] == a && (a + d)[|a|..] == d
    decreases |d|
  {
    if d == "" {
      assert a + d == a;
    } else {
      TrailingDigits(a, d[..|d| - 1]);
      assert (a + d)[..|a + d| - 1] == a + d[..|d| - 1];
    }
  }

  lemma EndsWithItself(a: string, w: string)
    ensures EndsWith(a + w, w) && (a + w)[..|a|] == a
  {
  }

  lemma EndingAt(s: string, w: string, i: nat)
    requires EndsWith(s, w) && i < |w|
    ensures s[|s| - |w| + i] == w[i]
  {
    assert s[|s| - |w|..][i] == s[|s| - |w| + i];
  }

  lemma OtherEnding(a: string, w: string)
    requires w != "" && (a == "" || a[|a| - 1] != w[|w| - 1])
    ensures !EndsWith(a, w)
  {
  }

  // ---- the parser undoes the printer ----

  function Front(v: Version): string {
    v.core + v.pre + v.preNumber
  }

  lemma DigitsThenNothingElse(s: string, k: nat)
    requires IsCore(s) && k <= |s|
    ensures s[..k] == "" || IsDigit(s[..k][k - 1]) || s[..k][k - 1] == '.'
  {
  }

  lemma ParsePreOfCore(core: string, post: string)
    requires IsCore(core)
    ensures ParsePre(core, post) == Version(core, "", "", post)
  {
    hide DigitStart, IsCore;
    var k := DigitStart(core);
    DigitsThenNothingElse(core, k);
    OtherEnding(core[..k], "rc");
    OtherEnding(core[..k], "a");
    OtherEnding(core[..k], "b");
  }

  lemma ParsePreOfPre(core: string, pre: string, number: string, post: string)
    requires (pre == "a" || pre == "b" || pre == "rc") && Digits(number)
    ensures ParsePre(core + pre + number, post) == Version(core, pre, number, post)
  {
    hide DigitStart, IsCore;
    TrailingDigits(core + pre, number);
    EndsWithItself(core, pre);
    if pre != "rc" {
      OtherEnding(core + pre, "rc");
      OtherEnding(core + pre, if pre == "a" then "b" else "a");
    }
  }

  lemma ParsePrePrint(v: Version)
    requires Valid(v)
    ensures ParsePre(Front(v), v.post) == v
  {
    hide DigitStart, IsCore, Digits, ParsePre;
    if v.pre == "" {
      assert Front(v) == v.core;
      ParsePreOfCore(v.core, v.post);
    } else {
      ParsePreOfPre(v.core, v.pre, v.preNumber, v.post);
    }
  }

  lemma FrontHasNoPost(v: Version)
    requires Valid(v)
    ensures !EndsWith(Front(v)[..DigitStart(Front(v))], ".post")
  {
    hide DigitStart;
    var s := Front(v);
    if v.pre == "" {
      assert s == v.core;
      DigitsThenNothingElse(s, DigitStart(s));
      OtherEnding(s[..DigitStart(s)], ".post");
    } else {
      TrailingDigits(v.core + v.pre, v.preNumber);
      OtherEnding(v.core + v.pre, ".post");
    }
  }

  lemma ParsePrint(v: Version)
    requires Valid(v)
    ensures Parse(Print(v)) == Some(v)
  {
    hide DigitStart, ParsePre, Valid;
    ParsePrePrint(v);
    if v.post == "" {
      assert Print(v) == Front(v);
      FrontHasNoPost(v);
    } else {
      assert Digits(v.post) by { assert Valid(v); PostIsNumber(v); }
      assert Print(v) == (Front(v) + ".post") + v.post;
      TrailingDigits(Front(v) + ".post", v.post);
      EndsWithItself(Front(v), ".post");
    }
  }

  lemma PostIsNumber(v: Version)
    requires Valid(v)
    ensures v.post == "" || Digits(v.post)
  {
  }

  // ---- text without a dash is not rewritten ----

  lemma WithoutWordNeedsDash(s: string, word: string)
    requires '-' !in s
    ensures WithoutWord(s, word).None?
  {
    var t := if EndsWith(s, ".") then s[..|s| - 1] else s;
    if EndsWith(t, "-" + word) {
      EndingAt(t, "-" + word, 0);
    }
  }

  lemma ReplaceNeedsDash(r: Replacement, s: string)
    requires '-' !in s
    ensures Replace(r, s) == s
  {
    hide DigitStart, WithoutWord;
    var k := DigitStart(s);
    WithoutWordNeedsDash(s[..k], r.word);
    if k > 0 {
      var t := s[..k - 1];
      WithoutWordNeedsDash(t[..DigitStart(t)], r.word);
    }
  }

  lemma FourReplacements(s: string)
    ensures ReplaceAll(REPLACEMENTS, s)
         == Replace(REPLACEMENTS[3], Replace(REPLACEMENTS[2], Replace(REPLACEMENTS[1], Replace(REPLACEMENTS[0], s))))
  {
    hide Replace;
    var rs := REPLACEMENTS;
    var s1 := Replace(rs[0], s);
    var s2 := Replace(rs[1], s1);
    var s3 := Replace(rs[2], s2);
    assert rs[1..][1..] == rs[2..] && rs[2..][1..] == rs[3..] && rs[3..][1..] == [];
    assert ReplaceAll([], Replace(rs[3], s3)) == Replace(rs[3], s3);
    assert ReplaceAll(rs[3..], s3) == ReplaceAll([], Replace(rs[3], s3));
    assert ReplaceAll(rs[2..], s2) == ReplaceAll(rs[3..], s3);
    assert ReplaceAll(rs[1..], s1) == ReplaceAll(rs[2..], s2);
  }

  lemma DashlessIsKept(s: string)
    requires '-' !in s
    ensures ReplaceAll(REPLACEMENTS, s) == s
  {
    hide Replace, ReplaceAll;
    FourReplacements(s);
    ReplaceNeedsDash(REPLACEMENTS[0], s);
    ReplaceNeedsDash(REPLACEMENTS[1], s);
    ReplaceNeedsDash(REPLACEMENTS[2], s);
    ReplaceNeedsDash(REPLACEMENTS[3], s);
  }

  /** A printed version has no dash, no space at its ends, and no prefix to strip. */
  lemma PrintIsPlain(v: Version)
    requires Valid(v)
    ensures var s := Print(v); '-' !in s && s != "" && IsDigit(s[0]) && IsDigit(s[|s| - 1])
  {
    var s := Print(v);
    assert s[0] == v.core[0];
    forall i | 0 <= i < |s|
      ensures s[i] != '-'
    {
      var c, p, n := |v.core|, |v.pre|, |v.preNumber|;
      if i < c {
        assert s[i] == v.core[i];
      } else if i < c + p {
        assert s[i] == v.pre[i - c];
      } else if i < c + p + n {
        assert s[i] == v.preNumber[i - c - p];
      } else if i < c + p + n + 5 {
        assert s[i] == ".post"[i - c - p - n];
      } else {
        assert s[i] == v.post[i - c - p - n - 5];
      }
    }
  }

  lemma PrintIsNormal(v: Version)
    requires Valid(v)
    ensures Normalize(Print(v)) == Ok(Print(v))
  {
    hide ReplaceAll, Parse, Print;
    PrintIsPlain(v);
    ParsePrint(v);
    DashlessIsKept(Print(v));
  }

  lemma NormalIsPrinted(version: string)
    requires Normalize(version).Ok?
    ensures var n := Normalize(version).value;
      Parse(n).Some? && Valid(Parse(n).value) && Print(Parse(n).value) == n
  {
    hide ReplaceAll, ParsePre;
  }

  /** Normalising a normalised version changes nothing. */
  lemma NormalizeIsIdempotent(version: string)
    requires Normalize(version).Ok?
    ensures Normalize(Normalize(version).value) == Normalize(version)
  {
    hide Normalize, Parse, Print, Valid;
    NormalIsPrinted(version);
    PrintIsNormal(Parse(Normalize(version).value).value);
  }

  // ---- the release tag ----

  /** Between the word and its number there may be a dot. */
  predicate IsDot(sep: string) {
    sep == "." || sep == ""
  }

  lemma WordIsCut(core: string, word: string, sep: string)
    requires word != "" && word[|word| - 1] != '.' && IsDot(sep)
    ensures WithoutWord(core + "-" + word + sep, word) == Some(core)
  {
    var s := core + "-" + word + sep;
    EndsWithItself(core + "-" + word, ".");
    assert core + "-" + word == core + ("-" + word);
    if sep == "" {
      assert s == core + "-" + word;
      OtherEnding(s, ".");
    }
    EndsWithItself(core, "-" + word);
  }

  lemma AlphaHotfix(core: string, sep: string, p: string, q: string)
    requires Digits(p) && Digits(q) && IsDot(sep)
    ensures Replace(REPLACEMENTS[0], core + "-alpha" + sep + p + "." + q) == core + "a" + p + ".post" + q
  {
    hide DigitStart, WithoutWord;
    var t := core + "-alpha" + sep;
    var s := (t + p + ".") + q;
    assert core + "-alpha" + sep + p + "." + q == s;
    TrailingDigits(t + p + ".", q);
    EndsWithItself(t + p, ".");
    assert s[..DigitStart(s) - 1] == t + p;
    TrailingDigits(t, p);
    WordIsCut(core, "alpha", sep);
    assert core + "-" + "alpha" + sep == t;
    assert WithoutWord(t, REPLACEMENTS[0].word) == Some(core);
  }

  /** Of a version with one number behind the word only the word's own replacement takes hold. */
  lemma NoHotfix(core: string, word: string, sep: string, p: string)
    requires Digits(p) && word != "" && IsLetter(word[|word| - 1]) && IsDot(sep)
    ensures Replace(REPLACEMENTS[0], core + "-" + word + sep + p) == core + "-" + word + sep + p
  {
    hide DigitStart, WithoutWord;
    var t := core + "-" + word;
    var s := (t + sep) + p;
    assert core + "-" + word + sep + p == s;
    TrailingDigits(t + sep, p);
    if sep == "." {
      EndsWithItself(t, ".");
      TrailingDigits(t, "");
      assert t + "" == t && s[..DigitStart(s) - 1] == t;
    } else {
      assert t + sep == t;
    }
  }

  lemma WordReplaced(i: nat, core: string, sep: string, p: string)
    requires 0 < i < |REPLACEMENTS| && Digits(p) && IsDot(sep)
    ensures var r := REPLACEMENTS[i];
      Replace(r, core + "-" + r.word + sep + p) == core + r.short + p
  {
    hide DigitStart, WithoutWord;
    var r := REPLACEMENTS[i];
    TrailingDigits(core + "-" + r.word + sep, p);
    WordIsCut(core, r.word, sep);
  }

  lemma OtherWordKept(i: nat, core: string, word: string, sep: string, p: string)
    requires 0 < i < |REPLACEMENTS| && Digits(p) && IsDot(sep)
    requires (word == "beta" && i == 1) || (word == "rc" && (i == 1 || i == 2))
    ensures Replace(REPLACEMENTS[i], core + "-" + word + sep + p) == core + "-" + word + sep + p
  {
    hide DigitStart, WithoutWord;
    var r := REPLACEMENTS[i];
    TrailingDigits(core + "-" + word + sep, p);
    OtherWordNotCut(core, word, sep, r.word);
  }

  lemma OtherWordNotCut(core: string, word: string, sep: string, other: string)
    requires (word == "beta" && other == "alpha") || (word == "rc" && (other == "alpha" || other == "beta"))
    requires IsDot(sep)
    ensures WithoutWord(core + "-" + word + sep, other) == None
  {
    var t := core + "-" + word;
    EndsWithItself(t, ".");
    assert sep == "" ==> t + sep == t;
    var w := "-" + other;
    assert t[|t| - 1] == word[|word| - 1] && t[|t| - 2] == word[|word| - 2];
    assert w[|w| - 1] == other[|other| - 1] && w[|w| - 2] == other[|other| - 2];
    var i: nat := if word == "rc" then |w| - 1 else |w| - 2;
    if EndsWith(t, w) {
      EndingAt(t, w, i);
    }
  }

  lemma WordCase(core: string, word: string, sep: string, p: string)
    requires Digits(p) && '-' !in core && (word == "alpha" || word == "beta" || word == "rc") && IsDot(sep)
    ensures ReplaceAll(REPLACEMENTS, core + "-" + word + sep + p)
         == core + (if word == "alpha" then "a" else if word == "beta" then "b" else word) + p
  {
    hide Replace, ReplaceAll;
    var s := core + "-" + word + sep + p;
    FourReplacements(s);
    NoHotfix(core, word, sep, p);
    var short := core + (if word == "alpha" then "a" else if word == "beta" then "b" else word) + p;
    assert '-' !in short;
    ReplaceNeedsDash(REPLACEMENTS[2], short);
    ReplaceNeedsDash(REPLACEMENTS[3], short);
    if word == "alpha" {
      WordReplaced(1, core, sep, p);
    } else {
      OtherWordKept(1, core, word, sep, p);
      if word == "beta" {
        WordReplaced(2, core, sep, p);
      } else {
        OtherWordKept(2, core, word, sep, p);
        WordReplaced(3, core, sep, p);
      }
    }
  }

  lemma HotfixCase(core: string, sep: string, p: string, q: string)
    requires Digits(p) && Digits(q) && '-' !in core && IsDot(sep)
    ensures ReplaceAll(REPLACEMENTS, core + "-alpha" + sep + p + "." + q) == core + "a" + p + ".post" + q
  {
    hide Replace, ReplaceAll;
    FourReplacements(core + "-alpha" + sep + p + "." + q);
    AlphaHotfix(core, sep, p, q);
    var short := core + "a" + p + ".post" + q;
    assert '-' !in short;
    ReplaceNeedsDash(REPLACEMENTS[1], short);
    ReplaceNeedsDash(REPLACEMENTS[2], short);
    ReplaceNeedsDash(REPLACEMENTS[3], short);
  }

  lemma CoreHasNoDash(core: string)
    requires IsCore(core)
    ensures '-' !in core
  {
  }

  /** The replacements turn a release version back into the normalised form. */
  lemma ReleaseIsReplaced(v: Version)
    requires Valid(v)
    ensures ReplaceAll(REPLACEMENTS, ReleaseOf(v)) == Print(v)
  {
    hide ReplaceAll, IsCore;
    CoreHasNoDash(v.core);
    if v.pre == "a" && v.post != "" {
      HotfixCase(v.core, ".", v.preNumber, v.post);
      assert v.core + "-alpha" + "." + v.preNumber + "." + v.post == ReleaseOf(v);
    } else if v.pre != "" && v.post == "" {
      WordCase(v.core, LongName(v.pre), ".", v.preNumber);
      assert v.core + "-" + LongName(v.pre) + "." + v.preNumber == ReleaseOf(v);
    } else {
      PrintIsPlain(v);
      DashlessIsKept(Print(v));
    }
  }

  lemma ReleaseEndsInDigit(v: Version)
    requires Valid(v)
    ensures EndsInDigit(ReleaseOf(v))
  {
    PrintIsPlain(v);
  }

  lemma TagIsStripped(s: string)
    requires EndsInDigit(s)
    ensures StripPrefix(TrimRight(TrimLeft(TAG_PREFIX + s))) == s
  {
    var t := TAG_PREFIX + s;
    assert t[0] == 'r' && t[|t| - 1] == s[|s| - 1];
    assert TrimLeft(t) == t && TrimRight(t) == t;
  }

  /** Normalising the release tag of an accepted version gives the version's normalised form. */
  lemma TagRoundTrip(version: string)
    requires Normalize(version).Ok?
    ensures ReleaseTag(version).Ok?
    ensures Normalize(ReleaseTag(version).value) == Normalize(version)
  {
    hide ReplaceAll, Parse, Print, Valid, ReleaseOf;
    NormalIsPrinted(version);
    var v := Parse(Normalize(version).value).value;
    ReleaseEndsInDigit(v);
    TagIsStripped(ReleaseOf(v));
    ReleaseIsReplaced(v);
  }

  /** So versions with different normalised forms have different release tags, and rejected ones have none. */
  lemma TagsAreDistinct(a: string, b: string)
    ensures ReleaseTag(a).Ok? <==> Normalize(a).Ok?
    ensures ReleaseTag(a).Ok? && ReleaseTag(b).Ok? ==>
      (ReleaseTag(a) == ReleaseTag(b) <==> Normalize(a) == Normalize(b))
  {
    hide Normalize, Parse, ReleaseOf;
    if Normalize(a).Ok? {
      TagRoundTrip(a);
    }
    if Normalize(b).Ok? {
      TagRoundTrip(b);
    }
  }
}
