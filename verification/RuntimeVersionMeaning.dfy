/** Which texts are versions, and what they and their release tags become, written out. */
module RuntimeVersionMeaning {
  import opened RuntimeVersions
  import opened RuntimeVersionTheorems
  import opened Strings
  import opened Wrappers

  predicate White(c: char) {
    c in {' ', '\t', '\n', '\r', 11 as char, 12 as char}
  }

  predicate Blank(s: string) {
    forall c <- s :: White(c)
  }

  lemma {:induction false} LeftIsTrimmed(a: string, s: string)
    requires Blank(a) && s != "" && !IsSpace(s[0])
    ensures TrimLeft(a + s) == s
  {
    if a == "" {
      assert a + s == s;
    } else {
      assert White(a[0]) && forall c <- a[1..] :: c in a;
      assert (a + s)[1..] == a[1..] + s;
      LeftIsTrimmed(a[1..], s);
    }
  }

  lemma {:induction false} RightIsTrimmed(s: string, b: string)
    requires Blank(b) && s != "" && !IsSpace(s[|s| - 1])
    ensures TrimRight(s + b) == s
    decreases |b|
  {
    if b == "" {
      assert s + b == s;
    } else {
      assert White(b[|b| - 1]) && forall c <- b[..|b| - 1] :: c in b;
      assert (s + b)[..|s + b| - 1] == s + b[..|b| - 1];
      RightIsTrimmed(s, b[..|b| - 1]);
    }
  }

  /** A version text: it starts with a digit and does not end in a blank. */
  predicate Plain(s: string) {
    s != "" && IsDigit(s[0]) && !IsSpace(s[|s| - 1])
  }

  /** White space around a version is dropped, and so is "v" or "rust-v" in front of it. */
  lemma PrefixIsStripped(a: string, prefix: string, s: string, b: string)
    requires Blank(a) && Blank(b) && Plain(s) && prefix in {"", "v", "rust-v"}
    ensures StripPrefix(TrimRight(TrimLeft(a + prefix + s + b))) == s
    ensures Normalize(a + prefix + s + b) == Normalize(s)
  {
    hide TrimLeft, TrimRight, ReplaceAll, Parse;
    TrimmedPrefix(a, prefix, s, b);
    TrimmedPrefix("", "", s, "");
    assert "" + "" + s + "" == s;
  }

  lemma TrimmedPrefix(a: string, prefix: string, s: string, b: string)
    requires Blank(a) && Blank(b) && Plain(s) && prefix in {"", "v", "rust-v"}
    ensures StripPrefix(TrimRight(TrimLeft(a + prefix + s + b))) == s
  {
    hide TrimLeft, TrimRight, Blank;
    assert a + prefix + s + b == a + (prefix + s + b);
    assert (prefix + s + b)[0] in {'v', 'r'} || (prefix + s + b)[0] == s[0];
    LeftIsTrimmed(a, prefix + s + b);
    assert (prefix + s)[|prefix + s| - 1] == s[|s| - 1];
    RightIsTrimmed(prefix + s, b);
    if prefix == "" {
      assert prefix + s == s;
      assert !("v" <= s) && !(TAG_PREFIX <= s);
    } else {
      assert (prefix + s)[|prefix|..] == s && (prefix + s)[..|prefix|] == prefix;
      assert prefix == "v" ==> (prefix + s)[1] != 'u';
    }
  }

  // ---- cores ----

  /** Numbers with single dots between them, read from the left. */
  ghost predicate Dotted(s: string) {
    Digits(s) || exists i :: 0 < i < |s| && s[i] == '.' && Digits(s[..i]) && Dotted(s[i + 1..])
  }

  lemma DotJoins(number: string, core: string)
    requires Digits(number) && IsCore(core)
    ensures IsCore(number + "." + core)
  {
    var n, s := |number|, number + "." + core;
    assert forall j :: 0 <= j < n ==> s[j] == number[j];
    assert forall j :: n < j < |s| ==> s[j] == core[j - n - 1];
  }

  lemma DigitsAreCore(s: string)
    requires Digits(s)
    ensures IsCore(s)
  {
  }

  lemma {:induction false} DottedIsCore(s: string)
    requires Dotted(s)
    ensures IsCore(s)
  {
    hide IsCore, Digits;
    if Digits(s) {
      DigitsAreCore(s);
    } else {
      var i :| 0 < i < |s| && s[i] == '.' && Digits(s[..i]) && Dotted(s[i + 1..]);
      DottedIsCore(s[i + 1..]);
      DotJoins(s[..i], s[i + 1..]);
      assert s == s[..i] + "." + s[i + 1..];
    }
  }

  lemma {:induction false} CoreIsDotted(s: string)
    requires IsCore(s)
    ensures Dotted(s)
  {
    if !Digits(s) {
      var dot :| 0 <= dot < |s| && !IsDigit(s[dot]);
      var i := 0;
      while s[i] != '.'
        invariant 0 <= i <= dot && forall j :: 0 <= j < i ==> IsDigit(s[j])
        decreases dot - i
      {
        i := i + 1;
      }
      assert Digits(s[..i]);
      var rest := s[i + 1..];
      assert IsDigit(s[i + 1]) && rest[0] == s[i + 1] && rest[|rest| - 1] == s[|s| - 1];
      CoreIsDotted(rest);
    }
  }

  lemma CoreIffDotted(s: string)
    ensures IsCore(s) <==> Dotted(s)
  {
    if IsCore(s) {
      CoreIsDotted(s);
    } else if Dotted(s) {
      DottedIsCore(s);
    }
  }

  // ---- the forms ----

  predicate Decimal(c: char) {
    c in {'0', '1', '2', '3', '4', '5', '6', '7', '8', '9'}
  }

  predicate Number(s: string) {
    s != "" && forall c <- s :: Decimal(c)
  }

  lemma NumberIsDigits(s: string)
    ensures Number(s) <==> Digits(s)
  {
    if Digits(s) {
      forall c <- s
        ensures Decimal(c)
      {
        var i :| 0 <= i < |s| && s[i] == c;
        assert IsDigit(s[i]);
      }
    } else if Number(s) {
      forall i | 0 <= i < |s|
        ensures IsDigit(s[i])
      {
        assert Decimal(s[i]);
      }
    }
  }

  /** A version: numbers with dots, then perhaps a, b or rc and a number, then perhaps a hotfix number. */
  ghost predicate IsVersion(v: Version) {
    && Dotted(v.core)
    && ((v.pre == "" && v.preNumber == "") || (v.pre in {"a", "b", "rc"} && Number(v.preNumber)))
    && (v.post == "" || Number(v.post))
  }

  lemma ValidMeans(v: Version)
    ensures Valid(v) <==> IsVersion(v)
  {
    hide IsCore, Dotted, Digits, Number;
    CoreIffDotted(v.core);
    NumberIsDigits(v.preNumber);
    NumberIsDigits(v.post);
  }

  /** The normal form. */
  ghost predicate Normal(v: Version, s: string) {
    s == v.core + v.pre + v.preNumber + (if v.post == "" then "" else ".post" + v.post)
  }

  /** A dash, a word, perhaps a dot, and the prerelease number. */
  ghost predicate Worded(v: Version, front: string, word: string, s: string) {
    v.post == "" && exists sep | sep in {"", "."} :: s == front + "-" + word + sep + v.preNumber
  }

  ghost predicate Hotfix(v: Version, s: string) {
    v.pre == "a" && v.post != "" && exists sep | sep in {"", "."} :: s == v.core + "-alpha" + sep + v.preNumber + "." + v.post
  }

  /**
    The texts that stand for a version: its normal form, a release form, and one more that comes of applying
    the replacements one after the other, because "-bet" and the "a" that is left of "-alpha" make "-beta".
   */
  ghost predicate Spells(v: Version, s: string) {
    || Normal(v, s)
    || (v.pre == "a" && Worded(v, v.core, "alpha", s))
    || (v.pre == "b" && Worded(v, v.core, "beta", s))
    || (v.pre == "rc" && Worded(v, v.core, "rc", s))
    || (v.pre == "b" && Worded(v, v.core + "-bet", "alpha", s))
    || Hotfix(v, s)
  }

  // ---- one replacement, backwards ----

  /** What a text ends in, apart from the digits at its end, is determined by it. */
  lemma SameTail(a: string, d: string, b: string, e: string)
    requires a + d == b + e && !EndsInDigit(a) && !EndsInDigit(b)
    requires forall c <- d + e :: IsDigit(c)
    ensures a == b && d == e
  {
    TailIsDigits(a, d);
    TailIsDigits(b, e);
  }

  lemma TailIsDigits(a: string, d: string)
    requires !EndsInDigit(a) && forall c <- d :: IsDigit(c)
    ensures DigitStart(a + d) == |a| && (a + d)[..|a|] == a && (a + d)[|a|..] == d
  {
    forall i | 0 <= i < |d|
      ensures IsDigit(d[i])
    {
      assert d[i] in d;
    }
    TrailingDigits(a, d);
  }

  /** A replacement that changes the text found its word in front of the number at the end. */
  lemma WordFound(i: nat, s: string) returns (front: string, sep: string, p: string)
    requires 0 < i < |REPLACEMENTS| && Replace(REPLACEMENTS[i], s) != s
    ensures sep in {"", "."} && Digits(p)
    ensures s == front + "-" + REPLACEMENTS[i].word + sep + p
    ensures Replace(REPLACEMENTS[i], s) == front + REPLACEMENTS[i].short + p
  {
    hide WithoutWord, DigitStart;
    var r := REPLACEMENTS[i];
    var k := DigitStart(s);
    p := s[k..];
    DigitsBehind(s);
    front, sep := CutWord(s[..k], r.word);
    assert s == s[..k] + p;
  }

  lemma {:induction false} DigitsBehind(s: string)
    ensures var k := DigitStart(s); (forall i :: k <= i < |s| ==> IsDigit(s[i])) && !EndsInDigit(s[..k])
  {
    if s != "" && IsDigit(s[|s| - 1]) {
      DigitsBehind(s[..|s| - 1]);
    }
    assert s[..|s|] == s;
  }

  lemma CutWord(s: string, word: string) returns (front: string, sep: string)
    requires WithoutWord(s, word).Some?
    ensures sep in {"", "."} && s == front + "-" + word + sep && WithoutWord(s, word) == Some(front)
  {
    front := WithoutWord(s, word).value;
    if EndsWith(s, ".") {
      sep := ".";
      assert s == s[..|s| - 1] + ".";
    } else {
      sep := "";
    }
    var t := if EndsWith(s, ".") then s[..|s| - 1] else s;
    assert t == t[..|t| - 1 - |word|] + ("-" + word);
    assert t == front + "-" + word;
  }

  /** The same for a hotfix. */
  lemma HotfixFound(s: string) returns (front: string, sep: string, p: string, q: string)
    requires Replace(REPLACEMENTS[0], s) != s
    ensures sep in {"", "."} && Digits(p) && Digits(q)
    ensures s == front + "-alpha" + sep + p + "." + q
    ensures Replace(REPLACEMENTS[0], s) == front + "a" + p + ".post" + q
  {
    hide DigitStart, WithoutWord;
    var k := DigitStart(s);
    q := s[k..];
    DigitsBehind(s);
    var t := s[..k - 1];
    assert s == t + "." + q by {
      assert s == s[..k] + q && s[..k] == t + ".";
    }
    var j := DigitStart(t);
    p := t[j..];
    DigitsBehind(t);
    assert t == t[..j] + p;
    front, sep := CutWord(t[..j], "alpha");
    assert front + "-" + "alpha" + sep == front + "-alpha" + sep;
  }

  /** A printed version that ends in a prerelease is that prerelease. */
  lemma PreOfPrint(v: Version, front: string, short: string, p: string)
    requires Valid(v) && short in {"a", "b", "rc"} && Digits(p) && Print(v) == front + short + p
    ensures v == Version(front, short, p, "")
  {
    hide DigitStart, ParsePre, Valid, Print;
    ParsePrint(v);
    TrailingDigits(front + short, p);
    OtherEnding(front + short, ".post");
    ParsePreOfPre(front, short, p, "");
  }

  lemma HotfixOfPrint(v: Version, front: string, p: string, q: string)
    requires Valid(v) && Digits(p) && Digits(q) && Print(v) == front + "a" + p + ".post" + q
    ensures v == Version(front, "a", p, q)
  {
    hide DigitStart, ParsePre, Valid, Print;
    ParsePrint(v);
    TrailingDigits(front + "a" + p + ".post", q);
    EndsWithItself(front + "a" + p, ".post");
    var s := front + "a" + p + ".post" + q;
    assert s[..DigitStart(s)] == front + "a" + p + ".post" && s[..DigitStart(s) - 5] == front + "a" + p;
    ParsePreOfPre(front, "a", p, q);
  }

  lemma WordStep(i: nat, s: string, v: Version)
    requires 0 < i < |REPLACEMENTS| && Valid(v) && Replace(REPLACEMENTS[i], s) == Print(v)
    ensures s == Print(v) || (v.pre == REPLACEMENTS[i].short && Worded(v, v.core, REPLACEMENTS[i].word, s))
  {
    hide Replace, Print, Valid;
    if s != Print(v) {
      var front, sep, p := WordFound(i, s);
      PreOfPrint(v, front, REPLACEMENTS[i].short, p);
    }
  }

  lemma HotfixStep(s: string, v: Version)
    requires Valid(v) && Replace(REPLACEMENTS[0], s) == Print(v)
    ensures s == Print(v) || Hotfix(v, s)
  {
    hide Replace, Print, Valid;
    if s != Print(v) {
      var front, sep, p, q := HotfixFound(s);
      HotfixOfPrint(v, front, p, q);
    }
  }

  /** A text whose number follows another letter is not the result of this replacement. */
  lemma NotReplaced(i: nat, s: string, a: string, d: string)
    requires i < |REPLACEMENTS| && Replace(REPLACEMENTS[i], s) == a + d && Digits(d) && a != "" && !EndsInDigit(a)
    requires a[|a| - 1] != if i == 0 then 't' else if i == 1 then 'a' else if i == 2 then 'b' else 'c'
    ensures s == a + d
  {
    hide Replace;
    if s != a + d {
      var front, sep, p, q;
      if i == 0 {
        front, sep, p, q := HotfixFound(s);
        front := front + "a" + p + ".post";
        p := q;
      } else {
        front, sep, p := WordFound(i, s);
        front := front + REPLACEMENTS[i].short;
      }
      SameTail(a, d, front, p);
    }
  }

  /** The one way to a longer word: "-bet" before "-alpha". */
  lemma BetaFromAlpha(s: string, v: Version, sep: string)
    requires sep in {"", "."} && Digits(v.preNumber) && v.post == ""
    requires Replace(REPLACEMENTS[1], s) == v.core + "-beta" + sep + v.preNumber
    ensures s == v.core + "-beta" + sep + v.preNumber || Worded(v, v.core + "-bet", "alpha", s)
  {
    hide Replace;
    var u := v.core + "-beta" + sep;
    if s != u + v.preNumber {
      var front, dot, p := WordFound(1, s);
      SameTail(u, v.preNumber, front + "a", p);
      assert sep == "";
      assert front == (front + "a")[..|front|] == v.core + "-bet";
    }
  }

  lemma WordsAreSpelled(s: string, v: Version)
    requires Valid(v) && ReplaceAll(REPLACEMENTS, s) == Print(v)
    ensures Spells(v, s)
  {
    hide Replace, ReplaceAll, Valid, Hotfix, Print;
    FourReplacements(s);
    PrintMeans(v);
    var s1 := Replace(REPLACEMENTS[0], s);
    var s2 := Replace(REPLACEMENTS[1], s1);
    var s3 := Replace(REPLACEMENTS[2], s2);
    WordStep(3, s3, v);
    if s3 == Print(v) {
      WordStep(2, s2, v);
      if s2 == Print(v) {
        WordStep(1, s1, v);
        if s1 == Print(v) {
          HotfixStep(s, v);
        } else {
          AlphaSpelled(s, v);
        }
      } else {
        BetaSpelled(s, v);
      }
    } else {
      RcSpelled(s, v);
    }
  }

  lemma PrintMeans(v: Version)
    ensures Normal(v, Print(v)) && forall s :: Normal(v, s) <==> s == Print(v)
    ensures Valid(v) && v.pre != "" ==> Digits(v.preNumber)
  {
  }

  /** Words with one number are none of the hotfix replacement's results. */
  lemma KeptByHotfix(s: string, v: Version, word: string)
    requires Digits(v.preNumber) && word in {"-alpha", "-beta", "-rc", "-bet-alpha"}
    requires exists sep | sep in {"", "."} :: Replace(REPLACEMENTS[0], s) == v.core + word + sep + v.preNumber
    ensures s == Replace(REPLACEMENTS[0], s)
  {
    hide Replace;
    var sep :| sep in {"", "."} && Replace(REPLACEMENTS[0], s) == v.core + word + sep + v.preNumber;
    NotReplaced(0, s, v.core + word + sep, v.preNumber);
  }

  lemma RcSpelled(s: string, v: Version)
    requires Digits(v.preNumber)
    requires var s3 := Replace(REPLACEMENTS[2], Replace(REPLACEMENTS[1], Replace(REPLACEMENTS[0], s)));
      v.pre == "rc" && Worded(v, v.core, "rc", s3)
    ensures Worded(v, v.core, "rc", s)
  {
    hide Replace;
    var s1 := Replace(REPLACEMENTS[0], s);
    var s2 := Replace(REPLACEMENTS[1], s1);
    var sep :| sep in {"", "."} && Replace(REPLACEMENTS[2], s2) == v.core + "-" + "rc" + sep + v.preNumber;
    var a := v.core + "-" + "rc" + sep;
    NotReplaced(2, s2, a, v.preNumber);
    NotReplaced(1, s1, a, v.preNumber);
    NotReplaced(0, s, a, v.preNumber);
  }

  lemma AlphaSpelled(s: string, v: Version)
    requires Digits(v.preNumber) && Worded(v, v.core, "alpha", Replace(REPLACEMENTS[0], s))
    ensures Worded(v, v.core, "alpha", s)
  {
    hide Replace;
    var sep :| sep in {"", "."} && Replace(REPLACEMENTS[0], s) == v.core + "-" + "alpha" + sep + v.preNumber;
    assert Replace(REPLACEMENTS[0], s) == v.core + "-alpha" + sep + v.preNumber;
    KeptByHotfix(s, v, "-alpha");
  }

  lemma BetaSpelled(s: string, v: Version)
    requires Digits(v.preNumber)
    requires var s2 := Replace(REPLACEMENTS[1], Replace(REPLACEMENTS[0], s));
      v.pre == "b" && Worded(v, v.core, "beta", s2)
    ensures Worded(v, v.core, "beta", s) || Worded(v, v.core + "-bet", "alpha", s)
  {
    hide Replace;
    var s1 := Replace(REPLACEMENTS[0], s);
    var sep :| sep in {"", "."} && Replace(REPLACEMENTS[1], s1) == v.core + "-" + "beta" + sep + v.preNumber;
    assert v.core + "-" + "beta" + sep + v.preNumber == v.core + "-beta" + sep + v.preNumber;
    BetaFromAlpha(s1, v, sep);
    if s1 == v.core + "-beta" + sep + v.preNumber {
      KeptByHotfix(s, v, "-beta");
    } else {
      var dot :| dot in {"", "."} && s1 == v.core + "-bet" + "-" + "alpha" + dot + v.preNumber;
      assert s1 == v.core + "-bet-alpha" + dot + v.preNumber;
      KeptByHotfix(s, v, "-bet-alpha");
    }
  }

  lemma SpellingIsReplaced(s: string, v: Version)
    requires Valid(v) && Spells(v, s)
    ensures ReplaceAll(REPLACEMENTS, s) == Print(v)
  {
    hide ReplaceAll, IsCore, Digits;
    CoreHasNoDash(v.core);
    PrintMeans(v);
    if Normal(v, s) {
      PrintIsPlain(v);
      DashlessIsKept(s);
    } else if Hotfix(v, s) {
      var sep :| sep in {"", "."} && s == v.core + "-alpha" + sep + v.preNumber + "." + v.post;
      HotfixCase(v.core, sep, v.preNumber, v.post);
    } else if v.pre == "b" && Worded(v, v.core + "-bet", "alpha", s) {
      var sep :| sep in {"", "."} && s == v.core + "-bet" + "-" + "alpha" + sep + v.preNumber;
      BetAlphaIsBeta(v.core, sep, v.preNumber);
    } else {
      var word := LongName(v.pre);
      var sep :| sep in {"", "."} && s == v.core + "-" + word + sep + v.preNumber;
      WordCase(v.core, word, sep, v.preNumber);
    }
  }

  lemma BetAlphaIsBeta(core: string, sep: string, p: string)
    requires Digits(p) && '-' !in core && sep in {"", "."}
    ensures ReplaceAll(REPLACEMENTS, core + "-bet" + "-" + "alpha" + sep + p) == core + "b" + p
  {
    hide Replace, ReplaceAll;
    FourReplacements(core + "-bet" + "-" + "alpha" + sep + p);
    NoHotfix(core + "-bet", "alpha", sep, p);
    WordReplaced(1, core + "-bet", sep, p);
    assert core + "-bet" + "a" + p == core + "-" + "beta" + "" + p;
    WordReplaced(2, core, "", p);
    ReplaceNeedsDash(REPLACEMENTS[3], core + "b" + p);
  }

  /**
    Exactly which texts are accepted, and as what: the text without white space around it and without a
    prefix is one of the spellings of the version.
   */
  lemma NormalizesIff(version: string, v: Version)
    requires IsVersion(v)
    ensures Normalize(version) == Ok(v.core + v.pre + v.preNumber + (if v.post == "" then "" else ".post" + v.post))
       <==> Spells(v, StripPrefix(TrimRight(TrimLeft(version))))
  {
    hide ReplaceAll, Parse, Spells, Valid, Print, IsVersion, TrimLeft, TrimRight, StripPrefix;
    var s := StripPrefix(TrimRight(TrimLeft(version)));
    ValidMeans(v);
    PrintMeans(v);
    ParsePrint(v);
    if Spells(v, s) {
      SpellingIsReplaced(s, v);
    }
    if ReplaceAll(REPLACEMENTS, s) == Print(v) {
      WordsAreSpelled(s, v);
    }
  }

  /** Everything else is refused. */
  lemma RefusedIff(version: string)
    ensures Normalize(version).Err? <==> forall v :: IsVersion(v) ==> !Spells(v, StripPrefix(TrimRight(TrimLeft(version))))
    ensures Normalize(version).Err? ==> Normalize(version).error == "runtimebin: unsupported runtime version"
  {
    hide ReplaceAll, Parse, Spells, Valid, Print, IsVersion, TrimLeft, TrimRight, StripPrefix;
    if Normalize(version).Ok? {
      NormalIsPrinted(version);
      var v := Parse(Normalize(version).value).value;
      ValidMeans(v);
      PrintMeans(v);
      NormalizesIff(version, v);
    }
    forall v | IsVersion(v) && Spells(v, StripPrefix(TrimRight(TrimLeft(version))))
      ensures Normalize(version).Ok?
    {
      NormalizesIff(version, v);
    }
  }

  /** The release tag of each form. */
  lemma TagMeans(version: string, v: Version)
    requires IsVersion(v) && Spells(v, StripPrefix(TrimRight(TrimLeft(version))))
    ensures ReleaseTag(version) == Ok(
      if v.pre == "a" && v.post != "" then "rust-v" + v.core + "-alpha." + v.preNumber + "." + v.post
      else if v.post != "" || v.pre == "" then "rust-v" + v.core + v.pre + v.preNumber + (if v.post == "" then "" else ".post" + v.post)
      else "rust-v" + v.core + (if v.pre == "a" then "-alpha." else if v.pre == "b" then "-beta." else "-rc.") + v.preNumber)
  {
    hide ReplaceAll, Parse, Spells, Valid, IsVersion, TrimLeft, TrimRight, StripPrefix, Normalize;
    ValidMeans(v);
    PrintMeans(v);
    NormalizesIff(version, v);
    ParsePrint(v);
    TagOfRelease(v);
  }

  lemma TagOfRelease(v: Version)
    requires IsVersion(v)
    ensures "rust-v" + ReleaseOf(v) ==
      if v.pre == "a" && v.post != "" then "rust-v" + v.core + "-alpha." + v.preNumber + "." + v.post
      else if v.post != "" || v.pre == "" then "rust-v" + v.core + v.pre + v.preNumber + (if v.post == "" then "" else ".post" + v.post)
      else "rust-v" + v.core + (if v.pre == "a" then "-alpha." else if v.pre == "b" then "-beta." else "-rc.") + v.preNumber
  {
    hide Dotted, Number;
  }

  /** The unintended spelling, in one text. */
  lemma BetAlphaExample()
    ensures Normalize("1.0-bet-alpha1") == Ok("1.0b1")
  {
    hide Normalize, Spells, TrimLeft, TrimRight, StripPrefix, IsVersion;
    var v := Version("1.0", "b", "1", "");
    var s := v.core + "-bet" + "-" + "alpha" + "" + v.preNumber;
    assert IsVersion(v) by { ValidMeans(v); }
    assert Spells(v, s) by { UnintendedSpelling(v, s); }
    PrefixIsStripped("", "", s, "");
    assert "" + "" + s + "" == s;
    NormalizesIff(s, v);
    assert s == "1.0-bet-alpha1" && v.core + v.pre + v.preNumber + "" == "1.0b1";
  }

  lemma UnintendedSpelling(v: Version, s: string)
    requires v.pre == "b" && v.post == "" && s == v.core + "-bet" + "-" + "alpha" + "" + v.preNumber
    ensures Spells(v, s)
  {
    assert "" in {"", "."};
  }
}
