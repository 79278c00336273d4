/** redactSecrets as a whole. */
module RedactSecretsTheorems {
  import opened Redaction
  import opened RedactionTheorems
  import opened RedactionKeys

  // ---- API keys ----

  lemma TokenFreeSlice(s: string, n: nat, m: nat)
    requires n <= m <= |s| && forall i: nat :: n <= i && i + 3 <= m ==> !TokenAt(s, i)
    ensures TokenFree(s[n..m])
  {
    forall i: nat
      ensures !TokenAt(s[n..m], i)
    {
      assert n + i + 3 <= m ==> !TokenAt(s, n + i);
    }
  }

  lemma JoinIsTokenFree(head: string, mark: string, tail: string)
    requires Bracketed(mark) && TokenFree(head) && TokenFree(tail)
    ensures TokenFree(head + mark + tail)
  {
    var u := head + mark + tail;
    forall i: nat
      ensures !TokenAt(u, i)
    {
      if i < |head| {
        assert !TokenAt(head, i);
      } else if i < |head| + |mark| {
        assert !TokenAt(mark, i - |head|);
      } else {
        assert !TokenAt(tail, i - |head| - |mark|);
      }
    }
  }

  lemma {:induction false} TokensAreMasked(mark: string, s: string)
    requires Bracketed(mark)
    ensures TokenFree(MaskTokensWith(mark, s))
    decreases |s|
  {
    FindTokenIsFirst(s, 0);
    var i := FindToken(s, 0);
    if i >= 0 {
      TokenFreeSlice(s, 0, i);
      TokensAreMasked(mark, DropToken(s[i + 3..]));
      JoinIsTokenFree(s[..i], mark, MaskTokensWith(mark, DropToken(s[i + 3..])));
    }
  }

  /** API keys of the text from `n` on, each as long as it goes, one behind the other. */
  ghost predicate AreTokens(s: string, n: nat, cuts: seq<(nat, nat)>)
    decreases |cuts|
  {
    if cuts == [] then n <= |s|
    else
      var (a, b) := cuts[0];
      n <= a && TokenAt(s, a) && b == TokenEnd(s, a + 3) && AreTokens(s, b, cuts[1..])
  }

  ghost function WithoutTokens(mark: string, s: string, n: nat, cuts: seq<(nat, nat)>): string
    requires AreTokens(s, n, cuts)
    decreases |cuts|
  {
    if cuts == [] then s[n..] else s[n..cuts[0].0] + mark + WithoutTokens(mark, s, cuts[0].1, cuts[1..])
  }

  lemma NextTokenInText(s: string, n: nat, i: nat)
    requires n <= |s| && FindToken(s[n..], 0) == i
    ensures n + i + 3 <= |s| && TokenAt(s, n + i)
    ensures DropToken(s[n..][i + 3..]) == s[TokenEnd(s, n + i + 3)..]
  {
    hide TokenEnd, DropToken, SeparatorsEnd, ValueEnd, DropSeparators, DropValue;
    FindTokenIsFirst(s[n..], 0);
    assert TokenAt(s[n..], i);
    assert s[n..][i + 3..] == s[n + i + 3..];
    DropsInSuffix(Pass("", false), s, n + i + 3);
  }

  /** Only API keys are replaced, and every other character is kept. */
  lemma {:induction false} OnlyTokensAreReplaced(mark: string, s: string, n: nat) returns (cuts: seq<(nat, nat)>)
    requires n <= |s|
    ensures AreTokens(s, n, cuts) && MaskTokensWith(mark, s[n..]) == WithoutTokens(mark, s, n, cuts)
    decreases |s| - n
  {
    hide MaskTokensWith, TokenEnd, FindToken, DropToken, TokenAt;
    var i := FindToken(s[n..], 0);
    if i < 0 {
      MaskTokensEnds(mark, s[n..]);
      cuts := [];
    } else {
      NextTokenInText(s, n, i);
      MaskTokensStep(mark, s[n..], i);
      var a, b := n + i, TokenEnd(s, n + i + 3);
      var later := OnlyTokensAreReplaced(mark, s, b);
      cuts := [(a, b)] + later;
      assert cuts[1..] == later && s[n..][..i] == s[n..a];
    }
  }

  /** No pass creates an API key. */
  lemma {:induction false} MaskKeepsTokenFree(mark: string, p: Pass, s: string)
    requires Bracketed(mark) && p.marker != "" && TokenFree(s)
    ensures TokenFree(MaskWith(mark, p, s))
    decreases |s|
  {
    if Find(s, p.marker, 0) >= 0 {
      var start, rest := FirstRewrite(mark, p, s);
      TokenFreeSlice(s, 0, start);
      TokenFreeSlice(s, |s| - |rest|, |s|);
      assert rest == s[|s| - |rest|..|s|];
      MaskKeepsTokenFree(mark, p, rest);
      JoinIsTokenFree(s[..start], mark, MaskWith(mark, p, rest));
    }
  }

  lemma {:induction false} MaskAllKeepsTokenFree(passes: seq<Pass>, s: string)
    requires forall p <- passes :: p.marker != ""
    requires TokenFree(s)
    ensures TokenFree(MaskAll(passes, s))
  {
    if passes != [] {
      assert Bracketed(MARK);
      MaskKeepsTokenFree(MARK, passes[0], s);
      MaskAllKeepsTokenFree(passes[1..], Mask(passes[0], s));
    }
  }

  // ---- the passes among each other ----

  /** No later pass spoils what an earlier one, or it itself, has masked. */
  lemma LaterPassesAreHarmless(i: nat, j: nat)
    requires j <= i < |Passes()|
    ensures Harmless(MARK, Passes()[i], Passes()[j])
  {
    if i < |KEYS| {
      KeysAreKeys(i);
      KeysAreKeys(j);
      KeyHarmlessToKey(Lower(KEYS[i]), i, Lower(KEYS[j]), j);
    } else {
      var k := JsonKeyIndex(i - |KEYS|);
      KeysAreKeys(k);
      if j < |KEYS| {
        KeysAreKeys(j);
        JsonHarmlessToKey(Lower(KEYS[k]), k, Lower(KEYS[j]), j);
      } else {
        var k2 := JsonKeyIndex(j - |KEYS|);
        KeysAreKeys(k2);
        JsonHarmlessToJson(Lower(KEYS[k]), k, Lower(KEYS[k2]), k2);
      }
    }
  }

  /** The JSON markers quote three of the keys. */
  lemma JsonKeyIndex(i: nat) returns (k: nat)
    requires i < |JSON_KEYS|
    ensures k < |KEYS| && JSON_KEYS[i] == KEYS[k]
    ensures JsonPass(JSON_KEYS[i]) == Pass(Quoted(Lower(KEYS[k])), false)
  {
    k := if i == 0 then 8 else if i == 1 then 10 else 6;
    LowerQuoted(KEYS[k]);
  }

  lemma {:induction false} RemainingPassesMask(n: nat, s: string, j: nat)
    requires n <= |Passes()| && j < |Passes()|
    requires j < n ==> Masked(MARK, Passes()[j], s)
    ensures Masked(MARK, Passes()[j], MaskAll(Passes()[n..], s))
    decreases |Passes()| - n
  {
    hide MaskWith, Masked, Harmless, ProperMark, Passes, Lower;
    if n < |Passes()| {
      MarkIsProper();
      if j <= n {
        LaterPassesAreHarmless(n, j);
        MaskKeepsMasked(MARK, Passes()[n], Passes()[j], s);
      }
      assert Passes()[n..][1..] == Passes()[n + 1..];
      RemainingPassesMask(n + 1, Mask(Passes()[n], s), j);
    }
  }

  lemma {:induction false} MaskedIsFixedByAll(passes: seq<Pass>, s: string)
    requires forall p <- passes :: p.marker != "" && Masked(MARK, p, s)
    ensures MaskAll(passes, s) == s
  {
    if passes != [] {
      MarkIsProper();
      MaskedIsFixed(MARK, passes[0], s);
      MaskedIsFixedByAll(passes[1..], s);
    }
  }

  // ---- redactSecrets ----

  /**
    The output holds no API key, and behind every key and JSON marker the value is the mark: it ends
    at a stop or at the end of the text. What stands behind the stop is another matter, see `HiddenIff`.
   */
  lemma RedactedMasksValues(s: string)
    ensures TokenFree(Redacted(s))
    ensures forall p <- Passes() :: Masked(MARK, p, Redacted(s))
  {
    assert Bracketed(API_KEY_MARK);
    TokensAreMasked(API_KEY_MARK, s);
    MaskAllKeepsTokenFree(Passes(), MaskTokens(s));
    forall j | 0 <= j < |Passes()|
      ensures Masked(MARK, Passes()[j], Redacted(s))
    {
      RemainingPassesMask(0, MaskTokens(s), j);
      assert Passes()[0..] == Passes();
    }
  }

  /** Redacting twice is redacting once. */
  lemma RedactedIsFixed(s: string)
    ensures Redacted(Redacted(s)) == Redacted(s)
  {
    RedactedMasksValues(s);
    FindTokenIsFirst(Redacted(s), 0);
    assert MaskTokens(Redacted(s)) == Redacted(s);
    MaskedIsFixedByAll(Passes(), Redacted(s));
  }

  /** A pass masks its own marker, on any text. */
  lemma PassMasks(i: nat, s: string)
    requires i < |Passes()|
    ensures Masked(MARK, Passes()[i], Mask(Passes()[i], s))
  {
    MarkIsProper();
    LaterPassesAreHarmless(i, i);
    MaskKeepsMasked(MARK, Passes()[i], Passes()[i], s);
  }

  /** Each single pass is idempotent on any text. */
  lemma PassIsIdempotent(i: nat, s: string)
    requires i < |Passes()|
    ensures Mask(Passes()[i], Mask(Passes()[i], s)) == Mask(Passes()[i], s)
  {
    PassMasks(i, s);
    MarkIsProper();
    MaskedIsFixed(MARK, Passes()[i], Mask(Passes()[i], s));
  }

  /** A pass leaves a text alone exactly when everything behind its marker is masked already. */
  lemma FixedIffMasked(i: nat, s: string)
    requires i < |Passes()|
    ensures Mask(Passes()[i], s) == s <==> Masked(MARK, Passes()[i], s)
  {
    MarkIsProper();
    PassMasks(i, s);
    if Masked(MARK, Passes()[i], s) {
      MaskedIsFixed(MARK, Passes()[i], s);
    }
  }

  // ---- what a pass does not hide ----

  lemma MaskIsNotEmpty(p: Pass, s: string)
    requires p.marker != "" && s != ""
    ensures Mask(p, s) != ""
  {
    if Find(s, p.marker, 0) < 0 {
      MaskEnds(MARK, p, s);
    } else {
      MaskStep(MARK, p, s, Find(s, p.marker, 0));
    }
  }

  lemma MaskIsMaskWith(p: Pass, s: string)
    requires p.marker != ""
    ensures Mask(p, s) == MaskWith(MARK, p, s)
  {
  }

  lemma MaskAtFirst(p: Pass, s: string, i: nat)
    requires p.marker != "" && OccursAt(s, p.marker, i) && forall k: nat :: k < i ==> !OccursAt(s, p.marker, k)
    ensures var v := ValuePos(p, s, i); Mask(p, s) == s[..v] + MARK + Mask(p, s[ValueEnd(p, s, v)..])
  {
    hide Find, ValuePos, ValueEnd, OccursAt, Value, DropValue, MaskWith;
    FindIsFirst(s, p.marker, 0);
    ValueInText(p, s, i);
    DropsInSuffix(p, s, ValuePos(p, s, i));
    MaskStep(MARK, p, s, i);
  }

  /**
    Exactly what is hidden behind the first marker: the text from the value's start to its first stop.
    The text from the stop on goes through the pass on its own, so it survives where no marker follows;
    and everything behind the marker is hidden if and only if there is no stop.
   */
  lemma HiddenIff(p: Pass, s: string, i: nat)
    requires p.marker != "" && OccursAt(s, p.marker, i) && forall k: nat :: k < i ==> !OccursAt(s, p.marker, k)
    ensures var v := ValuePos(p, s, i); var e := ValueEnd(p, s, v);
      && Mask(p, s) == s[..v] + MARK + Mask(p, s[e..])
      && (Find(s[e..], p.marker, 0) < 0 ==> Mask(p, s) == s[..v] + MARK + s[e..])
      && (Mask(p, s) == s[..v] + MARK <==> forall k :: v <= k < |s| ==> !IsStop(p, s[k]))
  {
    hide Find, ValuePos, ValueEnd, OccursAt, Mask, IsStop;
    MaskAtFirst(p, s, i);
    var v := ValuePos(p, s, i);
    var e := ValueEnd(p, s, v);
    ValueEndIs(p, s, v);
    if Find(s[e..], p.marker, 0) < 0 {
      MaskEnds(MARK, p, s[e..]);
      assert Mask(p, s[e..]) == s[e..] by { MaskIsMaskWith(p, s[e..]); }
    }
    if e < |s| {
      MaskIsNotEmpty(p, s[e..]);
    } else {
      NothingFound(p);
      assert s[e..] == "";
      MaskEnds(MARK, p, "");
      MaskIsMaskWith(p, "");
    }
  }

  lemma NothingFound(p: Pass)
    requires p.marker != ""
    ensures Find("", p.marker, 0) < 0
  {
  }

  // ---- where a key can occur ----

  lemma OccursAtEach(s: string, m: string, i: nat, j: nat)
    requires OccursAt(s, m, i) && j < |m|
    ensures i + j < |s| && LowerChar(s[i + j]) == m[j]
  {
  }

  /** Only letters that begin a key can begin an occurrence of one. */
  lemma KeyStartsLikeAKey(s: string, n: nat, i: nat)
    requires n < |KEYS| && OccursAt(s, Lower(KEYS[n]), i)
    ensures i + 3 <= |s| && LowerChar(s[i]) in {'a', 'r', 'p', 'u', 'v'}
    ensures StartsAKey(LowerChar(s[i]), LowerChar(s[i + 1]), LowerChar(s[i + 2]))
    ensures LowerChar(s[i]) == 'a' && LowerChar(s[i + 1]) == 'u' ==>
      i + 4 < |s| && (LowerChar(s[i + 4]) == 'o' ==> n == 0) && (LowerChar(s[i + 4]) == 'u' ==> n == 8)
  {
    hide Lower;
    KeysAreKeys(n);
    var k := Lower(KEYS[n]);
    assert LowerChar(s[i + 0]) == k[0] && LowerChar(s[i + 1]) == k[1] && LowerChar(s[i + 2]) == k[2];
    if k[0] == 'a' && k[1] == 'u' {
      assert LowerChar(s[i + 4]) == k[4];
    }
  }

  predicate StartsAKey(c: char, d: char, e: char) {
    || (c == 'a' && (d == 'u' || (d == 'c' && e == 'c')))
    || (c == 'r' && d == 'e' && e == 'f')
    || (c == 'p' && d == 'a')
    || (c == 'u' && d == 's')
    || (c == 'v' && d == 'e')
  }

  lemma QuotedAround(s: string, k: string, i: nat)
    requires OccursAt(s, Quoted(k), i)
    ensures i < |s| && s[i] == '"' && OccursAt(s, k, i + 1)
  {
    OccursAtEach(s, Quoted(k), i, 0);
    forall j | 0 <= j < |k| ensures LowerChar(s[i + 1 + j]) == k[j] { OccursAtEach(s, Quoted(k), i, j + 1); }
  }

  // ---- what redactSecrets does not hide ----

  /** The whole redaction leaves a text alone exactly when it has no API key and every pass finds it masked. */
  lemma FixedTextIff(s: string)
    ensures Redacted(s) == s <==> TokenFree(s) && forall p <- Passes() :: Masked(MARK, p, s)
  {
    RedactedMasksValues(s);
    if TokenFree(s) && forall p <- Passes() :: Masked(MARK, p, s) {
      FindTokenIsFirst(s, 0);
      assert MaskTokens(s) == s;
      MaskedIsFixedByAll(Passes(), s);
    }
  }

  lemma TokenFreeIsKept(s: string)
    requires TokenFree(s)
    ensures MaskTokens(s) == s
  {
    FindTokenIsFirst(s, 0);
  }

  lemma SuffixIsTokenFree(s: string, n: nat)
    requires n <= |s| && TokenFree(s)
    ensures TokenFree(s[n..])
  {
    forall i: nat
      ensures !TokenAt(s[n..], i)
    {
      assert !TokenAt(s, n + i);
    }
  }

  const BEARER := "authorization: Bearer "
  const MASKED_BEARER := "authorization: [REDACTED] "

  lemma BearerLetters(c: string, i: nat)
    requires i < |MASKED_BEARER| && i + 3 <= |MASKED_BEARER + c|
    requires var s := MASKED_BEARER + c; StartsAKey(LowerChar(s[i]), LowerChar(s[i + 1]), LowerChar(s[i + 2]))
    ensures i == 0
  {
    var s := MASKED_BEARER + c;
    assert i < |MASKED_BEARER| - 2 ==> s[i] == MASKED_BEARER[i] && s[i + 1] == MASKED_BEARER[i + 1] && s[i + 2] == MASKED_BEARER[i + 2];
    assert s[24] == ']' && s[25] == ' ';
  }

  /** In front of the credential there is one key, "authorization". */
  lemma MarkerBeforeCredential(c: string, j: nat, i: nat)
    requires j < |Passes()| && i < |MASKED_BEARER| && OccursAt(MASKED_BEARER + c, Passes()[j].marker, i)
    ensures i == 0 && j == 0
  {
    hide OccursAt, Lower, StartsAKey, Passes;
    var s := MASKED_BEARER + c;
    if j < |KEYS| {
      KeyStartsLikeAKey(s, j, i);
      BearerLetters(c, i);
      assert s[1] == 'u' && s[4] == 'o';
    } else {
      var k := JsonKeyIndex(j - |KEYS|);
      QuotedAround(s, Lower(KEYS[k]), i);
    }
  }

  lemma MaskedBearerIsCovered(c: string)
    ensures |Passes()[0].marker| == 13 && Covered(MARK, Passes()[0], MASKED_BEARER + c, 0)
  {
    hide SeparatorsEnd, Lower;
    LowerTokenKeys();
    var s := MASKED_BEARER + c;
    ValuePosUnique(Passes()[0], s, 0, 15);
    assert s[15..25] == MARK && s[25] == ' ';
    forall k | 0 <= k < |MARK| ensures s[15 + k] == MARK[k] { assert s[15..25][k] == s[15 + k]; }
    assert HasMark(s, 15, MARK);
  }

  lemma MaskedBehindBearerIff(c: string, j: nat)
    requires j < |Passes()|
    ensures Masked(MARK, Passes()[j], MASKED_BEARER + c) <==> Masked(MARK, Passes()[j], c)
  {
    hide OccursAt, Covered, Passes;
    var s, p := MASKED_BEARER + c, Passes()[j];
    assert s[|MASKED_BEARER|..] == c;
    if Masked(MARK, p, c) {
      forall i: nat | OccursAt(s, p.marker, i)
        ensures i + |p.marker| <= |s| && Covered(MARK, p, s, i)
      {
        if i < |MASKED_BEARER| {
          MarkerBeforeCredential(c, j, i);
          MaskedBearerIsCovered(c);
        } else {
          OccursBehind(MASKED_BEARER, c, p.marker, i - |MASKED_BEARER|);
          MaskedTail(MARK, p, MASKED_BEARER, c, i - |MASKED_BEARER|);
        }
      }
    } else if Masked(MARK, p, s) {
      MaskedSuffix(MARK, p, s, |MASKED_BEARER|);
    }
  }

  lemma OccursBehind(front: string, tail: string, m: string, i: nat)
    requires OccursAt(front + tail, m, |front| + i)
    ensures OccursAt(tail, m, i)
  {
    forall j | 0 <= j < |m|
      ensures LowerChar(tail[i + j]) == m[j]
    {
      assert (front + tail)[|front| + i + j] == tail[i + j];
    }
  }

  lemma PrefixIsTokenFree(front: string, c: string)
    requires TokenFree(c) && 's' !in front
    ensures TokenFree(front + c)
  {
    forall i: nat
      ensures !TokenAt(front + c, i)
    {
      if i < |front| {
        assert (front + c)[i] == front[i];
      } else {
        assert !TokenAt(c, i - |front|);
      }
    }
  }

  /** The pass over "authorization" masks the word "Bearer", and keeps the credential if it is masked itself. */
  lemma BearerIsMasked(c: string)
    requires Masked(MARK, Passes()[0], MASKED_BEARER + c)
    ensures Mask(Passes()[0], BEARER + c) == MASKED_BEARER + c
  {
    hide Find, ValueEnd, SeparatorsEnd, Mask, Masked, Lower, ProperMark, OccursAt, Passes;
    LowerTokenKeys();
    var p, s := Passes()[0], BEARER + c;
    ValuePosUnique(p, s, 0, 15);
    ValueEndUnique(p, s, 15, 21);
    assert s[21..] == " " + c && s[..15] == "authorization: ";
    AuthorizationIsFirst(c);
    HiddenIff(p, s, 0);
    MarkIsProper();
    assert (MASKED_BEARER + c)[25..] == " " + c;
    MaskedSuffix(MARK, p, MASKED_BEARER + c, 25);
    MaskedIsFixed(MARK, p, " " + c);
    MaskIsMaskWith(p, " " + c);
  }

  lemma AuthorizationIsFirst(c: string)
    ensures OccursAt(BEARER + c, "authorization", 0)
  {
  }

  /**
    What stands behind "authorization: Bearer " comes out of redactSecrets as it is, if and only if it
    would come out as it is on its own: the key does not protect it.
   */
  lemma BearerCredentialSurvivesIff(c: string)
    ensures Redacted(BEARER + c) == MASKED_BEARER + c <==> Redacted(c) == c
  {
    hide Masked, Passes, TokenFree, Mask, MaskTokensWith;
    var t := MASKED_BEARER + c;
    assert t[|MASKED_BEARER|..] == c;
    FixedTextIff(c);
    forall p | p in Passes()
      ensures Masked(MARK, p, t) <==> Masked(MARK, p, c)
    {
      var j :| 0 <= j < |Passes()| && Passes()[j] == p;
      MaskedBehindBearerIff(c, j);
    }
    if Redacted(c) == c {
      PrefixIsTokenFree(BEARER, c);
      TokenFreeIsKept(BEARER + c);
      BearerIsMasked(c);
      forall p | p in Passes()[1..] ensures Masked(MARK, p, t) { assert p in Passes(); }
      MaskedIsFixedByAll(Passes()[1..], t);
    } else if Redacted(BEARER + c) == t {
      RedactedMasksValues(BEARER + c);
      SuffixIsTokenFree(t, |MASKED_BEARER|);
    }
  }

  lemma BearerExample()
    ensures Redacted("authorization: Bearer abc") == "authorization: [REDACTED] abc"
  {
    hide Redacted, Masked, Passes, OccursAt, Lower;
    var c := "abc";
    forall p | p in Passes()
      ensures Masked(MARK, p, c)
    {
      var j :| 0 <= j < |Passes()| && Passes()[j] == p;
      NoMarkerInExample(j);
    }
    assert TokenFree(c);
    FixedTextIff(c);
    BearerCredentialSurvivesIff(c);
    assert BEARER + c == "authorization: Bearer abc" && MASKED_BEARER + c == "authorization: [REDACTED] abc";
  }

  lemma NoMarkerInExample(j: nat)
    requires j < |Passes()|
    ensures Masked(MARK, Passes()[j], "abc")
  {
    hide OccursAt, Covered, Passes, Lower;
    var p := Passes()[j];
    forall i: nat
      ensures !OccursAt("abc", p.marker, i)
    {
      if OccursAt("abc", p.marker, i) {
        if j < |KEYS| {
          KeyStartsLikeAKey("abc", j, i);
        } else {
          var k := JsonKeyIndex(j - |KEYS|);
          QuotedAround("abc", Lower(KEYS[k]), i);
        }
      }
    }
  }
}
