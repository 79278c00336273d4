/**
  Redacted lines joined by line ends and redacted once more: a key's value ends at the line end, but a JSON
  value goes on until a quote.
 */
module JoinedLines {
  import opened Redaction
  import opened RedactionTheorems
  import opened RedactionKeys
  import opened RedactSecretsTheorems

  function Join(lines: seq<string>): string {
    if lines == [] then ""
    else if |lines| == 1 then lines[0]
    else lines[0] + "\n" + Join(lines[1..])
  }

  // ---- two texts and a line end ----

  lemma NoLineEndInMarkers(p: Pass)
    requires p in Passes()
    ensures p.marker != "" && forall t :: 0 <= t < |p.marker| ==> p.marker[t] != '\n'
  {
    hide Lower, IsKey;
    var i :| 0 <= i < |Passes()| && Passes()[i] == p;
    if i < |KEYS| {
      KeysAreKeys(i);
      KeyHasNoLineEnd(Lower(KEYS[i]), i);
    } else {
      var k := JsonKeyIndex(i - |KEYS|);
      KeysAreKeys(k);
      KeyHasNoLineEnd(Lower(KEYS[k]), k);
    }
  }

  lemma KeyHasNoLineEnd(k: string, n: nat)
    requires IsKey(k, n)
    ensures k != "" && forall t :: 0 <= t < |k| ==> k[t] != '\n'
    ensures forall t :: 0 <= t < |Quoted(k)| ==> Quoted(k)[t] != '\n'
  {
  }

  lemma JoinedIsTokenFree(a: string, b: string)
    requires TokenFree(a) && TokenFree(b)
    ensures TokenFree(a + "\n" + b)
  {
    var u := a + "\n" + b;
    forall i: nat
      ensures !TokenAt(u, i)
    {
      if i <= |a| {
        assert !TokenAt(a, i);
      } else {
        assert !TokenAt(b, i - |a| - 1);
      }
    }
  }

  /** The text ends right behind a marker of the pass and the mark. */
  ghost predicate EndsOpen(p: Pass, s: string) {
    |p.marker| + |MARK| <= |s| && OccursAt(s, p.marker, |s| - |MARK| - |p.marker|)
  }

  /** An occurrence in the joined text lies in the first text or in the second one. */
  lemma OccursOnOneSide(m: string, a: string, b: string, i: nat)
    requires m != "" && (forall t :: 0 <= t < |m| ==> m[t] != '\n') && OccursAt(a + "\n" + b, m, i)
    ensures i + |m| <= |a| || |a| < i
    ensures i + |m| <= |a| ==> OccursAt(a, m, i)
    ensures |a| < i ==> OccursAt(b, m, i - |a| - 1)
  {
    var u := a + "\n" + b;
    if i <= |a| < i + |m| {
      OccursAtEach(u, m, i, |a| - i);
    }
    if i + |m| <= |a| {
      forall j | 0 <= j < |m| ensures LowerChar(a[i + j]) == m[j] { assert u[i + j] == a[i + j]; }
    } else {
      forall j | 0 <= j < |m| ensures LowerChar(b[i - |a| - 1 + j]) == m[j] { assert u[i + j] == b[i - |a| - 1 + j]; }
    }
  }

  lemma HeadStaysCovered(p: Pass, a: string, b: string, i: nat)
    requires i + |p.marker| <= |a| && Covered(MARK, p, a, i)
    requires OccursAt(a, p.marker, i) && (p.anySeparators || !EndsOpen(p, a))
    ensures Covered(MARK, p, a + "\n" + b, i)
  {
    hide SeparatorsEnd, OccursAt;
    var u := a + "\n" + b;
    var v := ValuePos(p, a, i);
    MarkIsProper();
    ValuePosIs(p, a, i);
    forall k | 0 <= k < |MARK|
      ensures u[v + k] == MARK[k]
    {
      assert a[v + k] == MARK[k];
    }
    assert u[v + 0] == MARK[0];
    ValuePosUnique(p, u, i, v);
  }

  lemma OpenEndIsNotCovered(p: Pass, a: string, b: string)
    requires !p.anySeparators && EndsOpen(p, a)
    ensures !Masked(MARK, p, a + "\n" + b)
  {
    var u := a + "\n" + b;
    var i := |a| - |MARK| - |p.marker|;
    forall j | 0 <= j < |p.marker| ensures LowerChar(u[i + j]) == p.marker[j] { assert u[i + j] == a[i + j]; }
    assert OccursAt(u, p.marker, i) && u[|a|] == '\n' && !Covered(MARK, p, u, i);
  }

  lemma JoinedIsMaskedIff(p: Pass, a: string, b: string)
    requires p in Passes() && Masked(MARK, p, a)
    ensures Masked(MARK, p, a + "\n" + b) <==> Masked(MARK, p, b) && (p.anySeparators || !EndsOpen(p, a))
  {
    hide Covered, EndsOpen, OccursAt, Passes;
    NoLineEndInMarkers(p);
    var u := a + "\n" + b;
    if Masked(MARK, p, b) && (p.anySeparators || !EndsOpen(p, a)) {
      forall i: nat | OccursAt(u, p.marker, i)
        ensures i + |p.marker| <= |u| && Covered(MARK, p, u, i)
      {
        OccursOnOneSide(p.marker, a, b, i);
        if |a| < i {
          MaskedTail(MARK, p, a + "\n", b, i - |a| - 1);
        } else {
          HeadStaysCovered(p, a, b, i);
        }
      }
    } else if Masked(MARK, p, u) {
      assert u[|a| + 1..] == b;
      MaskedSuffix(MARK, p, u, |a| + 1);
      OpenEndIsNotCovered(p, a, b);
    }
  }

  // ---- any number of lines ----

  /** A JSON value is open at the end of the line: a quote on a later line would close it. */
  ghost predicate LeavesOpen(line: string) {
    exists p :: p in Passes() && !p.anySeparators && EndsOpen(p, line)
  }

  ghost predicate ClosedLines(lines: seq<string>) {
    forall i :: 0 <= i < |lines| - 1 ==> !LeavesOpen(lines[i])
  }

  lemma TwoAreFixedIff(a: string, b: string)
    requires Redacted(a) == a
    ensures Redacted(a + "\n" + b) == a + "\n" + b <==> Redacted(b) == b && !LeavesOpen(a)
  {
    hide Redacted, Masked, TokenFree, EndsOpen, Passes;
    var u := a + "\n" + b;
    FixedTextIff(a);
    FixedTextIff(b);
    FixedTextIff(u);
    forall p | p in Passes()
      ensures Masked(MARK, p, u) <==> Masked(MARK, p, b) && (p.anySeparators || !EndsOpen(p, a))
    {
      JoinedIsMaskedIff(p, a, b);
    }
    if TokenFree(u) {
      SuffixIsTokenFree(u, |a| + 1);
      assert u[|a| + 1..] == b;
    } else if TokenFree(b) {
      JoinedIsTokenFree(a, b);
    }
  }

  /**
    The exact condition: redacting the joined lines changes nothing if and only if no line but the last
    leaves a JSON value open.
   */
  lemma {:induction false} JoinIsFixedIff(lines: seq<string>)
    requires forall line <- lines :: Redacted(line) == line
    ensures Redacted(Join(lines)) == Join(lines) <==> ClosedLines(lines)
    decreases |lines|
  {
    hide Redacted, LeavesOpen;
    if lines == [] {
      NothingIsFixed();
    } else if |lines| > 1 {
      JoinIsFixedIff(lines[1..]);
      TwoAreFixedIff(lines[0], Join(lines[1..]));
      ClosedFromFirst(lines);
    }
  }

  lemma ClosedFromFirst(lines: seq<string>)
    requires |lines| > 1
    ensures ClosedLines(lines) <==> !LeavesOpen(lines[0]) && ClosedLines(lines[1..])
  {
    hide LeavesOpen;
    if !LeavesOpen(lines[0]) && ClosedLines(lines[1..]) {
      forall i | 0 <= i < |lines| - 1
        ensures !LeavesOpen(lines[i])
      {
        assert i > 0 ==> lines[i] == lines[1..][i - 1];
      }
    }
  }

  lemma NothingIsFixed()
    ensures Redacted("") == ""
  {
    FixedTextIff("");
  }

  // ---- what an open line does to the ones behind it ----

  /** A text without a quote holds no JSON marker. */
  lemma NoQuoteNoMarker(p: Pass, s: string)
    requires p in Passes() && !p.anySeparators && '"' !in s
    ensures forall i: nat :: !OccursAt(s, p.marker, i)
  {
    hide Lower;
    var j :| 0 <= j < |Passes()| && Passes()[j] == p;
    var k := JsonKeyIndex(j - |KEYS|);
    assert p.marker[0] == '"';
    forall i: nat
      ensures OccursAt(s, p.marker, i) ==> LowerChar(s[i + 0]) == '"'
    {
    }
  }

  lemma SameFirstFind(p: Pass, a: string, b: string)
    requires p in Passes() && !p.anySeparators && '"' !in b && p.marker != ""
    ensures Find(a + "\n" + b, p.marker, 0) == Find(a, p.marker, 0)
  {
    hide Passes, Find;
    NoLineEndInMarkers(p);
    NoQuoteNoMarker(p, b);
    var u := a + "\n" + b;
    FindIsFirst(u, p.marker, 0);
    FindIsFirst(a, p.marker, 0);
    forall i: nat
      ensures OccursAt(u, p.marker, i) <==> OccursAt(a, p.marker, i)
    {
      if OccursAt(u, p.marker, i) {
        OccursOnOneSide(p.marker, a, b, i);
      }
      if OccursAt(a, p.marker, i) {
        forall j | 0 <= j < |p.marker| ensures LowerChar(u[i + j]) == p.marker[j] { assert u[i + j] == a[i + j]; }
      }
    }
  }

  /**
    A JSON pass over a text and a line without a quote behind it: the line goes with the value that is open
    at the end of the text, or stays as it is.
   */
  lemma {:induction false} LineGoesOrStays(p: Pass, a: string, b: string)
    requires p in Passes() && !p.anySeparators && '"' !in b && p.marker != ""
    ensures var masked := Mask(p, a + "\n" + b);
      masked == Mask(p, a) || masked == Mask(p, a) + ("\n" + b)
    decreases |a|
  {
    hide Mask, Find, Passes, ValueEnd, OccursAt;
    var u := a + "\n" + b;
    var i := Find(a, p.marker, 0);
    SameFirstFind(p, a, b);
    if i < 0 {
      MaskOfNothing(p, a);
      MaskOfNothing(p, u);
      assert u == a + ("\n" + b);
    } else {
      var v := i + |p.marker|;
      MaskAtFind(p, a);
      MaskAtFind(p, u);
      var e := ValueEnd(p, a, v);
      RestOfJoined(p, a, b, v);
      if e < |a| {
        LineGoesOrStays(p, a[e..], b);
        Glued(a[..v] + MARK, Mask(p, a[e..]), Mask(p, u[e..]), "\n" + b);
      }
    }
  }

  lemma RestOfJoined(p: Pass, a: string, b: string, v: nat)
    requires v <= |a| && !p.anySeparators && '"' !in b
    ensures var u := a + "\n" + b; var e := ValueEnd(p, a, v);
      && u[..v] == a[..v]
      && (if e < |a| then ValueEnd(p, u, v) == e && u[e..] == a[e..] + "\n" + b
          else ValueEnd(p, u, v) == |u| && u[|u|..] == a[|a|..] == "")
  {
    hide ValueEnd;
    var u := a + "\n" + b;
    var e := ValueEnd(p, a, v);
    ValueEndIs(p, a, v);
    ValueEndUnique(p, u, v, if e < |a| then e else |u|);
  }

  lemma Glued(head: string, small: string, large: string, line: string)
    requires large == small || large == small + line
    ensures head + large == head + small || head + large == (head + small) + line
  {
    if large != small {
      assert head + (small + line) == (head + small) + line;
    }
  }

  lemma MaskOfNothing(p: Pass, s: string)
    requires p.marker != "" && Find(s, p.marker, 0) < 0
    ensures Mask(p, s) == s
  {
    MaskEnds(MARK, p, s);
  }

  lemma MaskAtFind(p: Pass, s: string)
    requires p.marker != "" && !p.anySeparators && 0 <= Find(s, p.marker, 0)
    ensures var v := Find(s, p.marker, 0) + |p.marker|; Mask(p, s) == s[..v] + MARK + Mask(p, s[ValueEnd(p, s, v)..])
  {
    hide Mask, Find, ValueEnd, OccursAt;
    FindIsFirst(s, p.marker, 0);
    MaskAtFirst(p, s, Find(s, p.marker, 0));
  }

  lemma OpenPassSwallows(p: Pass, a: string, b: string)
    requires p in Passes() && !p.anySeparators && '"' !in b && p.marker != ""
    requires Masked(MARK, p, a) && EndsOpen(p, a)
    ensures Mask(p, a + "\n" + b) == a
  {
    hide Mask, Masked, EndsOpen, Passes, ProperMark;
    MarkIsProper();
    MaskedIsFixed(MARK, p, a);
    LineGoesOrStays(p, a, b);
    assert a + ("\n" + b) == a + "\n" + b;
    OpenEndIsNotCovered(p, a, b);
    MaskIsMaskWith(p, a);
    if Mask(p, a + "\n" + b) == a + "\n" + b {
      var i :| 0 <= i < |Passes()| && Passes()[i] == p;
      FixedIffMasked(i, a + "\n" + b);
    }
  }

  /** The passes from the n-th on: either one of them takes the line, or all leave the text alone. */
  lemma {:induction false} PassesSwallow(n: nat, a: string, b: string)
    requires n <= |Passes()| && '"' !in b
    requires Redacted(a) == a && Redacted(b) == b
    ensures var out := MaskAll(Passes()[n..], a + "\n" + b);
      if exists i :: n <= i < |Passes()| && !Passes()[i].anySeparators && EndsOpen(Passes()[i], a) then out == a
      else out == a + "\n" + b
    decreases |Passes()| - n
  {
    hide Redacted, Masked, EndsOpen, Mask, Passes, TokenFree;
    var u := a + "\n" + b;
    if n < |Passes()| {
      var p := Passes()[n];
      FixedTextIff(a);
      FixedTextIff(b);
      assert Passes()[n..][1..] == Passes()[n + 1..] && p in Passes();
      if !p.anySeparators && EndsOpen(p, a) {
        OpenPassSwallows(p, a, b);
        forall q | q in Passes()[n + 1..] ensures Masked(MARK, q, a) { assert q in Passes(); }
        MaskedIsFixedByAll(Passes()[n + 1..], a);
      } else {
        JoinedIsMaskedIff(p, a, b);
        FixedIffMasked(n, u);
        PassesSwallow(n + 1, a, b);
      }
    }
  }

  /** A line without a quote behind a line that leaves a value open is lost, and the line end with it. */
  lemma OpenLineSwallows(a: string, b: string)
    requires Redacted(a) == a && Redacted(b) == b && LeavesOpen(a) && '"' !in b
    ensures Redacted(Join([a, b])) == a
  {
    hide EndsOpen, Passes, TokenFree, MaskTokensWith;
    assert [a, b][1..] == [b];
    var u := a + "\n" + b;
    FixedTextIff(a);
    FixedTextIff(b);
    JoinedIsTokenFree(a, b);
    TokenFreeIsKept(u);
    var p :| p in Passes() && !p.anySeparators && EndsOpen(p, a);
    var i :| 0 <= i < |Passes()| && Passes()[i] == p;
    PassesSwallow(0, a, b);
    assert Passes()[0..] == Passes();
  }

  // ---- there are such lines ----

  const OPEN_LINE := "\"authUrl\":\"[REDACTED]"

  lemma OpenLineLetters(i: nat)
    requires i + 3 <= |OPEN_LINE|
    requires StartsAKey(LowerChar(OPEN_LINE[i]), LowerChar(OPEN_LINE[i + 1]), LowerChar(OPEN_LINE[i + 2]))
    ensures i == 1
  {
  }

  /** The one key in the line is authUrl, at position 1. */
  lemma KeyInOpenLine(n: nat, i: nat)
    requires n < |KEYS| && OccursAt(OPEN_LINE, Lower(KEYS[n]), i)
    ensures i == 1 && n == 8
  {
    hide OccursAt, Lower, StartsAKey;
    KeyStartsLikeAKey(OPEN_LINE, n, i);
    OpenLineLetters(i);
  }

  lemma OpenLineIsCovered(p: Pass, i: nat)
    requires if p.anySeparators then i == 1 && |p.marker| == 7 else i == 0 && |p.marker| == 11
    ensures i + |p.marker| <= |OPEN_LINE| && Covered(MARK, p, OPEN_LINE, i)
  {
    hide SeparatorsEnd;
    ValuePosUnique(p, OPEN_LINE, i, 11);
    assert HasMark(OPEN_LINE, 11, MARK);
  }

  lemma OpenLineIsMasked(j: nat)
    requires j < |Passes()|
    ensures Masked(MARK, Passes()[j], OPEN_LINE)
  {
    hide OccursAt, Covered, Passes, Lower;
    var p := Passes()[j];
    LowerUserKeys();
    forall i: nat | OccursAt(OPEN_LINE, p.marker, i)
      ensures i + |p.marker| <= |OPEN_LINE| && Covered(MARK, p, OPEN_LINE, i)
    {
      if j < |KEYS| {
        KeyInOpenLine(j, i);
      } else {
        var k := JsonKeyIndex(j - |KEYS|);
        QuotedAround(OPEN_LINE, Lower(KEYS[k]), i);
        KeyInOpenLine(k, i + 1);
      }
      OpenLineIsCovered(p, i);
    }
  }

  /** Redacted as it is, and open: so is what the first line of a wrapped JSON value becomes. */
  lemma OpenLineIsOpen()
    ensures Redacted(OPEN_LINE) == OPEN_LINE && LeavesOpen(OPEN_LINE)
  {
    hide OccursAt, Masked, Passes, Lower, Redacted;
    assert 's' !in OPEN_LINE;
    FixedTextIff(OPEN_LINE);
    forall p | p in Passes()
      ensures Masked(MARK, p, OPEN_LINE)
    {
      var j :| 0 <= j < |Passes()| && Passes()[j] == p;
      OpenLineIsMasked(j);
    }
    var p := Passes()[|KEYS| + 0];
    LowerUserKeys();
    var k := JsonKeyIndex(0);
    OpenLineHasMarker();
    assert p == JsonPass("authUrl") && EndsOpen(p, OPEN_LINE);
  }

  lemma OpenLineHasMarker()
    ensures JsonPass("authUrl").marker == "\"authurl\":\"" && OccursAt(OPEN_LINE, "\"authurl\":\"", 0)
  {
  }
}
