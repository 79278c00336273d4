/**
  What redaction achieves: no API key survives, the value behind every key is the mark, no pass undoes
  what another did, and redacting twice is redacting once.
 */
module RedactionTheorems {
  import opened Redaction

  /** Where the value behind the marker at `i` begins. */
  ghost function ValuePos(q: Pass, s: string, i: nat): (v: nat)
    requires i + |q.marker| <= |s|
    ensures i + |q.marker| <= v <= |s|
  {
    if q.anySeparators then SeparatorsEnd(s, i + |q.marker|) else i + |q.marker|
  }

  ghost predicate HasMark(s: string, i: nat, mark: string) {
    i + |mark| <= |s| && forall k :: 0 <= k < |mark| ==> s[i + k] == mark[k]
  }

  /** Behind the marker at `i` and the separators the pass skips comes the mark, and then a stop or the end. */
  ghost predicate Covered(mark: string, q: Pass, s: string, i: nat)
    requires i + |q.marker| <= |s|
  {
    var v := ValuePos(q, s, i);
    HasMark(s, v, mark) && (v + |mark| < |s| ==> IsStop(q, s[v + |mark|]))
  }

  ghost predicate Masked(mark: string, q: Pass, s: string) {
    forall i: nat :: OccursAt(s, q.marker, i) ==> Covered(mark, q, s, i)
  }

  // ---- positions of values ----

  lemma {:induction false} SeparatorsEndIs(s: string, i: nat)
    requires i <= |s|
    ensures var n := SeparatorsEnd(s, i);
      && (forall k :: i <= k < n ==> IsSeparator(s[k]))
      && (n < |s| ==> !IsSeparator(s[n]))
    decreases |s| - i
  {
    if i < |s| && IsSeparator(s[i]) {
      SeparatorsEndIs(s, i + 1);
    }
  }

  lemma ValuePosIs(q: Pass, s: string, i: nat)
    requires i + |q.marker| <= |s|
    ensures var v := ValuePos(q, s, i);
      && (forall k :: i + |q.marker| <= k < v ==> q.anySeparators && IsSeparator(s[k]))
      && (q.anySeparators && v < |s| ==> !IsSeparator(s[v]))
  {
    SeparatorsEndIs(s, i + |q.marker|);
  }

  lemma ValueInText(q: Pass, s: string, i: nat)
    requires i + |q.marker| <= |s|
    ensures Value(q, s[i..]) == s[ValuePos(q, s, i)..]
  {
    hide SeparatorsEnd, DropSeparators, ValueEnd, TokenEnd;
    assert s[i..][|q.marker|..] == s[i + |q.marker|..];
    DropsInSuffix(q, s, i + |q.marker|);
  }

  lemma ValuePosInSuffix(q: Pass, s: string, n: nat, i: nat)
    requires n + i + |q.marker| <= |s|
    ensures n + ValuePos(q, s[n..], i) == ValuePos(q, s, n + i)
  {
    hide SeparatorsEnd, ValueEnd, TokenEnd;
    EndsInSuffix(q, s, n, i + |q.marker|);
  }

  lemma ValuePosUnique(q: Pass, s: string, i: nat, v: nat)
    requires i + |q.marker| <= v < |s|
    requires forall k :: i + |q.marker| <= k < v ==> q.anySeparators && IsSeparator(s[k])
    requires q.anySeparators ==> !IsSeparator(s[v])
    requires !q.anySeparators ==> v == i + |q.marker|
    ensures ValuePos(q, s, i) == v
  {
    hide SeparatorsEnd;
    ValuePosIs(q, s, i);
  }

  lemma {:induction false} ValueEndIs(p: Pass, s: string, i: nat)
    requires i <= |s|
    ensures var n := ValueEnd(p, s, i);
      && (forall k :: i <= k < n ==> !IsStop(p, s[k]))
      && (n < |s| ==> IsStop(p, s[n]))
    decreases |s| - i
  {
    if i < |s| && !IsStop(p, s[i]) {
      ValueEndIs(p, s, i + 1);
    }
  }

  lemma ValueEndUnique(p: Pass, s: string, i: nat, e: nat)
    requires i <= e <= |s| && (e < |s| ==> IsStop(p, s[e]))
    requires forall k :: i <= k < e ==> !IsStop(p, s[k])
    ensures ValueEnd(p, s, i) == e
  {
    hide ValueEnd;
    ValueEndIs(p, s, i);
  }

  /** A text that is covered in `s` is covered in `u`, where `u` repeats it from `j` on. */
  lemma CoverMoves(mark: string, q: Pass, s: string, i: nat, u: string, j: nat, n: nat)
    requires mark != "" && (q.anySeparators ==> !IsSeparator(mark[0]))
    requires i + |q.marker| <= |s| && j + n <= |u| && i + n <= |s|
    requires s[i..i + n] == u[j..j + n]
    requires Covered(mark, q, s, i) && ValuePos(q, s, i) + |mark| - i <= n
    requires ValuePos(q, s, i) + |mark| - i == n ==> j + n == |u|
    ensures j + |q.marker| <= |u| && Covered(mark, q, u, j)
  {
    hide SeparatorsEnd;
    ValuePosIs(q, s, i);
    var v := ValuePos(q, s, i);
    var w := v - i + j;
    forall k | j + |q.marker| <= k < w
      ensures q.anySeparators && IsSeparator(u[k])
    {
      assert s[i..i + n][k - j] == s[k - j + i];
    }
    forall k | 0 <= k < |mark|
      ensures u[w + k] == mark[k]
    {
      assert s[v + k] == mark[k];
      assert s[i..i + n][v - i + k] == u[w + k];
    }
    assert u[w + 0] == mark[0];
    assert HasMark(u, w, mark);
    ValuePosUnique(q, u, j, w);
    if w + |mark| < |u| {
      assert s[i..i + n][v - i + |mark|] == u[w + |mark|];
    }
  }

  // ---- one pass against what another one has masked ----

  /** Placed at offset `d` of `a`, `b` agrees with it as far as both reach. */
  ghost predicate Agrees(a: string, b: string, d: nat) {
    forall t :: 0 <= t < |b| && d + t < |a| ==> a[d + t] == b[t]
  }

  ghost predicate ProperMark(mark: string) {
    && |mark| >= 2 && mark[0] == '[' && mark[|mark| - 1] == ']'
    && forall k :: 0 <= k < |mark| ==> !IsSeparator(mark[k]) && mark[k] != '\n' && mark[k] != '\r'
  }

  /** No occurrence of the marker can begin inside the mark. */
  ghost predicate Foreign(mark: string, m: string) {
    && m != ""
    && (forall t :: 0 <= t < |m| ==> m[t] != '[' && m[t] != ']')
    && (forall d :: 0 <= d < |mark| ==> !Agrees(Lower(mark), m, d))
  }

  /** The marker does not begin among the separators in front of a mark. */
  ghost predicate StartsClear(m: string) {
    m != "" && (IsSeparator(m[0]) ==> |m| >= 2 && !IsSeparator(m[1]) && m[1] != '[')
  }

  /** The text behind a covered marker is known as far as this. */
  ghost function Reach(q: Pass): string {
    if q.anySeparators then q.marker else q.marker + "["
  }

  /** At offset `d` of the pass's marker, `q`'s marker is covered by the mark the pass writes. */
  ghost predicate Aligned(p: Pass, q: Pass, d: nat) {
    || (p == q && d == 0)
    || (q.anySeparators && !p.anySeparators && d + |q.marker| < |p.marker|
          && forall t :: d + |q.marker| <= t < |p.marker| ==> IsSeparator(p.marker[t]))
  }

  /** The pass `p` cannot spoil what `q` has masked. */
  ghost predicate Harmless(mark: string, p: Pass, q: Pass) {
    && Foreign(mark, p.marker) && Foreign(mark, q.marker)
    && StartsClear(p.marker)
    && (p.anySeparators ==> q.anySeparators && !IsSeparator(q.marker[0]))
    && (p != q ==> forall d :: 0 < d < |q.marker| ==> !Agrees(Reach(q), p.marker, d))
    && (forall d: nat ::
          (d < |p.marker| && (p.anySeparators || d + |q.marker| <= |p.marker|) && Agrees(p.marker, q.marker, d))
          ==> Aligned(p, q, d))
  }

  /** The first rewrite of a pass: the marker is found at `found`, and its value begins at `start`. */
  ghost predicate FirstCut(p: Pass, s: string, found: nat, start: nat) {
    && OccursAt(s, p.marker, found) && start == ValuePos(p, s, found)
    && forall k: nat :: k < found ==> !OccursAt(s, p.marker, k)
  }

  /** A marker in front of the found one, apart from it, has its whole cover in front of it too. */
  lemma CoverEndsBefore(mark: string, p: Pass, q: Pass, s: string, found: nat, i: nat)
    requires ProperMark(mark) && Harmless(mark, p, q) && OccursAt(s, p.marker, found)
    requires i + |q.marker| <= found && Covered(mark, q, s, i)
    ensures ValuePos(q, s, i) + |mark| <= found
  {
    hide SeparatorsEnd;
    ValuePosIs(q, s, i);
    var v := ValuePos(q, s, i);
    assert LowerChar(s[found + 0]) == p.marker[0] && s[v + 0] == mark[0];
    assert |p.marker| >= 2 ==> LowerChar(s[found + 1]) == p.marker[1];
    assert v <= found;
    if found < v + |mark| {
      var t := Disagreement(Lower(mark), p.marker, found - v);
    }
  }

  lemma CoverBeforeCut(mark: string, p: Pass, q: Pass, s: string, found: nat, start: nat, tail: string, i: nat)
    requires ProperMark(mark) && Harmless(mark, p, q) && FirstCut(p, s, found, start)
    requires i + |q.marker| <= found && Covered(mark, q, s, i)
    ensures Covered(mark, q, s[..start] + mark + tail, i)
  {
    hide SeparatorsEnd;
    CoverEndsBefore(mark, p, q, s, found, i);
    ValuePosIs(p, s, found);
    var u := s[..start] + mark + tail;
    var n := start - i;
    assert s[i..i + n] == u[i..i + n];
    CoverMoves(mark, q, s, i, u, i, n);
  }

  /** The found marker does not begin inside an earlier covered one. */
  lemma NoOverlapFromLeft(mark: string, p: Pass, q: Pass, s: string, found: nat, start: nat, i: nat)
    requires ProperMark(mark) && Harmless(mark, p, q) && FirstCut(p, s, found, start)
    requires OccursAt(s, q.marker, i) && (p == q || Covered(mark, q, s, i))
    ensures !(i < found < i + |q.marker|)
  {
    hide SeparatorsEnd;
    if i < found < i + |q.marker| && p != q {
      ValuePosIs(q, s, i);
      assert s[ValuePos(q, s, i) + 0] == mark[0];
      var t := Disagreement(Reach(q), p.marker, found - i);
    }
  }

  /** A marker that begins in the found one is aligned with it. */
  lemma OverlapIsAligned(mark: string, p: Pass, q: Pass, s: string, found: nat, start: nat, i: nat)
    requires Harmless(mark, p, q) && FirstCut(p, s, found, start)
    requires found <= i && i + |q.marker| <= start && OccursAt(s, q.marker, i)
    ensures i - found < |p.marker| && Aligned(p, q, i - found)
  {
    hide SeparatorsEnd;
    ValuePosIs(p, s, found);
    var d := i - found;
    assert LowerChar(s[i + 0]) == q.marker[0];
    if d < |p.marker| {
      forall t | 0 <= t < |q.marker| && d + t < |p.marker|
        ensures p.marker[d + t] == q.marker[t]
      {
        assert LowerChar(s[i + t]) == q.marker[t];
        assert LowerChar(s[found + (d + t)]) == p.marker[d + t];
      }
      assert Agrees(p.marker, q.marker, d);
    }
  }

  lemma SeparatorsUpToStart(p: Pass, q: Pass, s: string, found: nat, start: nat, i: nat, k: nat)
    requires FirstCut(p, s, found, start)
    requires found <= i && i + |q.marker| <= k < start && Aligned(p, q, i - found)
    ensures q.anySeparators && IsSeparator(s[k])
  {
    hide SeparatorsEnd;
    ValuePosIs(p, s, found);
    assert k - found < |p.marker| ==> LowerChar(s[found + (k - found)]) == p.marker[k - found];
  }

  lemma AlignedIsCovered(mark: string, p: Pass, q: Pass, s: string, found: nat, start: nat, u: string, i: nat)
    requires ProperMark(mark) && Harmless(mark, p, q) && FirstCut(p, s, found, start)
    requires found <= i && i + |q.marker| <= start && Aligned(p, q, i - found)
    requires start <= |s| && start < |u| && (forall k :: 0 <= k < start ==> u[k] == s[k])
    requires HasMark(u, start, mark) && (start + |mark| < |u| ==> IsStop(q, u[start + |mark|]))
    ensures Covered(mark, q, u, i)
  {
    hide SeparatorsEnd;
    ValuePosIs(p, s, found);
    forall k | i + |q.marker| <= k < start
      ensures q.anySeparators && IsSeparator(u[k])
    {
      SeparatorsUpToStart(p, q, s, found, start, i, k);
    }
    assert u[start + 0] == mark[0];
    ValuePosUnique(q, u, i, start);
  }

  lemma JoinedText(head: string, mark: string, tail: string)
    ensures var u := head + mark + tail;
      && (forall k :: 0 <= k < |head| ==> u[k] == head[k])
      && HasMark(u, |head|, mark)
      && (tail != "" ==> u[|head| + |mark|] == tail[0])
  {
  }

  lemma HeadIsCovered(mark: string, p: Pass, q: Pass, s: string, found: nat, start: nat, tail: string, i: nat)
    requires ProperMark(mark) && Harmless(mark, p, q) && FirstCut(p, s, found, start)
    requires tail != "" ==> IsStop(p, tail[0])
    requires p == q || Masked(mark, q, s)
    requires i + |q.marker| <= start && OccursAt(s, q.marker, i)
    ensures Covered(mark, q, s[..start] + mark + tail, i)
  {
    assert mark != "" && (tail != "" ==> IsStop(q, tail[0]));
    hide SeparatorsEnd, Harmless, Covered, OccursAt, HasMark, ProperMark, Aligned;
    ValuePosIs(p, s, found);
    NoOverlapFromLeft(mark, p, q, s, found, start, i);
    if found <= i {
      OverlapIsAligned(mark, p, q, s, found, start, i);
      JoinedText(s[..start], mark, tail);
      AlignedIsCovered(mark, p, q, s, found, start, s[..start] + mark + tail, i);
    } else {
      CoverBeforeCut(mark, p, q, s, found, start, tail, i);
    }
  }

  lemma MatchesAt(s: string, m: string, i: nat, t: nat)
    requires OccursAt(s, m, i) && t < |m|
    ensures LowerChar(s[i + t]) == m[t]
  {
  }

  lemma Disagreement(a: string, b: string, d: nat) returns (t: nat)
    requires !Agrees(a, b, d)
    ensures t < |b| && d + t < |a| && a[d + t] != b[t]
  {
    t :| t < |b| && d + t < |a| && a[d + t] != b[t];
  }

  /** In a rewritten text, a marker lies wholly in front of the mark or wholly behind it. */
  lemma Placement(mark: string, m: string, head: string, tail: string, i: nat)
    requires ProperMark(mark) && Foreign(mark, m) && OccursAt(head + mark + tail, m, i)
    ensures (i + |m| <= |head| && OccursAt(head, m, i))
         || (|head| + |mark| <= i && OccursAt(tail, m, i - |head| - |mark|))
  {
    var u := head + mark + tail;
    assert u[|head|] == mark[0];
    if i + |m| <= |head| {
      forall j | 0 <= j < |m|
        ensures LowerChar(head[i + j]) == m[j]
      {
        assert u[i + j] == head[i + j];
      }
    } else if |head| + |mark| <= i {
      var k := i - |head| - |mark|;
      forall j | 0 <= j < |m|
        ensures LowerChar(tail[k + j]) == m[j]
      {
        assert u[i + j] == tail[k + j];
      }
    } else if i < |head| {
      MatchesAt(u, m, i, |head| - i);
    } else {
      var t := Disagreement(Lower(mark), m, i - |head|);
    }
  }

  lemma HasMarkInTail(front: string, tail: string, i: nat, mark: string)
    requires HasMark(tail, i, mark)
    ensures HasMark(front + tail, |front| + i, mark)
  {
    forall k | 0 <= k < |mark|
      ensures (front + tail)[|front| + i + k] == mark[k]
    {
      assert tail[i + k] == mark[k];
    }
  }

  lemma TailIsCovered(mark: string, q: Pass, front: string, tail: string, i: nat)
    requires i + |q.marker| <= |tail| && Covered(mark, q, tail, i)
    ensures Covered(mark, q, front + tail, |front| + i)
  {
    hide SeparatorsEnd, HasMark;
    assert (front + tail)[|front|..] == tail;
    ValuePosInSuffix(q, front + tail, |front|, i);
    HasMarkInTail(front, tail, ValuePos(q, tail, i), mark);
  }

  // ---- whole passes ----

  lemma MaskKeepsFirst(mark: string, p: Pass, s: string)
    requires p.marker != ""
    ensures var masked := MaskWith(mark, p, s);
      if s == "" then masked == "" else masked != "" && masked[0] == s[0]
  {
    hide MaskWith, Find, Value;
    var i := Find(s, p.marker, 0);
    if i >= 0 {
      MaskStep(mark, p, s, i);
    } else {
      MaskEnds(mark, p, s);
    }
  }

  /** What follows a value is a stop or the end of the text, and masking keeps its first character. */
  lemma TailStarts(mark: string, p: Pass, value: string)
    requires p.marker != ""
    ensures var tail := MaskWith(mark, p, DropValue(p, value)); tail != "" ==> IsStop(p, tail[0])
  {
    hide ValueEnd, MaskWith, Find, Value;
    ValueEndIs(p, value, 0);
    MaskKeepsFirst(mark, p, DropValue(p, value));
  }

  lemma OccursInSuffix(s: string, n: nat, m: string, i: nat)
    requires n <= |s| && OccursAt(s[n..], m, i)
    ensures OccursAt(s, m, n + i)
  {
    forall j | 0 <= j < |m|
      ensures LowerChar(s[n + i + j]) == m[j]
    {
      assert s[n..][i + j] == s[n + i + j];
    }
  }

  lemma CoveredInSuffix(mark: string, q: Pass, s: string, n: nat, i: nat)
    requires n + i + |q.marker| <= |s| && Covered(mark, q, s, n + i)
    ensures Covered(mark, q, s[n..], i)
  {
    hide SeparatorsEnd;
    ValuePosInSuffix(q, s, n, i);
    var v := ValuePos(q, s, n + i);
    forall k | 0 <= k < |mark|
      ensures s[n..][v - n + k] == mark[k]
    {
      assert s[v + k] == mark[k];
    }
  }

  lemma MaskedSuffix(mark: string, q: Pass, s: string, n: nat)
    requires n <= |s| && Masked(mark, q, s)
    ensures Masked(mark, q, s[n..])
  {
    hide OccursAt, Covered;
    forall i: nat | OccursAt(s[n..], q.marker, i)
      ensures i + |q.marker| <= |s[n..]| && Covered(mark, q, s[n..], i)
    {
      OccursInSuffix(s, n, q.marker, i);
      CoveredInSuffix(mark, q, s, n, i);
    }
  }

  /** What a pass does first: it cuts the text in three and goes on with the last part. */
  lemma FirstRewrite(mark: string, p: Pass, s: string) returns (start: nat, rest: string)
    requires p.marker != "" && 0 <= Find(s, p.marker, 0)
    ensures FirstCut(p, s, Find(s, p.marker, 0), start) && start <= |s|
    ensures |rest| < |s| - start + 1 <= |s| && rest == DropValue(p, s[start..]) == s[|s| - |rest|..]
    ensures MaskWith(mark, p, s) == s[..start] + mark + MaskWith(mark, p, rest)
  {
    hide MaskWith, Find, Value, DropValue, ValuePos, SeparatorsEnd, ValueEnd;
    FindIsFirst(s, p.marker, 0);
    var found := Find(s, p.marker, 0);
    start := ValuePos(p, s, found);
    ValueInText(p, s, found);
    DropsInSuffix(p, s, start);
    rest := DropValue(p, s[start..]);
    MaskStep(mark, p, s, found);
  }

  lemma NoMarkerIsMasked(mark: string, p: Pass, s: string)
    requires Find(s, p.marker, 0) < 0
    ensures Masked(mark, p, s)
  {
    FindIsFirst(s, p.marker, 0);
  }

  /** A pass masks its own marker, and keeps masked what another one has masked. */
  lemma {:induction false} MaskKeepsMasked(mark: string, p: Pass, q: Pass, s: string)
    requires ProperMark(mark) && Harmless(mark, p, q)
    requires p == q || Masked(mark, q, s)
    ensures Masked(mark, q, MaskWith(mark, p, s))
    decreases |s|
  {
    assert p.marker != "";
    hide MaskWith, Find, DropValue, Harmless, ProperMark, FirstCut, OccursAt, Covered;
    if Find(s, p.marker, 0) < 0 {
      MaskEnds(mark, p, s);
      NoMarkerIsMasked(mark, p, s);
    } else {
      var start, rest := FirstRewrite(mark, p, s);
      if p != q {
        MaskedSuffix(mark, q, s, |s| - |rest|);
      }
      MaskKeepsMasked(mark, p, q, rest);
      TailStarts(mark, p, s[start..]);
      CutKeepsMasked(mark, p, q, s, Find(s, p.marker, 0), start, MaskWith(mark, p, rest));
    }
  }

  lemma CutKeepsMasked(mark: string, p: Pass, q: Pass, s: string, found: nat, start: nat, tail: string)
    requires ProperMark(mark) && Harmless(mark, p, q) && FirstCut(p, s, found, start) && start <= |s|
    requires tail != "" ==> IsStop(p, tail[0])
    requires p == q || Masked(mark, q, s)
    requires Masked(mark, q, tail)
    ensures Masked(mark, q, s[..start] + mark + tail)
  {
    forall i: nat | OccursAt(s[..start] + mark + tail, q.marker, i)
      ensures Covered(mark, q, s[..start] + mark + tail, i)
    {
      Placement(mark, q.marker, s[..start], tail, i);
      if i + |q.marker| <= start {
        OccursInPrefix(s, start, q.marker, i);
        HeadIsCovered(mark, p, q, s, found, start, tail, i);
      } else {
        MaskedTail(mark, q, s[..start] + mark, tail, i - start - |mark|);
      }
    }
  }

  lemma MaskedTail(mark: string, q: Pass, front: string, tail: string, i: nat)
    requires Masked(mark, q, tail) && OccursAt(tail, q.marker, i)
    ensures |front| + i + |q.marker| <= |front + tail|
    ensures Covered(mark, q, front + tail, |front| + i)
  {
    TailIsCovered(mark, q, front, tail, i);
  }

  lemma OccursInPrefix(s: string, n: nat, m: string, i: nat)
    requires n <= |s| && OccursAt(s[..n], m, i)
    ensures OccursAt(s, m, i)
  {
    forall j | 0 <= j < |m|
      ensures LowerChar(s[i + j]) == m[j]
    {
      assert s[..n][i + j] == s[i + j];
    }
  }

  /** Where everything is masked a pass changes nothing. */
  lemma {:induction false} MaskedIsFixed(mark: string, p: Pass, s: string)
    requires p.marker != "" && ProperMark(mark) && Masked(mark, p, s)
    ensures MaskWith(mark, p, s) == s
    decreases |s|
  {
    hide MaskWith, Find, DropValue, SeparatorsEnd, HasMark;
    if Find(s, p.marker, 0) < 0 {
      MaskEnds(mark, p, s);
    } else {
      var start, rest := FirstRewrite(mark, p, s);
      MarkIsTheValue(mark, p, s, start);
      MaskedSuffix(mark, p, s, start + |mark|);
      MaskedIsFixed(mark, p, rest);
      Unchanged(mark, s, start, rest);
    }
  }

  lemma Unchanged(mark: string, s: string, start: nat, rest: string)
    requires start + |mark| <= |s| && s[start..start + |mark|] == mark && rest == s[start + |mark|..]
    ensures s[..start] + mark + rest == s
  {
  }

  lemma MarkIsTheValue(mark: string, p: Pass, s: string, start: nat)
    requires ProperMark(mark) && HasMark(s, start, mark)
    requires start + |mark| < |s| ==> IsStop(p, s[start + |mark|])
    ensures DropValue(p, s[start..]) == s[start + |mark|..]
    ensures start + |mark| <= |s| && s[start..start + |mark|] == mark
  {
    hide ValueEnd, SeparatorsEnd, TokenEnd, DropValue, DropSeparators, DropToken;
    DropsInSuffix(p, s, start);
    forall k | start <= k < start + |mark|
      ensures !IsStop(p, s[k])
    {
      assert s[start + (k - start)] == mark[k - start];
    }
    ValueEndUnique(p, s, start, start + |mark|);
  }

  // ---- nothing but values is replaced ----

  /** The stretch from `a` to `b` is a value: it begins behind an occurrence of the marker and ends at a stop. */
  ghost predicate IsValue(p: Pass, s: string, a: nat, b: nat) {
    && a <= b <= |s|
    && (exists i: nat :: OccursAt(s, p.marker, i) && ValuePos(p, s, i) == a)
    && (forall k :: a <= k < b ==> !IsStop(p, s[k]))
    && (b < |s| ==> IsStop(p, s[b]))
  }

  /** Values of the text from `n` on, one behind the other. */
  ghost predicate AreValues(p: Pass, s: string, n: nat, cuts: seq<(nat, nat)>)
    decreases |cuts|
  {
    if cuts == [] then n <= |s|
    else n <= cuts[0].0 && IsValue(p, s, cuts[0].0, cuts[0].1) && AreValues(p, s, cuts[0].1, cuts[1..])
  }

  /** The text from `n` on with the mark in place of every cut. */
  ghost function Spliced(mark: string, p: Pass, s: string, n: nat, cuts: seq<(nat, nat)>): string
    requires AreValues(p, s, n, cuts)
    decreases |cuts|
  {
    if cuts == [] then s[n..] else s[n..cuts[0].0] + mark + Spliced(mark, p, s, cuts[0].1, cuts[1..])
  }

  lemma CutIsValue(p: Pass, s: string, n: nat, found: nat, start: nat)
    requires n <= |s| && FirstCut(p, s[n..], found, start) && start <= |s[n..]|
    ensures n + start <= |s|
    ensures IsValue(p, s, n + start, ValueEnd(p, s, n + start))
  {
    hide SeparatorsEnd, ValueEnd;
    OccursInSuffix(s, n, p.marker, found);
    ValuePosInSuffix(p, s, n, found);
    ValueEndIs(p, s, n + start);
  }

  /** A pass replaces values, in order, and keeps every other character. */
  lemma {:induction false} MaskReplacesValuesOnly(mark: string, p: Pass, s: string, n: nat) returns (cuts: seq<(nat, nat)>)
    requires p.marker != "" && n <= |s|
    ensures AreValues(p, s, n, cuts) && MaskWith(mark, p, s[n..]) == Spliced(mark, p, s, n, cuts)
    decreases |s| - n
  {
    hide MaskWith, Find, ValueEnd, IsValue, FirstCut, SeparatorsEnd;
    if Find(s[n..], p.marker, 0) < 0 {
      MaskEnds(mark, p, s[n..]);
      cuts := [];
    } else {
      var start, rest := FirstRewrite(mark, p, s[n..]);
      var a, b := n + start, |s| - |rest|;
      CutIsValue(p, s, n, Find(s[n..], p.marker, 0), start);
      RestOfCut(p, s, n, start, rest);
      var later := MaskReplacesValuesOnly(mark, p, s, b);
      cuts := [(a, b)] + later;
      assert cuts[1..] == later && s[n..][..start] == s[n..a];
    }
  }

  lemma RestOfCut(p: Pass, s: string, n: nat, start: nat, rest: string)
    requires n <= |s| && start <= |s| - n && rest == DropValue(p, s[n..][start..])
    ensures ValueEnd(p, s, n + start) == |s| - |rest| && rest == s[|s| - |rest|..]
  {
    hide ValueEnd, SeparatorsEnd, TokenEnd, DropValue, DropSeparators, DropToken;
    assert s[n..][start..] == s[n + start..];
    DropsInSuffix(p, s, n + start);
  }
}
