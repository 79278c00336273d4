/**
  What the app-server client removes from stderr lines before it keeps them: API keys, and the values
  behind twelve keys, matched without regard to case. Text is ASCII.
 */
module Redaction {

  const MARK := "[REDACTED]"
  const API_KEY_MARK := "[REDACTED_API_KEY]"
  const API_KEY_PREFIX := "sk-"

  const KEYS: seq<string> := [
    "authorization", "access_token", "access token", "refresh_token", "refresh token", "password",
    "userCode", "user code", "authUrl", "auth url", "verificationUrl", "verification url"]
  const JSON_KEYS: seq<string> := ["authUrl", "verificationUrl", "userCode"]

  /** `anySeparators`: redactKeyValue, skipping separators after the key; otherwise redactJSONValue. */
  datatype Pass = Pass(marker: string, anySeparators: bool)

  function LowerChar(c: char): char {
    if 'A' <= c <= 'Z' then (c as int + 32) as char else c
  }

  function Lower(s: string): string {
    seq(|s|, i requires 0 <= i < |s| => LowerChar(s[i]))
  }

  function KeyPass(key: string): Pass {
    Pass(Lower(key), true)
  }

  function JsonPass(key: string): Pass {
    Pass(Lower("\"" + key + "\":\""), false)
  }

  predicate IsSeparator(c: char) {
    c == ' ' || c == ':' || c == '=' || c == '"'
  }

  predicate IsStop(p: Pass, c: char) {
    c == '"' || (p.anySeparators && (c == ' ' || c == '\n' || c == '\r'))
  }

  predicate IsTokenChar(c: char) {
    c == '-' || c == '_' || '0' <= c <= '9' || 'A' <= c <= 'Z' || 'a' <= c <= 'z'
  }

  /** The lower-cased text has `m` at position `i`. */
  predicate OccursAt(s: string, m: string, i: nat) {
    i + |m| <= |s| && forall j :: 0 <= j < |m| ==> LowerChar(s[i + j]) == m[j]
  }

  /** strings.Index on the lower-cased text, from position `i` on. */
  function Find(s: string, m: string, i: nat): (r: int)
    ensures r == -1 || (i <= r && r + |m| <= |s|)
    decreases |s| - i
  {
    if |s| < i + |m| then -1 else if OccursAt(s, m, i) then i else if i == |s| then -1 else Find(s, m, i + 1)
  }

  lemma {:induction false} FindIsFirst(s: string, m: string, i: nat)
    ensures var r := Find(s, m, i);
      if r < 0 then forall k: nat :: i <= k ==> !OccursAt(s, m, k)
      else OccursAt(s, m, r) && forall k: nat :: i <= k < r ==> !OccursAt(s, m, k)
    decreases |s| - i
  {
    if i + |m| <= |s| && !OccursAt(s, m, i) && i < |s| {
      FindIsFirst(s, m, i + 1);
    }
  }

  predicate TokenAt(s: string, i: nat) {
    i + 3 <= |s| && s[i] == 's' && s[i + 1] == 'k' && s[i + 2] == '-'
  }

  function FindToken(s: string, i: nat): (r: int)
    ensures r == -1 || (i <= r && r + 3 <= |s|)
    decreases |s| - i
  {
    if |s| < i + 3 then -1 else if TokenAt(s, i) then i else FindToken(s, i + 1)
  }

  lemma {:induction false} FindTokenIsFirst(s: string, i: nat)
    ensures var r := FindToken(s, i);
      if r < 0 then forall k: nat :: i <= k ==> !TokenAt(s, k)
      else TokenAt(s, r) && forall k: nat :: i <= k < r ==> !TokenAt(s, k)
    decreases |s| - i
  {
    if i + 3 <= |s| && !TokenAt(s, i) {
      FindTokenIsFirst(s, i + 1);
    }
  }

  function SeparatorsEnd(s: string, i: nat): (r: nat)
    requires i <= |s|
    ensures i <= r <= |s|
    decreases |s| - i
  {
    if i < |s| && IsSeparator(s[i]) then SeparatorsEnd(s, i + 1) else i
  }

  function ValueEnd(p: Pass, s: string, i: nat): (r: nat)
    requires i <= |s|
    ensures i <= r <= |s|
    decreases |s| - i
  {
    if i < |s| && !IsStop(p, s[i]) then ValueEnd(p, s, i + 1) else i
  }

  function TokenEnd(s: string, i: nat): (r: nat)
    requires i <= |s|
    ensures i <= r <= |s|
    decreases |s| - i
  {
    if i < |s| && IsTokenChar(s[i]) then TokenEnd(s, i + 1) else i
  }

  /** Scanning a suffix is scanning the text from there. */
  lemma {:induction false} EndsInSuffix(p: Pass, s: string, n: nat, i: nat)
    requires n + i <= |s|
    ensures n + SeparatorsEnd(s[n..], i) == SeparatorsEnd(s, n + i)
    ensures n + ValueEnd(p, s[n..], i) == ValueEnd(p, s, n + i)
    ensures n + TokenEnd(s[n..], i) == TokenEnd(s, n + i)
    decreases |s| - i
  {
    if n + i < |s| {
      EndsInSuffix(p, s, n, i + 1);
    }
  }

  function DropSeparators(s: string): string {
    s[SeparatorsEnd(s, 0)..]
  }

  function DropValue(p: Pass, s: string): string {
    s[ValueEnd(p, s, 0)..]
  }

  function DropToken(s: string): string {
    s[TokenEnd(s, 0)..]
  }

  lemma DropsInSuffix(p: Pass, s: string, n: nat)
    requires n <= |s|
    ensures DropSeparators(s[n..]) == s[SeparatorsEnd(s, n)..]
    ensures DropValue(p, s[n..]) == s[ValueEnd(p, s, n)..]
    ensures DropToken(s[n..]) == s[TokenEnd(s, n)..]
  {
    hide SeparatorsEnd, ValueEnd, TokenEnd;
    EndsInSuffix(p, s, n, 0);
  }

  /** What follows the marker that `s` starts with, without the separators the pass skips. */
  function Value(p: Pass, s: string): (r: string)
    requires |p.marker| <= |s|
    ensures |r| <= |s| - |p.marker|
  {
    if p.anySeparators then DropSeparators(s[|p.marker|..]) else s[|p.marker|..]
  }

  /** One pass: behind each occurrence of the marker the value becomes `mark`; then the rest of the text. */
  function MaskWith(mark: string, p: Pass, s: string): string
    requires p.marker != ""
    decreases |s|
  {
    var i := Find(s, p.marker, 0);
    if i < 0 then
      s
    else
      var value := Value(p, s[i..]);
      s[..|s| - |value|] + mark + MaskWith(mark, p, DropValue(p, value))
  }

  function Mask(p: Pass, s: string): string
    requires p.marker != ""
  {
    MaskWith(MARK, p, s)
  }

  function MaskTokensWith(mark: string, s: string): string
    decreases |s|
  {
    var i := FindToken(s, 0);
    if i < 0 then s else s[..i] + mark + MaskTokensWith(mark, DropToken(s[i + 3..]))
  }

  function MaskTokens(s: string): string {
    MaskTokensWith(API_KEY_MARK, s)
  }

  function MaskAll(passes: seq<Pass>, s: string): string
    requires forall p <- passes :: p.marker != ""
  {
    if passes == [] then s else MaskAll(passes[1..], Mask(passes[0], s))
  }

  function Passes(): (r: seq<Pass>)
    ensures |r| == |KEYS| + |JSON_KEYS|
    ensures forall i :: 0 <= i < |KEYS| ==> r[i] == KeyPass(KEYS[i])
    ensures forall i :: 0 <= i < |JSON_KEYS| ==> r[|KEYS| + i] == JsonPass(JSON_KEYS[i])
    ensures forall p <- r :: p.marker != ""
  {
    seq(|KEYS|, i requires 0 <= i < |KEYS| => KeyPass(KEYS[i]))
    + seq(|JSON_KEYS|, i requires 0 <= i < |JSON_KEYS| => JsonPass(JSON_KEYS[i]))
  }

  function Redacted(s: string): string {
    MaskAll(Passes(), MaskTokens(s))
  }

  // ---- the loops ----

  method ScanSeparators(input: string, from: nat) returns (pos: nat)
    requires from <= |input|
    ensures pos == SeparatorsEnd(input, from)
  {
    pos := from;
    while pos < |input| && IsSeparator(input[pos])
      invariant from <= pos <= |input|
      invariant SeparatorsEnd(input, from) == SeparatorsEnd(input, pos)
    {
      pos := pos + 1;
    }
  }

  method ScanValue(p: Pass, input: string, from: nat) returns (end: nat)
    requires from <= |input|
    ensures end == ValueEnd(p, input, from)
  {
    end := from;
    while end < |input| && !IsStop(p, input[end])
      invariant from <= end <= |input|
      invariant ValueEnd(p, input, from) == ValueEnd(p, input, end)
    {
      end := end + 1;
    }
  }

  method ScanToken(input: string, from: nat) returns (end: nat)
    requires from <= |input|
    ensures end == TokenEnd(input, from)
  {
    end := from;
    while end < |input| && IsTokenChar(input[end])
      invariant from <= end <= |input|
      invariant TokenEnd(input, from) == TokenEnd(input, end)
    {
      end := end + 1;
    }
  }

  /** Rewriting part of `rest` in a text that is `done` followed by `rest`. */
  lemma RestIsRewritten(done: string, rest: string, start: nat, end: nat, mark: string)
    requires start <= end <= |rest|
    ensures var input := done + rest;
      input[..|done| + start] + mark + input[|done| + end..] == (done + rest[..start] + mark) + rest[end..]
  {
  }

  lemma Behind(done: string, rest: string, i: nat)
    requires i <= |rest|
    ensures (done + rest)[|done| + i..] == rest[i..] && rest[0..] == rest
  {
  }

  lemma MaskStep(mark: string, p: Pass, s: string, i: nat)
    requires p.marker != "" && Find(s, p.marker, 0) == i
    ensures var value := Value(p, s[i..]);
      MaskWith(mark, p, s) == s[..|s| - |value|] + mark + MaskWith(mark, p, DropValue(p, value))
  {
  }

  lemma MaskEnds(mark: string, p: Pass, s: string)
    requires p.marker != "" && Find(s, p.marker, 0) < 0
    ensures MaskWith(mark, p, s) == s
  {
  }

  lemma Regroup(goal: string, done: string, masked: string, head: string, mark: string, tail: string)
    requires done + masked == goal && masked == head + mark + tail
    ensures (done + head + mark) + tail == goal
  {
  }

  /** The positions found in the whole text, as positions in the part not yet searched. */
  lemma NextRest(p: Pass, done: string, rest: string, found: nat, pos: nat, end: nat)
    requires found + |p.marker| <= |rest|
    requires var input := done + rest; var from := |done| + found + |p.marker|;
      && pos == (if p.anySeparators then SeparatorsEnd(input, from) else from)
      && end == ValueEnd(p, input, pos)
    ensures var value := Value(p, rest[found..]);
      && |rest| - |value| == pos - |done|
      && rest[end - |done|..] == DropValue(p, value)
  {
    hide SeparatorsEnd, ValueEnd, TokenEnd, DropSeparators;
    var from := |done| + found + |p.marker|;
    assert rest[found..][|p.marker|..] == (done + rest)[from..];
    DropsInSuffix(p, done + rest, from);
    assert Value(p, rest[found..]) == (done + rest)[pos..];
    DropsInSuffix(p, done + rest, pos);
    Behind(done, rest, end - |done|);
  }

  /** One rewrite: the text is again a finished part and a rest, which together still make up the goal. */
  lemma PassGoesOn(mark: string, p: Pass, goal: string, done: string, rest: string, found: nat, pos: nat, end: nat)
    requires p.marker != "" && done + MaskWith(mark, p, rest) == goal && Find(rest, p.marker, 0) == found
    requires |done| + found + |p.marker| <= pos <= end <= |done| + |rest|
    requires |rest| - |Value(p, rest[found..])| == pos - |done|
    requires rest[end - |done|..] == DropValue(p, Value(p, rest[found..]))
    ensures done + rest[..pos - |done|] + mark + MaskWith(mark, p, rest[end - |done|..]) == goal
    ensures (done + rest)[..pos] + mark + (done + rest)[end..]
         == done + rest[..pos - |done|] + mark + rest[end - |done|..]
  {
    hide *;
    MaskStep(mark, p, rest, found);
    Regroup(goal, done, MaskWith(mark, p, rest), rest[..pos - |done|], mark, MaskWith(mark, p, rest[end - |done|..]));
    RestIsRewritten(done, rest, pos - |done|, end - |done|, mark);
  }

  /** The search for the next marker and the end of its value in a text whose first part is finished. */
  method NextValue(p: Pass, input: string, offset: nat, ghost done: string, ghost rest: string)
    returns (found: int, pos: nat, end: nat)
    requires p.marker != "" && input == done + rest && offset == |done|
    ensures found == Find(rest, p.marker, 0)
    ensures 0 <= found ==>
      && offset + found + |p.marker| <= pos <= end <= |input|
      && |rest| - |Value(p, rest[found..])| == pos - offset
      && rest[end - offset..] == DropValue(p, Value(p, rest[found..]))
  {
    hide *;
    Behind(done, rest, 0);
    found, pos, end := Find(input[offset..], p.marker, 0), 0, 0;
    if 0 <= found {
      pos := offset + found + |p.marker|;
      if p.anySeparators {
        pos := ScanSeparators(input, pos);
      }
      end := ScanValue(p, input, pos);
      NextRest(p, done, rest, found, pos, end);
    }
  }

  /** redactKeyValue and redactJSONValue: the text is rewritten while it is searched. */
  method RunPass(mark: string, p: Pass, text: string) returns (input: string)
    requires p.marker != ""
    ensures input == MaskWith(mark, p, text)
  {
    hide *;
    input := text;
    var offset := 0;
    ghost var goal := MaskWith(mark, p, text);
    ghost var done, rest := "", text;
    while true
      invariant offset == |done| && input == done + rest
      invariant done + MaskWith(mark, p, rest) == goal
      decreases |rest|
    {
      var found, pos, end := NextValue(p, input, offset, done, rest);
      if found < 0 {
        MaskEnds(mark, p, rest);
        return;
      }
      PassGoesOn(mark, p, goal, done, rest, found, pos, end);
      input := input[..pos] + mark + input[end..];
      done, rest := done + rest[..pos - offset] + mark, rest[end - offset..];
      offset := pos + |mark|;
    }
  }

  ghost predicate TokenFree(s: string) {
    forall i: nat :: !TokenAt(s, i)
  }

  /** A replacement that starts and ends in a bracket and has no token in it. */
  ghost predicate Bracketed(mark: string) {
    |mark| >= 2 && mark[0] == '[' && mark[|mark| - 1] == ']' && TokenFree(mark)
  }

  /** A token-free part that is empty or ends in a bracket: no token begins in it, whatever follows. */
  ghost predicate Final(done: string) {
    TokenFree(done) && (done != "" ==> done[|done| - 1] == ']')
  }

  /** Searching from the start finds what is behind the final part. */
  lemma FirstTokenIsBehind(done: string, rest: string)
    requires Final(done)
    ensures var found := FindToken(done + rest, 0);
      FindToken(rest, 0) == (if found < 0 then -1 else found - |done|) && (0 <= found ==> |done| <= found)
  {
    var s := done + rest;
    FindTokenIsFirst(s, 0);
    FindTokenIsFirst(rest, 0);
    forall i: nat
      ensures i < |done| ==> !TokenAt(s, i)
      ensures TokenAt(s, |done| + i) == TokenAt(rest, i)
    {
      assert !TokenAt(done, i);
    }
    var r := FindToken(rest, 0);
    assert 0 <= r ==> TokenAt(s, |done| + r);
    var found := FindToken(s, 0);
    assert 0 <= found ==> |done| <= found && TokenAt(rest, found - |done|);
  }

  lemma FinalGrows(done: string, rest: string, mark: string)
    requires Bracketed(mark) && Final(done) && 0 <= FindToken(rest, 0)
    ensures Final(done + rest[..FindToken(rest, 0)] + mark)
  {
    FindTokenIsFirst(rest, 0);
    var i := FindToken(rest, 0);
    var t := done + rest[..i] + mark;
    forall k: nat
      ensures !TokenAt(t, k)
    {
      if k < |done| {
        assert !TokenAt(done, k);
      } else if k < |done| + i {
        assert !TokenAt(rest, k - |done|);
      } else {
        assert !TokenAt(mark, k - |done| - i);
      }
    }
  }

  lemma MaskTokensEnds(mark: string, s: string)
    requires FindToken(s, 0) < 0
    ensures MaskTokensWith(mark, s) == s
  {
  }

  lemma MaskTokensStep(mark: string, s: string, i: nat)
    requires FindToken(s, 0) == i
    ensures MaskTokensWith(mark, s) == s[..i] + mark + MaskTokensWith(mark, DropToken(s[i + 3..]))
  {
  }

  lemma TokensEnd(done: string, rest: string)
    requires Final(done) && FindToken(done + rest, 0) < 0
    ensures TokenFree(done + rest) && FindToken(rest, 0) < 0
  {
    FindTokenIsFirst(done + rest, 0);
    FirstTokenIsBehind(done, rest);
  }

  lemma TokensGoOn(mark: string, goal: string, done: string, rest: string, found: nat, end: nat)
    requires Bracketed(mark) && Final(done) && done + MaskTokensWith(mark, rest) == goal
    requires FindToken(done + rest, 0) == found && found + 3 <= end <= |done| + |rest|
    requires end == TokenEnd(done + rest, found + 3)
    ensures |done| <= found
    ensures var next := done + rest[..found - |done|] + mark;
      && Final(next)
      && next + MaskTokensWith(mark, rest[end - |done|..]) == goal
      && (done + rest)[..found] + mark + (done + rest)[end..] == next + rest[end - |done|..]
  {
    hide *;
    FirstTokenIsBehind(done, rest);
    var i := found - |done|;
    Behind(done, rest, i + 3);
    DropsInSuffix(Pass("", false), done + rest, found + 3);
    Behind(done, rest, end - |done|);
    MaskTokensStep(mark, rest, i);
    Regroup(goal, done, MaskTokensWith(mark, rest), rest[..i], mark, MaskTokensWith(mark, rest[end - |done|..]));
    FinalGrows(done, rest, mark);
    RestIsRewritten(done, rest, i, end - |done|, mark);
  }

  /** redactTokenLike searches from the start again; what it has written never matches. */
  method RunTokens(mark: string, text: string) returns (input: string)
    requires Bracketed(mark)
    ensures input == MaskTokensWith(mark, text) && TokenFree(input)
  {
    assert Final("");
    hide *;
    input := text;
    ghost var goal := MaskTokensWith(mark, text);
    ghost var done, rest := "", text;
    while true
      invariant input == done + rest && Final(done)
      invariant done + MaskTokensWith(mark, rest) == goal
      decreases |rest|
    {
      var found := FindToken(input, 0);
      if found < 0 {
        TokensEnd(done, rest);
        MaskTokensEnds(mark, rest);
        return;
      }
      var end := ScanToken(input, found + 3);
      TokensGoOn(mark, goal, done, rest, found, end);
      input := input[..found] + mark + input[end..];
      done, rest := done + rest[..found - |done|] + mark, rest[end - |done|..];
    }
  }

  /** redactSecrets. */
  method RedactSecrets(input: string) returns (out: string)
    ensures out == Redacted(input)
  {
    assert Bracketed(API_KEY_MARK);
    out := RunTokens(API_KEY_MARK, input);
    var passes := Passes();
    for n := 0 to |passes|
      invariant MaskAll(passes[n..], out) == Redacted(input)
    {
      out := RunPass(MARK, passes[n], out);
      assert passes[n..][1..] == passes[n + 1..];
    }
  }
}
