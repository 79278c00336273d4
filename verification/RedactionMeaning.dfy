/** How far redaction reaches, in characters: which text is a key, which a value, and which an API key. */
module RedactionMeaning {
  import opened Redaction
  import opened RedactionTheorems
  import opened RedactionKeys
  import opened RedactSecretsTheorems

  /** The characters of an API key. */
  predicate TokenLetter(c: char) {
    c in {
      '-', '_', '0', '1', '2', '3', '4', '5', '6', '7', '8', '9',
      'A', 'B', 'C', 'D', 'E', 'F', 'G', 'H', 'I', 'J', 'K', 'L', 'M', 'N', 'O', 'P', 'Q', 'R', 'S', 'T', 'U', 'V', 'W', 'X', 'Y', 'Z',
      'a', 'b', 'c', 'd', 'e', 'f', 'g', 'h', 'i', 'j', 'k', 'l', 'm', 'n', 'o', 'p', 'q', 'r', 's', 't', 'u', 'v', 'w', 'x', 'y', 'z'}
  }

  /** What ends a value: behind a plain key also a blank or a line end, behind a JSON key only a quote. */
  predicate EndsValue(plain: bool, c: char) {
    if plain then c in {'"', ' ', '\n', '\r'} else c == '"'
  }

  lemma CharactersMean(p: Pass, c: char)
    ensures IsTokenChar(c) <==> TokenLetter(c)
    ensures IsSeparator(c) <==> c in {' ', ':', '=', '"'}
    ensures IsStop(p, c) <==> EndsValue(p.anySeparators, c)
    ensures if 'A' <= c <= 'Z' then LowerChar(c) as int - 'a' as int == c as int - 'A' as int else LowerChar(c) == c
  {
  }

  /** The markers, in the order of the passes. */
  function Marker(n: nat): (m: string)
    requires n < 15
  {
    match n
    case 0 => "authorization"
    case 1 => "access_token"
    case 2 => "access token"
    case 3 => "refresh_token"
    case 4 => "refresh token"
    case 5 => "password"
    case 6 => "usercode"
    case 7 => "user code"
    case 8 => "authurl"
    case 9 => "auth url"
    case 10 => "verificationurl"
    case 11 => "verification url"
    case 12 => "\"" + "authurl" + "\":\""
    case 13 => "\"" + "verificationurl" + "\":\""
    case 14 => "\"" + "usercode" + "\":\""
  }

  lemma KeyMarkersMean(n: nat)
    requires n < 12
    ensures |KEYS| == 12 && Lower(KEYS[n]) == Marker(n)
  {
    hide Lower;
    LowerTokenKeys();
    LowerUserKeys();
  }

  lemma QuotedMarkers()
    ensures Quoted("authurl") == Marker(12) && Quoted("verificationurl") == Marker(13) && Quoted("usercode") == Marker(14)
  {
  }

  lemma JsonPassMeans(key: string)
    ensures JsonPass(key) == Pass(Quoted(Lower(key)), false)
  {
    hide Lower;
    LowerQuoted(key);
  }

  lemma JsonMarkersMean(n: nat)
    requires 12 <= n < 15
    ensures |JSON_KEYS| == 3 && JsonPass(JSON_KEYS[n - 12]) == Pass(Marker(n), false)
  {
    hide Lower, Quoted, Marker, JsonPass;
    LowerUserKeys();
    QuotedMarkers();
    JsonPassMeans(JSON_KEYS[n - 12]);
  }

  lemma MarkersMean(n: nat)
    requires n < 15
    ensures |Passes()| == 15 && Passes()[n] == Pass(Marker(n), n < 12)
  {
    hide Lower, Marker, Passes;
    if n < 12 {
      KeyMarkersMean(n);
    } else {
      JsonMarkersMean(n);
    }
    assert n < 12 ==> Passes()[n] == KeyPass(KEYS[n]);
    assert 12 <= n ==> Passes()[12 + (n - 12)] == JsonPass(JSON_KEYS[n - 12]);
  }

  /** The text has the marker at `i`, whatever the case of its letters. */
  ghost predicate HasMarker(s: string, marker: string, i: nat) {
    i + |marker| <= |s| && Lower(s[i..i + |marker|]) == marker
  }

  lemma OccursMeans(s: string, marker: string, i: nat)
    ensures OccursAt(s, marker, i) <==> HasMarker(s, marker, i)
  {
    if OccursAt(s, marker, i) {
      assert Lower(s[i..i + |marker|]) == marker;
    }
    if HasMarker(s, marker, i) {
      forall j | 0 <= j < |marker|
        ensures LowerChar(s[i + j]) == marker[j]
      {
        assert Lower(s[i..i + |marker|])[j] == LowerChar(s[i + j]);
      }
    }
  }

  /**
    One of the fifteen passes at the first marker: behind a plain key blanks, colons, equal signs and quotes are
    skipped; from there up to what ends a value the text becomes "[REDACTED]", and the rest goes on.
   */
  lemma ValueReach(n: nat, s: string, i: nat, v: nat, e: nat)
    requires n < 15
    requires HasMarker(s, Marker(n), i) && forall k: nat :: k < i ==> !HasMarker(s, Marker(n), k)
    requires i + |Marker(n)| <= v <= e <= |s|
    requires if n < 12 then (forall k :: i + |Marker(n)| <= k < v ==> s[k] in {' ', ':', '=', '"'}) && (v < |s| ==> s[v] !in {' ', ':', '=', '"'})
             else v == i + |Marker(n)|
    requires (forall k :: v <= k < e ==> !EndsValue(n < 12, s[k])) && (e < |s| ==> EndsValue(n < 12, s[e]))
    ensures |Passes()| == 15 && Mask(Passes()[n], s) == s[..v] + "[REDACTED]" + Mask(Passes()[n], s[e..])
  {
    hide HasMarker, OccursAt, Mask, IsStop, IsSeparator, Passes, Lower, EndsValue, SeparatorsEnd;
    MarkersMean(n);
    var p := Passes()[n];
    OccursMeans(s, p.marker, i);
    forall k: nat | k < i
      ensures !OccursAt(s, p.marker, k)
    {
      OccursMeans(s, p.marker, k);
    }
    HiddenIff(p, s, i);
    ValuePosIs(p, s, i);
    ValueEndIs(p, s, v);
    forall k | 0 <= k < |s|
      ensures IsSeparator(s[k]) <==> s[k] in {' ', ':', '=', '"'}
      ensures IsStop(p, s[k]) <==> EndsValue(n < 12, s[k])
    {
      CharactersMean(p, s[k]);
    }
  }

  /** Where no marker stands the pass changes nothing. */
  lemma NoMarkerNoMask(n: nat, s: string)
    requires n < 15 && forall k: nat :: !HasMarker(s, Marker(n), k)
    ensures |Passes()| == 15 && Mask(Passes()[n], s) == s
  {
    hide HasMarker, OccursAt, Passes, Lower;
    MarkersMean(n);
    var p := Passes()[n];
    FindIsFirst(s, p.marker, 0);
    if Find(s, p.marker, 0) >= 0 {
      OccursMeans(s, p.marker, Find(s, p.marker, 0));
    }
    MaskEnds(MARK, p, s);
    MaskIsMaskWith(p, s);
  }

  ghost predicate KeyStarts(s: string, i: int) {
    0 <= i && i + 3 <= |s| && s[i..i + 3] == "sk-"
  }

  lemma TokenAtMeans(s: string, i: nat)
    ensures TokenAt(s, i) <==> KeyStarts(s, i)
  {
    if TokenAt(s, i) {
      assert s[i..i + 3] == "sk-";
    }
    if KeyStarts(s, i) {
      assert s[i] == s[i..i + 3][0] && s[i + 1] == s[i..i + 3][1] && s[i + 2] == s[i..i + 3][2];
    }
  }

  /** The first API key: "sk-" and every character of an API key behind it. The rest goes on. */
  lemma TokenReach(head: string, body: string, rest: string)
    requires forall c <- body :: TokenLetter(c)
    requires rest != "" ==> !TokenLetter(rest[0])
    requires forall i :: 0 <= i < |head| ==> !KeyStarts(head + "sk-", i)
    ensures MaskTokens(head + "sk-" + body + rest) == head + "[REDACTED_API_KEY]" + MaskTokens(rest)
  {
    hide TokenEnd, SeparatorsEnd, ValueEnd, TokenLetter, IsTokenChar, TokenAt;
    var s := head + "sk-" + body + rest;
    forall k: nat | k < |head|
      ensures !TokenAt(s, k)
    {
      assert s[k..k + 3] == (head + "sk-")[k..k + 3];
      assert !KeyStarts(head + "sk-", k);
      TokenAtMeans(s, k);
    }
    assert s[|head|..|head| + 3] == "sk-";
    TokenAtMeans(s, |head|);
    FindTokenIsFirst(s, 0);
    MaskTokensStep(API_KEY_MARK, s, |head|);
    assert s[|head| + 3..] == body + rest && s[..|head|] == head;
    TokenEndIs(body, rest);
    assert (body + rest)[|body|..] == rest;
  }

  lemma {:induction false} TokenEndIs(body: string, rest: string)
    requires forall c <- body :: TokenLetter(c)
    requires rest != "" ==> !TokenLetter(rest[0])
    ensures TokenEnd(body + rest, 0) == |body|
  {
    hide TokenLetter, IsTokenChar;
    var s := body + rest;
    var i := |body|;
    if rest != "" {
      CharactersMean(Pass("", true), rest[0]);
    }
    assert TokenEnd(s, |body|) == |body|;
    while i > 0
      invariant 0 <= i <= |body| && TokenEnd(s, i) == |body|
    {
      i := i - 1;
      assert body[i] in body;
      CharactersMean(Pass("", true), body[i]);
    }
  }
}
