/** The facts about the twelve keys that keep the redaction passes out of each other's way. */
module RedactionKeys {
  import opened Redaction
  import opened RedactionTheorems

  predicate IsSmallLetter(c: char) {
    'a' <= c <= 'z'
  }

  /** The text at `d` begins like a key, as far as it goes. */
  predicate Begins(t: string, d: nat)
    requires d < |t|
  {
    var c := t[d];
    if d + 1 == |t| then c == 'a' || c == 'r' || c == 'p' || c == 'u' || c == 'v'
    else
      var e := t[d + 1];
      || (c == 'a' && (e == 'u' || e == 'c'))
      || (c == 'r' && e == 'e' && (d + 2 < |t| ==> t[d + 2] == 'f'))
      || (c == 'p' && e == 'a')
      || (c == 'u' && e == 's')
      || (c == 'v' && e == 'e')
  }

  /** A lower-case key: letters, underscores and spaces, beginning like a key there and nowhere else. */
  ghost predicate KeyLike(k: string) {
    && |k| >= 3
    && (forall t :: 0 <= t < |k| ==> IsSmallLetter(k[t]) || k[t] == '_' || k[t] == ' ')
    && IsSmallLetter(k[0]) && Begins(k, 0)
    && (k[0] == 'a' && k[1] == 'c' ==> k[2] == 'c')
    && (forall d :: 0 < d < |k| ==> !Begins(k, d))
  }

  /** Where keys that begin with the same two letters differ. */
  function Fork(c: char, d: char): nat {
    if c == 'a' then (if d == 'u' then 4 else 6) else if c == 'r' then 7 else if c == 'u' then 4 else if c == 'v' then 12 else 0
  }

  /** The key with these first two letters and this one at the fork. */
  function KeyIndex(c: char, d: char, e: char): nat {
    if c == 'a' && d == 'u' then (if e == 'o' then 0 else if e == 'u' then 8 else 9)
    else if c == 'a' then (if e == '_' then 1 else 2)
    else if c == 'r' then (if e == '_' then 3 else 4)
    else if c == 'p' then 5
    else if c == 'u' then (if e == 'c' then 6 else 7)
    else (if e == 'u' then 10 else 11)
  }

  ghost predicate IsKey(k: string, n: nat) {
    KeyLike(k) && Fork(k[0], k[1]) < |k| && KeyIndex(k[0], k[1], k[Fork(k[0], k[1])]) == n
  }

  // ---- the twelve keys: lower-cased, and seen to be keys ----

  lemma LowerTokenKeys()
    ensures Lower("authorization") == "authorization"
    ensures Lower("access_token") == "access_token"
    ensures Lower("access token") == "access token"
    ensures Lower("refresh_token") == "refresh_token"
    ensures Lower("refresh token") == "refresh token"
    ensures Lower("password") == "password"
  {
  }

  lemma LowerUserKeys()
    ensures Lower("userCode") == "usercode"
    ensures Lower("user code") == "user code"
    ensures Lower("authUrl") == "authurl"
    ensures Lower("auth url") == "auth url"
    ensures Lower("verificationUrl") == "verificationurl"
    ensures Lower("verification url") == "verification url"
  {
  }

  lemma AuthorizationIsKey()
    ensures IsKey("authorization", 0)
  {
  }

  lemma AccessTokenIsKey()
    ensures IsKey("access_token", 1)
  {
  }

  lemma SpacedAccessTokenIsKey()
    ensures IsKey("access token", 2)
  {
  }

  lemma RefreshTokenIsKey()
    ensures IsKey("refresh_token", 3)
  {
  }

  lemma SpacedRefreshTokenIsKey()
    ensures IsKey("refresh token", 4)
  {
  }

  lemma PasswordIsKey()
    ensures IsKey("password", 5)
  {
  }

  lemma UserCodeIsKey()
    ensures IsKey("usercode", 6)
  {
  }

  lemma SpacedUserCodeIsKey()
    ensures IsKey("user code", 7)
  {
  }

  lemma AuthUrlIsKey()
    ensures IsKey("authurl", 8)
  {
  }

  lemma SpacedAuthUrlIsKey()
    ensures IsKey("auth url", 9)
  {
  }

  lemma VerificationUrlIsKey()
    ensures IsKey("verificationurl", 10)
  {
  }

  lemma SpacedVerificationUrlIsKey()
    ensures IsKey("verification url", 11)
  {
  }

  lemma KeysAreKeys(n: nat)
    requires n < |KEYS|
    ensures IsKey(Lower(KEYS[n]), n)
  {
    hide IsKey, Lower;
    LowerTokenKeys();
    LowerUserKeys();
    AuthorizationIsKey();
    AccessTokenIsKey();
    SpacedAccessTokenIsKey();
    RefreshTokenIsKey();
    SpacedRefreshTokenIsKey();
    PasswordIsKey();
    UserCodeIsKey();
    SpacedUserCodeIsKey();
    AuthUrlIsKey();
    SpacedAuthUrlIsKey();
    VerificationUrlIsKey();
    SpacedVerificationUrlIsKey();
  }

  // ---- keys and JSON markers among each other ----

  lemma KeysDoNotOverlap(k: string, k2: string, d: nat)
    requires KeyLike(k) && KeyLike(k2) && 0 < d < |k|
    ensures !Agrees(k, k2, d)
  {
    if Agrees(k, k2, d) {
      assert k[d + 0] == k2[0];
      assert d + 1 < |k| ==> k[d + 1] == k2[1];
      assert d + 2 < |k| ==> k[d + 2] == k2[2];
      assert Begins(k, d);
    }
  }

  lemma AgreeingKeysAreEqual(k: string, n: nat, k2: string, n2: nat)
    requires IsKey(k, n) && IsKey(k2, n2) && Agrees(k, k2, 0)
    ensures n == n2
  {
    assert k[0 + 0] == k2[0] && k[0 + 1] == k2[1];
    var f := Fork(k[0], k[1]);
    assert k[0 + f] == k2[f];
  }

  function Quoted(k: string): (m: string)
    ensures |m| == |k| + 4 && m[0] == m[|k| + 1] == m[|k| + 3] == '"' && m[|k| + 2] == ':'
    ensures forall t :: 0 < t <= |k| ==> m[t] == k[t - 1]
  {
    "\"" + k + "\":\""
  }

  lemma LowerQuoted(key: string)
    ensures Lower(Quoted(key)) == Quoted(Lower(key))
  {
    forall t | 0 <= t < |key| + 4
      ensures LowerChar(Quoted(key)[t]) == Quoted(Lower(key))[t]
    {
    }
  }

  lemma MarkIsProper()
    ensures ProperMark(MARK) && Lower(MARK) == "[redacted]"
  {
  }

  lemma KeyIsForeign(k: string)
    requires KeyLike(k)
    ensures Foreign(MARK, k)
  {
    MarkIsProper();
    forall d | 0 <= d < |MARK|
      ensures !Agrees(Lower(MARK), k, d)
    {
      var a := "[redacted]";
      assert a[d + 0] != k[0] || (d + 1 < 10 && a[d + 1] != k[1]) || (d + 2 < 10 && a[d + 2] != k[2]);
    }
  }

  lemma QuotedIsForeign(k: string)
    requires KeyLike(k)
    ensures Foreign(MARK, Quoted(k))
  {
    MarkIsProper();
    forall d | 0 <= d < |MARK|
      ensures !Agrees(Lower(MARK), Quoted(k), d)
    {
      assert "[redacted]"[d + 0] != Quoted(k)[0];
    }
  }

  lemma KeyHarmlessToKey(k: string, n: nat, k2: string, n2: nat)
    requires IsKey(k, n) && IsKey(k2, n2) && (n == n2 ==> k == k2)
    ensures Harmless(MARK, Pass(k, true), Pass(k2, true))
  {
    KeyIsForeign(k);
    KeyIsForeign(k2);
    forall d | 0 < d < |k2|
      ensures !Agrees(k2, k, d)
    {
      KeysDoNotOverlap(k2, k, d);
    }
    forall d: nat | d < |k| && Agrees(k, k2, d)
      ensures d == 0 && k == k2
    {
      if d == 0 {
        AgreeingKeysAreEqual(k, n, k2, n2);
      } else {
        KeysDoNotOverlap(k, k2, d);
      }
    }
  }

  /** A JSON marker does not begin inside a key. */
  lemma NoQuoteInKey(k: string, k2: string, d: nat)
    requires KeyLike(k) && KeyLike(k2) && 0 < d < |k2|
    ensures !Agrees(k2, Quoted(k), d)
  {
    assert k2[d + 0] != Quoted(k)[0];
  }

  /** A key begins in a JSON marker only behind its first quote, and then it is the marker's key. */
  lemma KeyInQuoted(k: string, n: nat, k2: string, n2: nat, d: nat)
    requires IsKey(k, n) && IsKey(k2, n2) && (n == n2 ==> k == k2)
    requires d < |k| + 4 && Agrees(Quoted(k), k2, d)
    ensures d == 1 && k == k2
  {
    var m := Quoted(k);
    assert m[d + 0] == k2[0];
    assert 0 < d <= |k|;
    forall t | 0 <= t < |k2| && d - 1 + t < |k|
      ensures k[d - 1 + t] == k2[t]
    {
      assert m[d + t] == k2[t];
    }
    assert Agrees(k, k2, d - 1);
    if d == 1 {
      AgreeingKeysAreEqual(k, n, k2, n2);
    } else {
      KeysDoNotOverlap(k, k2, d - 1);
    }
  }

  lemma JsonHarmlessToKey(k: string, n: nat, k2: string, n2: nat)
    requires IsKey(k, n) && IsKey(k2, n2) && (n == n2 ==> k == k2)
    ensures Harmless(MARK, Pass(Quoted(k), false), Pass(k2, true))
  {
    QuotedIsForeign(k);
    KeyIsForeign(k2);
    forall d | 0 < d < |k2|
      ensures !Agrees(k2, Quoted(k), d)
    {
      NoQuoteInKey(k, k2, d);
    }
    forall d: nat | d < |k| + 4 && Agrees(Quoted(k), k2, d)
      ensures d == 1 && k == k2
    {
      KeyInQuoted(k, n, k2, n2, d);
    }
    assert Aligned(Pass(Quoted(k), false), Pass(k, true), 1);
  }

  /** Behind a covered JSON marker comes the mark, so that no other one begins at its last quote. */
  lemma QuotedInCovered(k: string, k2: string, d: nat)
    requires KeyLike(k) && KeyLike(k2) && 0 < d < |k2| + 4
    ensures !Agrees(Quoted(k2) + "[", Quoted(k), d)
  {
    var reach, m := Quoted(k2) + "[", Quoted(k);
    assert m[1] == k[0];
    assert 0 < d <= |k2| ==> reach[d] == k2[d - 1];
    assert reach[d + 0] != m[0] || reach[d + 1] != m[1];
  }

  lemma QuotedInQuoted(k: string, n: nat, k2: string, n2: nat, d: nat)
    requires IsKey(k, n) && IsKey(k2, n2) && (n == n2 ==> k == k2)
    requires d + |k2| <= |k| && Agrees(Quoted(k), Quoted(k2), d)
    ensures d == 0 && k == k2
  {
    var m, m2 := Quoted(k), Quoted(k2);
    assert m[d + 0] == m2[0];
    assert d == 0;
    forall t | 0 <= t < |k2|
      ensures k[0 + t] == k2[t]
    {
      assert m[0 + (t + 1)] == m2[t + 1];
    }
    assert Agrees(k, k2, 0);
    AgreeingKeysAreEqual(k, n, k2, n2);
  }

  lemma JsonHarmlessToJson(k: string, n: nat, k2: string, n2: nat)
    requires IsKey(k, n) && IsKey(k2, n2) && (n == n2 ==> k == k2)
    ensures Harmless(MARK, Pass(Quoted(k), false), Pass(Quoted(k2), false))
  {
    QuotedIsForeign(k);
    QuotedIsForeign(k2);
    forall d | 0 < d < |k2| + 4
      ensures !Agrees(Quoted(k2) + "[", Quoted(k), d)
    {
      QuotedInCovered(k, k2, d);
    }
    forall d: nat | d + |k2| <= |k| && Agrees(Quoted(k), Quoted(k2), d)
      ensures d == 0 && k == k2
    {
      QuotedInQuoted(k, n, k2, n2, d);
    }
  }
}
