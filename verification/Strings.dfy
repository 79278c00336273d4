/** Characters and lists of strings, as several parts of the model need them. Text is ASCII. */
module Strings {

  predicate IsLetter(c: char) {
    'a' <= c <= 'z' || 'A' <= c <= 'Z'
  }

  predicate IsDigit(c: char) {
    '0' <= c <= '9'
  }

  ghost predicate Distinct(s: seq<string>) {
    forall i, j :: 0 <= i < j < |s| ==> s[i] != s[j]
  }

  /** The elements of a set in some order. */
  lemma {:induction false} Listed(s: set<string>) returns (names: seq<string>)
    ensures multiset(names) == multiset(s)
  {
    if s == {} {
      names := [];
    } else {
      var n :| n in s;
      var rest := Listed(s - {n});
      names := [n] + rest;
      assert s == (s - {n}) + {n};
    }
  }
}
