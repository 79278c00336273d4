/** Strings in the order sort.Strings puts them. */
module StringOrder {

  /** `a` comes before `b` or equals it, character by character. */
  predicate Before(a: string, b: string) {
    a == "" || (b != "" && (a[0] < b[0] || (a[0] == b[0] && Before(a[1..], b[1..]))))
  }

  /** At the first character where they differ, `a` has the smaller one. */
  ghost predicate SmallerAt(a: string, b: string, n: nat) {
    n < |a| && n < |b| && a[..n] == b[..n] && a[n] < b[n]
  }

  /** The lexical order: a beginning comes first, otherwise the first difference decides. */
  lemma {:induction false} BeforeMeans(a: string, b: string)
    ensures Before(a, b) <==> a <= b || exists n: nat :: SmallerAt(a, b, n)
  {
    if a != "" && b != "" {
      assert a == [a[0]] + a[1..] && b == [b[0]] + b[1..];
      if a[0] == b[0] {
        BeforeMeans(a[1..], b[1..]);
        assert a <= b <==> a[1..] <= b[1..];
        if n: nat :| SmallerAt(a[1..], b[1..], n) {
          assert a[..n + 1] == [a[0]] + a[1..][..n] && b[..n + 1] == [b[0]] + b[1..][..n];
          assert SmallerAt(a, b, n + 1);
        }
        if n: nat :| SmallerAt(a, b, n) {
          assert n > 0 && a[1..][..n - 1] == a[..n][1..] && b[1..][..n - 1] == b[..n][1..];
          assert SmallerAt(a[1..], b[1..], n - 1);
        }
      } else if a[0] < b[0] {
        assert SmallerAt(a, b, 0);
      }
    }
  }

  lemma {:induction false} BeforeIsTotal(a: string, b: string)
    ensures Before(a, b) || Before(b, a)
    ensures Before(a, b) && Before(b, a) ==> a == b
  {
    if a != "" && b != "" && a[0] == b[0] {
      BeforeIsTotal(a[1..], b[1..]);
      assert a == [a[0]] + a[1..] && b == [b[0]] + b[1..];
    }
  }

  lemma {:induction false} BeforeIsTransitive(a: string, b: string, c: string)
    requires Before(a, b) && Before(b, c)
    ensures Before(a, c)
  {
    if a != "" && a[0] == b[0] && b[0] == c[0] {
      BeforeIsTransitive(a[1..], b[1..], c[1..]);
    }
  }

  ghost predicate Sorted(s: seq<string>) {
    forall i, j :: 0 <= i < j < |s| ==> Before(s[i], s[j])
  }

  function Insert(x: string, s: seq<string>): (r: seq<string>)
    requires Sorted(s)
    ensures multiset(r) == multiset(s) + multiset{x}
    ensures Sorted(r)
  {
    if s == [] then
      [x]
    else
      assert s == [s[0]] + s[1..];
      BeforeIsTotal(x, s[0]);
      if Before(x, s[0]) then
        InsertedFirst(x, s);
        [x] + s
      else
        var rest := Insert(x, s[1..]);
        InsertedLater(x, s[0], s[1..], rest);
        [s[0]] + rest
  }

  lemma InsertedFirst(x: string, s: seq<string>)
    requires Sorted(s) && s != [] && Before(x, s[0])
    ensures Sorted([x] + s)
  {
    forall j | 0 <= j < |s|
      ensures Before(x, s[j])
    {
      if j > 0 {
        BeforeIsTransitive(x, s[0], s[j]);
      }
    }
  }

  lemma InsertedLater(x: string, first: string, s: seq<string>, rest: seq<string>)
    requires Sorted(rest) && multiset(rest) == multiset(s) + multiset{x}
    requires Before(first, x) && forall y <- s :: Before(first, y)
    ensures Sorted([first] + rest)
  {
    forall y | y in rest
      ensures Before(first, y)
    {
      assert y in multiset(rest);
      assert y in s || y == x;
    }
  }

  /** sort.Strings. */
  function SortStrings(s: seq<string>): (r: seq<string>)
    ensures Sorted(r) && multiset(r) == multiset(s)
  {
    if s == [] then
      []
    else
      assert s == [s[0]] + s[1..];
      Insert(s[0], SortStrings(s[1..]))
  }

  lemma SameElements(a: seq<string>, b: seq<string>)
    requires multiset(a) == multiset(b)
    ensures forall x :: x in a <==> x in b
    ensures |a| == |b|
  {
    forall x
      ensures x in a <==> x in b
    {
      assert x in a <==> x in multiset(a);
      assert x in b <==> x in multiset(b);
    }
    assert |multiset(a)| == |multiset(b)|;
  }

  /** There is only one sorted order: the result does not depend on the order the strings came in. */
  lemma {:induction false} SortedIsUnique(a: seq<string>, b: seq<string>)
    requires Sorted(a) && Sorted(b) && multiset(a) == multiset(b)
    ensures a == b
  {
    SameElements(a, b);
    if a != [] {
      assert a[0] in b && b[0] in a;
      BeforeIsTotal(a[0], b[0]);
      assert Before(a[0], b[0]) by {
        BeforeIsTotal(a[0], a[0]);
      }
      assert Before(b[0], a[0]) by {
        BeforeIsTotal(b[0], b[0]);
      }
      assert a == [a[0]] + a[1..] && b == [b[0]] + b[1..];
      assert multiset(a[1..]) == multiset(a) - multiset{a[0]};
      SortedIsUnique(a[1..], b[1..]);
    }
  }
}
