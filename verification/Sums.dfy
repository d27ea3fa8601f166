/** What several modules share: options, edits of sequences, and sums over them with how they react to edits. */
module Sums {

  datatype Option<+T> = None | Some(value: T)

  function Min(a: int, b: int): int { if a < b then a else b }

  function Without<T>(s: seq<T>, i: nat): seq<T>
    requires i < |s|
  {
    s[..i] + s[i + 1..]
  }

  ghost predicate Distinct<T>(s: seq<T>) {
    forall i, j :: 0 <= i < j < |s| ==> s[i] != s[j]
  }

  ghost function Sum<T(!new)>(s: seq<T>, f: T -> nat): nat {
    if s == [] then 0 else f(s[0]) + Sum(s[1..], f)
  }

  lemma {:induction false} SumConcat<T(!new)>(a: seq<T>, b: seq<T>, f: T -> nat)
    ensures Sum(a + b, f) == Sum(a, f) + Sum(b, f)
  {
    if a == [] {
      assert a + b == b;
    } else {
      assert (a + b)[1..] == a[1..] + b;
      SumConcat(a[1..], b, f);
    }
  }

  lemma SumOne<T(!new)>(x: T, f: T -> nat)
    ensures Sum([x], f) == f(x)
  {
    assert [x][1..] == [];
  }

  lemma SumPush<T(!new)>(s: seq<T>, x: T, f: T -> nat)
    ensures Sum(s + [x], f) == Sum(s, f) + f(x)
  {
    SumConcat(s, [x], f);
  }

  lemma SumAt<T(!new)>(s: seq<T>, i: nat, f: T -> nat)
    requires i < |s|
    ensures Sum(s, f) == Sum(s[..i], f) + f(s[i]) + Sum(s[i + 1..], f)
  {
    assert s == s[..i] + ([s[i]] + s[i + 1..]);
    SumConcat(s[..i], [s[i]] + s[i + 1..], f);
    SumConcat([s[i]], s[i + 1..], f);
  }

  lemma SumRemove<T(!new)>(s: seq<T>, i: nat, f: T -> nat)
    requires i < |s|
    ensures Sum(s[..i] + s[i + 1..], f) + f(s[i]) == Sum(s, f)
  {
    SumAt(s, i, f);
    SumConcat(s[..i], s[i + 1..], f);
  }

  lemma SumSet<T(!new)>(s: seq<T>, i: nat, x: T, f: T -> nat)
    requires i < |s|
    ensures Sum(s[i := x], f) + f(s[i]) == Sum(s, f) + f(x)
  {
    SumAt(s, i, f);
    var t := s[i := x];
    SumAt(t, i, f);
    assert t[..i] == s[..i] && t[i + 1..] == s[i + 1..];
  }

  /** A sum of zero is a sum of zeroes. */
  lemma {:induction false} SumZero<T(!new)>(s: seq<T>, f: T -> nat)
    ensures Sum(s, f) == 0 <==> forall i :: 0 <= i < |s| ==> f(s[i]) == 0
  {
    if s != [] {
      SumZero(s[1..], f);
      if Sum(s, f) == 0 {
        forall i | 0 <= i < |s| ensures f(s[i]) == 0 {
          if i > 0 { assert s[1..][i - 1] == s[i]; }
        }
      }
    }
  }
}
