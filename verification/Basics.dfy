/** A value that may be missing, sequences with one element cut out, rings, and laws of remainders. */
module Basics {
  datatype Option<+T> = None | Some(value: T)

  function Cut<T>(s: seq<T>, i: nat): seq<T>
    requires i < |s|
  {
    s[..i] + s[i + 1..]
  }

  // index k of the shorter sequence is this index of the longer one
  function Skip(k: nat, i: nat): nat { if k < i then k else k + 1 }

  lemma CutAt<T>(s: seq<T>, i: nat, k: nat)
    requires i < |s| && k + 1 < |s|
    ensures Cut(s, i)[k] == s[Skip(k, i)]
  {
  }

  lemma CutLength<T>(s: seq<T>, i: nat)
    requires i < |s|
    ensures |Cut(s, i)| == |s| - 1
  {
  }

  ghost predicate NoTwice<T>(s: seq<T>) { forall i, j :: 0 <= i < j < |s| ==> s[i] != s[j] }

  lemma CutNoTwice<T>(s: seq<T>, i: nat)
    requires i < |s| && NoTwice(s)
    ensures NoTwice(Cut(s, i)) && s[i] !in Cut(s, i)
  {
  }

  // ---- the neighbours of item i of a ring of n --------------------------------------------------------

  function Succ(i: nat, n: nat): nat { if i + 1 < n then i + 1 else 0 }

  function Pred(i: nat, n: nat): (j: nat)
    requires i < n
  {
    if i > 0 then i - 1 else n - 1
  }

  lemma SuccInside(k: nat, n: nat)
    requires k < n
    ensures Succ(k, n) < n && Pred(k, n) < n
  {
  }

  // ---- remainders ---------------------------------------------------------------------------------------

  lemma ModStep(a: nat, d: nat, m: nat)
    requires 0 < d < m
    ensures (a + d) % m != a % m
  {
    var q, r := a / m, a % m;
    if r + d < m {
      assert a + d == q * m + (r + d);
      ModIs(a + d, m, q, r + d);
    } else {
      assert a + d == (q + 1) * m + (r + d - m);
      ModIs(a + d, m, q + 1, r + d - m);
    }
  }

  lemma {:induction false} MulMono(a: nat, b: nat, m: nat)
    requires a < b
    ensures b * m >= a * m + m
  {
    if b == a + 1 {
      assert (a + 1) * m == a * m + m;
    } else {
      MulMono(a, b - 1, m);
      assert b * m == (b - 1) * m + m;
    }
  }

  lemma ModIs(x: nat, m: nat, q: nat, r: nat)
    requires x == q * m + r && r < m
    ensures x % m == r && x / m == q
  {
    var q', r' := x / m, x % m;
    assert x == q' * m + r';
    if q < q' { MulMono(q, q', m); }
    if q' < q { MulMono(q', q, m); }
  }

  lemma ModAdd(b: nat, q: nat, m: nat)
    requires m > 0
    ensures (b + q * m) % m == b % m
  {
    assert b + q * m == (b / m + q) * m + b % m;
    ModIs(b + q * m, m, b / m + q, b % m);
  }
}
