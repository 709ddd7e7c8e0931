/** Counting the elements of a sequence that satisfy a predicate. */
module Counting {

  function Count<T>(s: seq<T>, p: T -> bool): nat {
    if s == [] then 0 else Count(s[..|s| - 1], p) + if p(s[|s| - 1]) then 1 else 0
  }

  lemma CountSnoc<T>(s: seq<T>, x: T, p: T -> bool)
    ensures Count(s + [x], p) == Count(s, p) + if p(x) then 1 else 0
  {
    assert (s + [x])[..|s|] == s;
  }

  lemma {:induction false} CountWithin<T>(s: seq<T>, p: T -> bool, q: T -> bool)
    requires forall i :: 0 <= i < |s| && p(s[i]) ==> q(s[i])
    ensures Count(s, p) <= Count(s, q)
  {
    if s != [] { CountWithin(s[..|s| - 1], p, q); }
  }

  lemma {:induction false} CountStrictlyWithin<T>(s: seq<T>, p: T -> bool, q: T -> bool, k: nat)
    requires forall i :: 0 <= i < |s| && p(s[i]) ==> q(s[i])
    requires k < |s| && !p(s[k]) && q(s[k])
    ensures Count(s, p) + 1 <= Count(s, q)
  {
    if k == |s| - 1 {
      CountWithin(s[..|s| - 1], p, q);
    } else {
      CountStrictlyWithin(s[..|s| - 1], p, q, k);
    }
  }

  lemma {:induction false} CountCovered<T>(s: seq<T>, p: T -> bool, q: T -> bool, r: T -> bool)
    requires forall i :: 0 <= i < |s| && p(s[i]) ==> q(s[i]) || r(s[i])
    ensures Count(s, p) <= Count(s, q) + Count(s, r)
  {
    if s != [] { CountCovered(s[..|s| - 1], p, q, r); }
  }

  lemma {:induction false} CountWitness<T>(s: seq<T>, p: T -> bool) returns (i: nat)
    requires Count(s, p) > 0
    ensures i < |s| && p(s[i])
  {
    if p(s[|s| - 1]) { i := |s| - 1; } else { i := CountWitness(s[..|s| - 1], p); }
  }

  lemma {:induction false} CountNone<T>(s: seq<T>, p: T -> bool)
    requires forall i :: 0 <= i < |s| ==> !p(s[i])
    ensures Count(s, p) == 0
  {
    if s != [] { CountNone(s[..|s| - 1], p); }
  }

  lemma {:induction false} CountConcat<T>(a: seq<T>, b: seq<T>, p: T -> bool)
    ensures Count(a + b, p) == Count(a, p) + Count(b, p)
  {
    if b == [] {
      assert a + b == a;
    } else {
      var front, last := b[..|b| - 1], b[|b| - 1];
      CountConcat(a, front, p);
      CountSnoc(a + front, last, p);
      assert a + b == a + front + [last];
    }
  }

  function Copies<T>(x: T, k: nat): seq<T> {
    if k == 0 then [] else Copies(x, k - 1) + [x]
  }

  lemma {:induction false} CountCopies<T>(x: T, k: nat, p: T -> bool)
    ensures Count(Copies(x, k), p) == if p(x) then k else 0
  {
    if k > 0 {
      CountCopies(x, k - 1, p);
      CountSnoc(Copies(x, k - 1), x, p);
    }
  }

  /** The naturals below n. */
  function Upto(n: nat): seq<nat> {
    if n == 0 then [] else Upto(n - 1) + [n - 1]
  }

  lemma {:induction false} UptoIs(n: nat)
    ensures |Upto(n)| == n && forall i :: 0 <= i < n ==> Upto(n)[i] == i
  {
    if n > 0 { UptoIs(n - 1); }
  }
}
