/** Finite sums, over the integers and over GF(2), indexed from the left as the
    simulator's loops accumulate them. */
module Sums {

  function Xor(s: seq<bool>): bool
  {
    if |s| == 0 then false else Xor(s[..|s| - 1]) != s[|s| - 1]
  }

  function Sum(s: seq<int>): int
  {
    if |s| == 0 then 0 else Sum(s[..|s| - 1]) + s[|s| - 1]
  }

  lemma XorPrefix(s: seq<bool>, k: nat)
    requires 0 < k <= |s|
    ensures Xor(s[..k]) == (Xor(s[..k - 1]) != s[k - 1])
  {
    assert s[..k][..k - 1] == s[..k - 1];
  }

  lemma SumPrefix(s: seq<int>, k: nat)
    requires 0 < k <= |s|
    ensures Sum(s[..k]) == Sum(s[..k - 1]) + s[k - 1]
  {
    assert s[..k][..k - 1] == s[..k - 1];
  }

  lemma {:induction false} XorAllFalse(s: seq<bool>)
    requires forall i :: 0 <= i < |s| ==> !s[i]
    ensures !Xor(s)
  {
    if |s| > 0 { XorAllFalse(s[..|s| - 1]); }
  }

  lemma {:induction false} XorPointwise(a: seq<bool>, b: seq<bool>, c: seq<bool>)
    requires |a| == |b| == |c|
    requires forall i :: 0 <= i < |c| ==> c[i] == (a[i] != b[i])
    ensures Xor(c) == (Xor(a) != Xor(b))
  {
    if |c| > 0 {
      var m := |c| - 1;
      XorPointwise(a[..m], b[..m], c[..m]);
    }
  }

  lemma {:induction false} XorUpdate(s: seq<bool>, i: nat, v: bool)
    requires i < |s|
    ensures Xor(s[i := v]) == (Xor(s) != (s[i] != v))
  {
    var m := |s| - 1;
    if i == m {
      assert s[i := v][..m] == s[..m];
    } else {
      assert s[i := v][..m] == s[..m][i := v];
      XorUpdate(s[..m], i, v);
    }
  }

  /** Only entry i can be true. */
  lemma XorSingle(s: seq<bool>, i: nat)
    requires i < |s|
    requires forall j :: 0 <= j < |s| && j != i ==> !s[j]
    ensures Xor(s) == s[i]
  {
    XorUpdate(s, i, false);
    XorAllFalse(s[i := false]);
  }

  /** Two sequences that agree outside i and j have the same parity when the two
      pairs of entries do. */
  lemma XorTwoChanged(a: seq<bool>, b: seq<bool>, i: nat, j: nat)
    requires |a| == |b| && i < |a| && j < |a| && i != j
    requires forall k :: 0 <= k < |a| && k != i && k != j ==> a[k] == b[k]
    requires (a[i] != a[j]) == (b[i] != b[j])
    ensures Xor(a) == Xor(b)
  {
    XorUpdate(a, i, b[i]);
    XorUpdate(a[i := b[i]], j, b[j]);
    assert a[i := b[i]][j := b[j]] == b;
  }

  lemma {:induction false} XorAnd(s: seq<bool>, c: bool, t: seq<bool>)
    requires |s| == |t|
    requires forall i :: 0 <= i < |s| ==> t[i] == (c && s[i])
    ensures Xor(t) == (c && Xor(s))
  {
    if |s| > 0 { XorAnd(s[..|s| - 1], c, t[..|s| - 1]); }
  }

  lemma {:induction false} SumUpdate(s: seq<int>, i: nat, v: int)
    requires i < |s|
    ensures Sum(s[i := v]) == Sum(s) - s[i] + v
  {
    var m := |s| - 1;
    if i == m {
      assert s[i := v][..m] == s[..m];
    } else {
      assert s[i := v][..m] == s[..m][i := v];
      SumUpdate(s[..m], i, v);
    }
  }

  lemma {:induction false} SumAllZero(s: seq<int>)
    requires forall i :: 0 <= i < |s| ==> s[i] == 0
    ensures Sum(s) == 0
  {
    if |s| > 0 { SumAllZero(s[..|s| - 1]); }
  }

  lemma {:induction false} SumAntisymmetric(a: seq<int>, b: seq<int>)
    requires |a| == |b|
    requires forall i :: 0 <= i < |a| ==> a[i] == -b[i]
    ensures Sum(a) == -Sum(b)
  {
    if |a| > 0 { SumAntisymmetric(a[..|a| - 1], b[..|b| - 1]); }
  }

  /** A congruence that holds entry by entry holds of the sums. */
  lemma {:induction false} SumCongruent(a: seq<int>, b: seq<int>, c: seq<int>, d: seq<int>)
    requires |a| == |b| == |c| == |d|
    requires forall i :: 0 <= i < |a| ==> (a[i] + b[i] - c[i] - d[i]) % 4 == 0
    ensures (Sum(a) + Sum(b) - Sum(c) - Sum(d)) % 4 == 0
  {
    if |a| > 0 {
      var m := |a| - 1;
      SumCongruent(a[..m], b[..m], c[..m], d[..m]);
    }
  }

  /** The parity of an integer sum is the GF(2) sum of the parities. */
  lemma {:induction false} SumParity(a: seq<int>, b: seq<bool>)
    requires |a| == |b|
    requires forall i :: 0 <= i < |a| ==> (a[i] % 2 == 1) == b[i]
    ensures (Sum(a) % 2 == 1) == Xor(b)
  {
    if |a| > 0 { SumParity(a[..|a| - 1], b[..|a| - 1]); }
  }

  /** Twos counted modulo 4. */
  lemma {:induction false} SumOfTwos(a: seq<int>, b: seq<bool>)
    requires |a| == |b|
    requires forall i :: 0 <= i < |a| ==> a[i] == if b[i] then 2 else 0
    ensures Sum(a) % 4 == if Xor(b) then 2 else 0
  {
    if |a| > 0 { SumOfTwos(a[..|a| - 1], b[..|b| - 1]); }
  }
}
