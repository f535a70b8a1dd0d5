/** The form that gaussian documents (state/chp_state.hpp:314-323), and what it says
    about the state: which basis strings have an amplitude, and how many. */
module Echelon {
  import opened Sums
  import opened Paulis
  import opened Amplitudes
  import opened Tableaus

  /** The first column at which the bits are set, or their number. */
  function Lead(s: seq<bool>, from: nat): (c: nat)
    requires from <= |s|
    ensures from <= c <= |s|
    ensures forall d :: from <= d < c ==> !s[d]
    ensures c < |s| ==> s[c]
    decreases |s| - from
  {
    if from == |s| || s[from] then from else Lead(s, from + 1)
  }

  lemma LeadStep(s: seq<bool>, from: nat)
    requires from <= |s|
    ensures Lead(s, from) == if from == |s| || s[from] then from else Lead(s, from + 1)
  {
  }

  lemma LeadIs(s: seq<bool>, c: nat)
    requires c <= |s| && forall d :: 0 <= d < c ==> !s[d]
    requires c < |s| ==> s[c]
    ensures Lead(s, 0) == c
  {
  }

  /** The generators with X part: rows n..n+g-1, leading columns strictly increasing. */
  ghost predicate XForm(n: nat, rows: Rows, g: nat)
    requires Shape(n, rows) && g <= n
  {
    && (forall q :: n <= q < n + g ==> Lead(rows[q].x, 0) < n)
    && (forall p, q :: n <= p < q < n + g ==> Lead(rows[p].x, 0) < Lead(rows[q].x, 0))
  }

  /** The generators without: rows n+g..h-1, their leading Z columns strictly increasing. */
  ghost predicate ZForm(n: nat, rows: Rows, g: nat, h: nat)
    requires Shape(n, rows) && n + g <= h <= 2 * n
  {
    && (forall q, c :: n + g <= q < 2 * n && 0 <= c < n ==> !rows[q].x[c])
    && (forall q :: n + g <= q < h ==> Lead(rows[q].z, 0) < n)
    && (forall p, q :: n + g <= p < q < h ==> Lead(rows[p].z, 0) < Lead(rows[q].z, 0))
  }

  ghost predicate GaussianForm(n: nat, rows: Rows, g: nat)
    requires Shape(n, rows)
  {
    g <= n && XForm(n, rows, g) && ZForm(n, rows, g, 2 * n)
  }

  // ---------------------------------------------------------------- orthogonality

  function XOnly(d: Bits): (p: Pauli)
    ensures Fits(p, |d|) && p.x == d && forall c :: 0 <= c < |d| ==> !p.z[c]
  {
    Pauli(d, Zeros(|d|), 0)
  }

  function ZOnly(w: Bits): (p: Pauli)
    ensures Fits(p, |w|) && p.z == w && forall c :: 0 <= c < |w| ==> !p.x[c]
  {
    Pauli(Zeros(|w|), w, 0)
  }

  /** The bit string d, read as a basis string, is in the kernel of the Z part of p. */
  predicate Orthogonal(p: Pauli, d: Bits)
    requires Fits(p, |d|)
  {
    !Symp(XOnly(d), p, |d|)
  }

  /** Sets the leading columns of rows q..n+g-1 so that w commutes with each of them:
      back substitution, the last row first. */
  ghost function Solved(n: nat, rows: Rows, g: nat, c: nat, q: nat): (w: Bits)
    requires Shape(n, rows) && g <= n && XForm(n, rows, g) && c < n && n <= q <= n + g
    ensures |w| == n
    decreases n + g - q
  {
    if q == n + g then Zeros(n)[c := true]
    else
      var w := Solved(n, rows, g, c, q + 1);
      var l := Lead(rows[q].x, 0);
      if Symp(ZOnly(w), rows[q], n) then w[l := !w[l]] else w
  }

  lemma FlipSymp(w: Bits, l: nat, p: Pauli)
    requires l < |w| && Fits(p, |w|)
    ensures Symp(ZOnly(w[l := !w[l]]), p, |w|) == (Symp(ZOnly(w), p, |w|) != p.x[l])
  {
    var n := |w|;
    var s, s' := SympTerms(ZOnly(w), p, n), SympTerms(ZOnly(w[l := !w[l]]), p, n);
    XorUpdate(s, l, s'[l]);
    assert s' == s[l := s'[l]];
  }

  lemma {:induction false} SolvedCommutes(n: nat, rows: Rows, g: nat, c: nat, q: nat)
    requires Shape(n, rows) && g <= n && XForm(n, rows, g) && c < n && n <= q <= n + g
    requires forall k :: n <= k < n + g ==> Lead(rows[k].x, 0) != c
    ensures var w := Solved(n, rows, g, c, q);
            && w[c]
            && (forall k :: q <= k < n + g ==> !Symp(ZOnly(w), rows[k], n))
            && (forall d :: 0 <= d < n && d != c && (forall k :: n <= k < n + g ==> Lead(rows[k].x, 0) != d) ==> !w[d])
    decreases n + g - q
  {
    hide Symp, ZOnly;
    if q < n + g {
      SolvedCommutes(n, rows, g, c, q + 1);
      var w := Solved(n, rows, g, c, q + 1);
      var l := Lead(rows[q].x, 0);
      forall k | q <= k < n + g ensures !Symp(ZOnly(Solved(n, rows, g, c, q)), rows[k], n) {
        FlipSymp(w, l, rows[k]);
      }
    }
  }

  lemma ZCommutes(w: Bits, p: Pauli)
    requires Fits(p, |w|) && forall c :: 0 <= c < |w| ==> !p.x[c]
    ensures !Symp(ZOnly(w), p, |w|)
  {
    XorAllFalse(SympTerms(ZOnly(w), p, |w|));
  }

  /** A Z operator that commutes with every stabilizer is a product of Z-only ones: it
      commutes with the destabilizers of the rows that have an X part. */
  lemma {:induction false} NoXPartNeeded(n: nat, rows: Rows, g: nat, w: Bits, i: nat)
    requires Invariant(n, rows) && GaussianForm(n, rows, g) && |w| == n && i < g
    requires forall j :: n <= j < 2 * n ==> !Symp(ZOnly(w), rows[j], n)
    ensures !Symp(ZOnly(w), rows[i], n)
    decreases i
  {
    hide Symp, ZOnly, Complete, Canonical, UnitZ, XForm, ZForm;
    var v, l := ZOnly(w), Lead(rows[n + i].x, 0);
    XLead(n, rows, g, i);
    var z := UnitZ(n, l, 0);
    var t := PairTerms(n, rows, v, z);
    forall j | 0 <= j < n && j != i ensures !t[j] {
      SympUnitZ(n, l, 0, rows[n + j]);
      if j < i { NoXPartNeeded(n, rows, g, w, j); }
    }
    SympUnitZ(n, l, 0, rows[n + i]);
    XorSingle(t, i);
    CompleteAt(n, rows, v, z);
    UnitZHasNoX(n, l);
    ZCommutes(w, z);
  }

  /** What a leading X column of the form looks like from the other rows. */
  lemma XLead(n: nat, rows: Rows, g: nat, i: nat)
    requires Shape(n, rows) && GaussianForm(n, rows, g) && i < g
    ensures var l := Lead(rows[n + i].x, 0);
            l < n && rows[n + i].x[l] && forall j :: n + i < j < 2 * n ==> !rows[j].x[l]
  {
    var l := Lead(rows[n + i].x, 0);
    forall j | n + i < j < 2 * n ensures !rows[j].x[l] {
      if j < n + g { assert Lead(rows[n + i].x, 0) < Lead(rows[j].x, 0); }
    }
  }

  lemma UnitZHasNoX(n: nat, b: nat)
    requires b < n
    ensures forall c :: 0 <= c < n ==> !UnitZ(n, b, 0).x[c]
  {
  }

  lemma PairingVanishes(n: nat, rows: Rows, g: nat, d: Bits, w: Bits)
    requires Invariant(n, rows) && GaussianForm(n, rows, g) && |d| == n && |w| == n
    requires forall q :: n + g <= q < 2 * n ==> Orthogonal(rows[q], d)
    requires forall j :: n <= j < 2 * n ==> !Symp(ZOnly(w), rows[j], n)
    ensures !Symp(XOnly(d), ZOnly(w), n)
  {
    hide Symp, ZOnly, XOnly, Complete, Canonical, XForm, ZForm;
    var t := PairTerms(n, rows, XOnly(d), ZOnly(w));
    forall j | 0 <= j < n ensures !t[j] {
      if j < g {
        NoXPartNeeded(n, rows, g, w, j);
      } else {
        assert Orthogonal(rows[n + j], d);
      }
    }
    XorAllFalse(t);
    CompleteAt(n, rows, XOnly(d), ZOnly(w));
  }

  /** A string that vanishes on the leading X columns and is orthogonal to the Z-only
      generators is zero. */
  lemma KernelTrivial(n: nat, rows: Rows, g: nat, d: Bits, c: nat)
    requires Invariant(n, rows) && GaussianForm(n, rows, g) && |d| == n && c < n
    requires forall q :: n <= q < n + g ==> !d[Lead(rows[q].x, 0)]
    requires forall q :: n + g <= q < 2 * n ==> Orthogonal(rows[q], d)
    ensures !d[c]
  {
    hide Symp, ZOnly, XOnly, Complete, Canonical;
    if d[c] {
      SolvedCommutes(n, rows, g, c, n);
      var w := Solved(n, rows, g, c, n);
      forall j | n <= j < 2 * n ensures !Symp(ZOnly(w), rows[j], n) {
        if j >= n + g { ZCommutes(w, rows[j]); }
      }
      PairingVanishes(n, rows, g, d, w);
      SympDot(d, w, c);
    }
  }

  /** Strings that meet in one column only. */
  lemma SympDot(d: Bits, w: Bits, c: nat)
    requires |d| == |w| && c < |d|
    requires forall j :: 0 <= j < |d| && j != c ==> !(d[j] && w[j])
    ensures Symp(XOnly(d), ZOnly(w), |d|) == (d[c] && w[c])
  {
    XorSingle(SympTerms(XOnly(d), ZOnly(w), |d|), c);
  }
}
