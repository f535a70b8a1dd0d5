/** Measuring a qubit (state/chp_state.hpp:416-472): which branch is taken, what the
    deterministic branch computes, and what becomes of the state. */
module Measurement {
  import opened Sums
  import opened Paulis
  import opened Gates
  import opened Amplitudes
  import opened Projections
  import opened Tableaus

  /** The first row in [lo, hi) with an X at column b, or hi. */
  function FindX(rows: Rows, b: nat, n: nat, lo: nat, hi: nat): (k: nat)
    requires Shape(n, rows) && b < n && lo <= hi <= 2 * n
    ensures lo <= k <= hi
    ensures k < hi ==> rows[k].x[b]
    ensures forall i :: lo <= i < k ==> !rows[i].x[b]
    decreases hi - lo
  {
    if lo == hi || rows[lo].x[b] then lo else FindX(rows, b, n, lo + 1, hi)
  }

  /** The scratch row after the deterministic branch has looked at destabilizers
      m..k-1, m being the first with an X at column b. */
  function Accumulated(n: nat, rows: Rows, b: nat, m: nat, k: nat): (a: Pauli)
    requires Shape(n, rows) && b < n && m < k <= n
    ensures Fits(a, n)
  {
    if k == m + 1 then rows[m + n]
    else
      var a := Accumulated(n, rows, b, m, k - 1);
      if rows[k - 1].x[b] then Times(rows[k - 1 + n], a, n) else a
  }

  datatype Measured = Measured(rows: Rows, outcome: bool, drew: bool)

  /** One measurement with the random bit that the branch would draw. */
  function Measure(n: nat, rows: Rows, b: nat, coin: bool): Measured
    requires Invariant(n, rows) && b < n
  {
    var p := FindX(rows, b, n, n, 2 * n);
    if p < 2 * n then Measured(RandomRows(n, rows, b, p - n, coin), coin, true)
    else
      PivotExists(n, rows, b);
      var m := FindX(rows, b, n, 0, n);
      Measured(rows, Accumulated(n, rows, b, m, n).r != 0, false)
  }

  ghost predicate NoStabilizerX(n: nat, rows: Rows, b: nat)
    requires Shape(n, rows) && b < n
  {
    forall i :: n <= i < 2 * n ==> !rows[i].x[b]
  }

  /** When no stabilizer has an X at b, stabilizer i contributes to Z_b exactly when
      destabilizer i has an X there. */
  lemma PairTermOfZ(n: nat, rows: Rows, b: nat, w: Pauli, i: nat)
    requires Shape(n, rows) && b < n && Fits(w, n) && i < n && !rows[n + i].x[b]
    ensures PairTerms(n, rows, UnitZ(n, b, 0), w)[i] == (rows[i].x[b] && Symp(w, rows[n + i], n))
  {
    hide Symp, UnitZ;
    SympUnitZ(n, b, 0, rows[i]);
    SympUnitZ(n, b, 0, rows[n + i]);
  }

  /** The deterministic branch's search of the destabilizers never fails. */
  lemma PivotExists(n: nat, rows: Rows, b: nat)
    requires Invariant(n, rows) && b < n && NoStabilizerX(n, rows, b)
    ensures FindX(rows, b, n, 0, n) < n
  {
    hide Symp, Complete, Canonical, UnitZ, UnitX;
    var z, x := UnitZ(n, b, 0), UnitX(n, b, 0);
    var t := PairTerms(n, rows, z, x);
    CompleteAt(n, rows, z, x);
    SympUnitZ(n, b, 0, x);
    UnitBits(n, b);
    if FindX(rows, b, n, 0, n) == n {
      forall i | 0 <= i < n ensures !t[i] { PairTermOfZ(n, rows, b, x, i); }
      XorAllFalse(t);
    }
  }

  lemma UnitBits(n: nat, b: nat)
    requires b < n
    ensures UnitX(n, b, 0).x[b]
  {
  }

  lemma {:induction false} AccumulatedSymp(n: nat, rows: Rows, b: nat, m: nat, k: nat, w: Pauli)
    requires Invariant(n, rows) && b < n && NoStabilizerX(n, rows, b) && Fits(w, n)
    requires m < k <= n && rows[m].x[b] && forall i :: 0 <= i < m ==> !rows[i].x[b]
    ensures Symp(w, Accumulated(n, rows, b, m, k), n) == Xor(PairTerms(n, rows, UnitZ(n, b, 0), w)[..k])
  {
    hide Symp, Complete, Canonical, UnitZ, Times, Xor, PairTerm;
    var t := PairTerms(n, rows, UnitZ(n, b, 0), w);
    PairTermOfZ(n, rows, b, w, k - 1);
    XorPrefix(t, k);
    if k == m + 1 {
      forall i | 0 <= i < m ensures !t[i] { PairTermOfZ(n, rows, b, w, i); }
      XorAllFalse(t[..m]);
    } else {
      AccumulatedSymp(n, rows, b, m, k - 1, w);
      SympTimes(w, rows[k - 1 + n], Accumulated(n, rows, b, m, k - 1), n);
    }
  }

  lemma {:induction false} AccumulatedReal(n: nat, rows: Rows, b: nat, m: nat, k: nat, j: nat)
    requires Invariant(n, rows) && b < n && m < k <= n && n <= j < 2 * n
    ensures Accumulated(n, rows, b, m, k).r % 2 == 0
    ensures !Symp(rows[j], Accumulated(n, rows, b, m, k), n)
  {
    hide Symp, Complete, Canonical, Times;
    CanonicalAt(n, rows, j, k - 1 + n);
    CanonicalAt(n, rows, j, m + n);
    if k > m + 1 {
      var a, s := Accumulated(n, rows, b, m, k - 1), rows[k - 1 + n];
      AccumulatedReal(n, rows, b, m, k - 1, j);
      AccumulatedReal(n, rows, b, m, k - 1, k - 1 + n);
      SympTimes(rows[j], s, a, n);
      SympSymmetric(s, a, n);
      CliffordParity(s, a, n);
    }
  }

  lemma AccumulatedIsZ(n: nat, rows: Rows, b: nat, w: Pauli)
    requires Invariant(n, rows) && b < n && NoStabilizerX(n, rows, b) && Fits(w, n)
    ensures FindX(rows, b, n, 0, n) < n
    ensures Symp(w, Accumulated(n, rows, b, FindX(rows, b, n, 0, n), n), n) == Symp(w, UnitZ(n, b, 0), n)
  {
    hide Symp, Complete, Canonical, Accumulated, UnitZ;
    PivotExists(n, rows, b);
    var z := UnitZ(n, b, 0);
    AccumulatedSymp(n, rows, b, FindX(rows, b, n, 0, n), n, w);
    assert PairTerms(n, rows, z, w)[..n] == PairTerms(n, rows, z, w);
    CompleteAt(n, rows, z, w);
    SympSymmetric(z, w, n);
  }

  /** Operators that every unit operator sees alike have the same bits. */
  lemma BitsBySymp(p: Pauli, q: Pauli, n: nat)
    requires Fits(p, n) && Fits(q, n)
    requires forall c :: 0 <= c < n ==> Symp(UnitZ(n, c, 0), p, n) == Symp(UnitZ(n, c, 0), q, n)
    requires forall c :: 0 <= c < n ==> Symp(UnitX(n, c, 0), p, n) == Symp(UnitX(n, c, 0), q, n)
    ensures SameBits(p, q)
  {
    hide Symp, UnitZ, UnitX;
    forall c | 0 <= c < n ensures p.x[c] == q.x[c] && p.z[c] == q.z[c] {
      SympUnitZ(n, c, 0, p);
      SympUnitX(n, c, 0, p);
      SympUnitZ(n, c, 0, q);
      SympUnitX(n, c, 0, q);
    }
  }

  /** The deterministic branch leaves exactly +Z_b or -Z_b in the scratch row, and the
      bit it returns is the sign. */
  lemma DeterministicRow(n: nat, rows: Rows, b: nat)
    requires Invariant(n, rows) && b < n && NoStabilizerX(n, rows, b)
    ensures FindX(rows, b, n, 0, n) < n
    ensures var a := Accumulated(n, rows, b, FindX(rows, b, n, 0, n), n);
            a == UnitZ(n, b, OutcomePhase(a.r != 0))
  {
    hide Symp, Complete, Canonical, Accumulated;
    PivotExists(n, rows, b);
    var m := FindX(rows, b, n, 0, n);
    var a := Accumulated(n, rows, b, m, n);
    AccumulatedReal(n, rows, b, m, n, n);
    var z := UnitZ(n, b, 0);
    forall c | 0 <= c < n
      ensures Symp(UnitZ(n, c, 0), a, n) == Symp(UnitZ(n, c, 0), z, n)
      ensures Symp(UnitX(n, c, 0), a, n) == Symp(UnitX(n, c, 0), z, n)
    {
      AccumulatedIsZ(n, rows, b, UnitZ(n, c, 0));
      AccumulatedIsZ(n, rows, b, UnitX(n, c, 0));
    }
    BitsBySymp(a, z, n);
  }

  // ---------------------------------------------------------------- meaning

  /** The state f is nonzero and every stabilizer row fixes it. */
  ghost predicate Describes(n: nat, rows: Rows, f: Amp)
    requires Shape(n, rows)
  {
    Nonzero(f, n) && forall i :: n <= i < 2 * n ==> Stabilises(rows[i], f, n)
  }

  lemma {:induction false} AccumulatedStabilises(n: nat, rows: Rows, b: nat, m: nat, k: nat, f: Amp)
    requires Shape(n, rows) && b < n && m < k <= n && Describes(n, rows, f)
    ensures Stabilises(Accumulated(n, rows, b, m, k), f, n)
  {
    hide Times, Stabilises;
    if k > m + 1 {
      AccumulatedStabilises(n, rows, b, m, k - 1, f);
      if rows[k - 1].x[b] {
        StabilisesProduct(rows[k - 1 + n], Accumulated(n, rows, b, m, k - 1), f, n);
      }
    }
  }

  lemma RandomDescribes(n: nat, rows: Rows, b: nat, p: nat, o: bool, f: Amp)
    requires Invariant(n, rows) && b < n && p < n && rows[p + n].x[b] && Describes(n, rows, f)
    ensures Shape(n, RandomRows(n, rows, b, p, o))
    ensures Describes(n, RandomRows(n, rows, b, p, o), Project(f, b, o, n))
  {
    hide Symp, Complete, Canonical, Stabilises, Times, Project;
    var g := Project(f, b, o, n);
    RandomShape(n, rows, b, p, o);
    FairOutcomes(rows[p + n], f, b, n);
    forall i | n <= i < 2 * n ensures Stabilises(RandomRow(n, rows, b, p, o, i), g, n) {
      if i == p + n {
        ProjectedIsDefinite(f, b, o, n);
      } else {
        if rows[i].x[b] { StabilisesProduct(rows[p + n], rows[i], f, n); }
        ProjectKeeps(Cleared(rows[i], rows[p + n], b, n), f, b, o, n);
      }
    }
  }

  lemma ProjectedIsDefinite(f: Amp, b: nat, o: bool, n: nat)
    requires b < n
    ensures Stabilises(UnitZ(n, b, OutcomePhase(o)), Project(f, b, o, n), n)
  {
    UnitZStabilises(Project(f, b, o, n), b, o, n);
  }

  lemma DescribesSame(n: nat, rows: Rows, f: Amp, g: Amp)
    requires Shape(n, rows) && Describes(n, rows, f) && SameState(f, g, n)
    ensures Describes(n, rows, g)
  {
    hide Apply;
    forall i | n <= i < 2 * n ensures Stabilises(rows[i], g, n) {
      ApplySame(rows[i], f, g, n);
    }
  }

  /** One measurement, against the state it acts on: the new rows describe the projected
      state; the outcome was possible; the random bit is drawn exactly when both outcomes
      are possible, and then they are equally likely. */
  lemma MeasureSound(n: nat, rows: Rows, b: nat, coin: bool, f: Amp)
    requires Invariant(n, rows) && b < n && Describes(n, rows, f)
    ensures var m := Measure(n, rows, b, coin);
            && Invariant(n, m.rows)
            && Describes(n, m.rows, Project(f, b, m.outcome, n))
            && Possible(f, b, m.outcome, n)
            && (m.drew <==> Possible(f, b, !m.outcome, n))
            && (m.drew ==> Weight(f, b, false, n) == Weight(f, b, true, n) > 0)
            && (m.drew ==> m.outcome == coin)
            && (!m.drew ==> m.rows == rows)
  {
    hide Symp, Complete, Canonical, Stabilises, Times, Project, RandomRow, Weight, Accumulated, UnitZ;
    var p := FindX(rows, b, n, n, 2 * n);
    if p < 2 * n {
      RandomInvariant(n, rows, b, p - n, coin);
      RandomDescribes(n, rows, b, p - n, coin, f);
      FairOutcomes(rows[p], f, b, n);
    } else {
      PivotExists(n, rows, b);
      var m := FindX(rows, b, n, 0, n);
      DeterministicRow(n, rows, b);
      AccumulatedStabilises(n, rows, b, m, n, f);
      var o := Accumulated(n, rows, b, m, n).r != 0;
      DefiniteOutcome(f, b, o, n);
      DescribesSame(n, rows, f, Project(f, b, o, n));
    }
  }
}
