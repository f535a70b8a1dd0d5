/** The tableau: rows 0..n-1 are destabilizers, rows n..2n-1 stabilizers. Its invariant
    holds initially and is kept by the gates and by a random measurement. */
module Tableaus {
  import opened Sums
  import opened Paulis
  import opened Gates

  type Rows = seq<Pauli>

  /** 2n rows of n columns with real phases. */
  predicate Shape(n: nat, rows: Rows)
  {
    && |rows| == 2 * n
    && forall i :: 0 <= i < 2 * n ==> Fits(rows[i], n) && rows[i].r % 2 == 0
  }

  /** Two rows anticommute exactly when they are a destabilizer and its stabilizer. */
  ghost predicate Canonical(n: nat, rows: Rows)
    requires Shape(n, rows)
  {
    forall i, j :: 0 <= i < 2 * n && 0 <= j < 2 * n ==>
      Symp(rows[i], rows[j], n) == (i == j + n || j == i + n)
  }

  /** The contributions of the pairs (destabilizer i, stabilizer i) to the
      symplectic product of v and w, as the rows see it. */
  function PairTerms(n: nat, rows: Rows, v: Pauli, w: Pauli): (s: seq<bool>)
    requires Shape(n, rows) && Fits(v, n) && Fits(w, n)
    ensures |s| == n
    ensures forall i :: 0 <= i < n ==> s[i] == PairTerm(rows[i], rows[n + i], v, w, n)
  {
    seq(n, i requires 0 <= i < n => PairTerm(rows[i], rows[n + i], v, w, n))
  }

  predicate PairTerm(d: Pauli, s: Pauli, v: Pauli, w: Pauli, n: nat)
    requires Fits(d, n) && Fits(s, n) && Fits(v, n) && Fits(w, n)
  {
    (Symp(v, s, n) && Symp(w, d, n)) != (Symp(v, d, n) && Symp(w, s, n))
  }

  /** The rows span the whole space: no Pauli operator escapes them. */
  ghost predicate Complete(n: nat, rows: Rows)
    requires Shape(n, rows)
  {
    forall v: Pauli, w: Pauli :: Fits(v, n) && Fits(w, n) ==>
      Symp(v, w, n) == Xor(PairTerms(n, rows, v, w))
  }

  ghost predicate Invariant(n: nat, rows: Rows)
  {
    Shape(n, rows) && Canonical(n, rows) && Complete(n, rows)
  }

  lemma CanonicalAt(n: nat, rows: Rows, i: nat, j: nat)
    requires Invariant(n, rows) && i < 2 * n && j < 2 * n
    ensures Symp(rows[i], rows[j], n) == (i == j + n || j == i + n)
  {
  }

  lemma CompleteAt(n: nat, rows: Rows, v: Pauli, w: Pauli)
    requires Invariant(n, rows) && Fits(v, n) && Fits(w, n)
    ensures Symp(v, w, n) == Xor(PairTerms(n, rows, v, w))
  {
  }

  // ---------------------------------------------------------------- initial tableau

  function InitialRows(n: nat): (rows: Rows)
    ensures |rows| == 2 * n
    ensures forall i :: 0 <= i < 2 * n ==> rows[i] == if i < n then UnitX(n, i, 0) else UnitZ(n, i - n, 0)
  {
    seq(2 * n, i requires 0 <= i < 2 * n => if i < n then UnitX(n, i, 0) else UnitZ(n, i - n, 0))
  }

  lemma InitialShape(n: nat)
    ensures Shape(n, InitialRows(n))
  {
  }

  lemma InitialCanonical(n: nat, i: nat, j: nat)
    requires i < 2 * n && j < 2 * n
    ensures Fits(InitialRows(n)[i], n) && Fits(InitialRows(n)[j], n)
    ensures Symp(InitialRows(n)[i], InitialRows(n)[j], n) == (i == j + n || j == i + n)
  {
    hide Symp;
    var rows := InitialRows(n);
    if i < n { SympUnitX(n, i, 0, rows[j]); } else { SympUnitZ(n, i - n, 0, rows[j]); }
  }

  lemma InitialComplete(n: nat, v: Pauli, w: Pauli)
    requires Fits(v, n) && Fits(w, n) && Shape(n, InitialRows(n))
    ensures Symp(v, w, n) == Xor(PairTerms(n, InitialRows(n), v, w))
  {
    hide Xor;
    var rows := InitialRows(n);
    forall i | 0 <= i < n ensures PairTerms(n, rows, v, w)[i] == SympTerms(v, w, n)[i] {
      hide Symp, Shape, UnitX, UnitZ;
      SympUnits(n, i, v);
      SympUnits(n, i, w);
    }
    assert PairTerms(n, rows, v, w) == SympTerms(v, w, n);
  }

  lemma InitialInvariant(n: nat)
    ensures Invariant(n, InitialRows(n))
  {
    hide Symp, InitialRows, PairTerms, Shape;
    InitialShape(n);
    forall i: nat, j: nat | i < 2 * n && j < 2 * n
      ensures Symp(InitialRows(n)[i], InitialRows(n)[j], n) == (i == j + n || j == i + n)
    {
      InitialCanonical(n, i, j);
    }
    forall v: Pauli, w: Pauli | Fits(v, n) && Fits(w, n)
      ensures Symp(v, w, n) == Xor(PairTerms(n, InitialRows(n), v, w))
    {
      InitialComplete(n, v, w);
    }
  }

  lemma SympUnits(n: nat, i: nat, v: Pauli)
    requires i < n && Fits(v, n)
    ensures Symp(v, UnitX(n, i, 0), n) == v.z[i] && Symp(v, UnitZ(n, i, 0), n) == v.x[i]
  {
    SympUnitX(n, i, 0, v);
    SympUnitZ(n, i, 0, v);
    SympSymmetric(v, UnitX(n, i, 0), n);
    SympSymmetric(v, UnitZ(n, i, 0), n);
  }

  // ---------------------------------------------------------------- gates

  function GateRows(g: Gate, rows: Rows, n: nat): (rows': Rows)
    requires Acts(g, n) && Shape(n, rows)
    ensures |rows'| == 2 * n && forall i :: 0 <= i < 2 * n ==> rows'[i] == GateRow(g, rows[i], n)
  {
    seq(2 * n, i requires 0 <= i < 2 * n => GateRow(g, rows[i], n))
  }

  lemma GateShape(g: Gate, rows: Rows, n: nat)
    requires Acts(g, n) && Shape(n, rows)
    ensures Shape(n, GateRows(g, rows, n))
  {
  }

  lemma GateCanonical(g: Gate, rows: Rows, n: nat)
    requires Acts(g, n) && Invariant(n, rows) && Shape(n, GateRows(g, rows, n))
    ensures Canonical(n, GateRows(g, rows, n))
  {
    hide Symp, GateRow, Complete;
    var rows' := GateRows(g, rows, n);
    forall i, j | 0 <= i < 2 * n && 0 <= j < 2 * n
      ensures Symp(rows'[i], rows'[j], n) == (i == j + n || j == i + n)
    {
      SympGate(g, rows[i], rows[j], n);
    }
  }

  lemma GateComplete(g: Gate, rows: Rows, n: nat)
    requires Acts(g, n) && Invariant(n, rows) && Shape(n, GateRows(g, rows, n))
    ensures Complete(n, GateRows(g, rows, n))
  {
    forall v: Pauli, w: Pauli | Fits(v, n) && Fits(w, n)
      ensures Symp(v, w, n) == Xor(PairTerms(n, GateRows(g, rows, n), v, w))
    {
      GatePairTerms(g, rows, n, v, w);
    }
  }

  lemma GatePairTerms(g: Gate, rows: Rows, n: nat, v: Pauli, w: Pauli)
    requires Acts(g, n) && Invariant(n, rows) && Shape(n, GateRows(g, rows, n)) && Fits(v, n) && Fits(w, n)
    ensures Symp(v, w, n) == Xor(PairTerms(n, GateRows(g, rows, n), v, w))
  {
    hide Symp, GateRow, Complete, Canonical;
    var rows' := GateRows(g, rows, n);
    var v', w' := GateRow(g, v, n), GateRow(g, w, n);
    forall i | 0 <= i < n ensures PairTerms(n, rows', v, w)[i] == PairTerms(n, rows, v', w')[i] {
      SympGateAdjoint(g, v, rows[i], n);
      SympGateAdjoint(g, w, rows[i], n);
      SympGateAdjoint(g, v, rows[n + i], n);
      SympGateAdjoint(g, w, rows[n + i], n);
    }
    assert PairTerms(n, rows', v, w) == PairTerms(n, rows, v', w');
    SympGate(g, v, w, n);
    CompleteAt(n, rows, v', w');
  }

  lemma GateInvariant(g: Gate, rows: Rows, n: nat)
    requires Acts(g, n) && Invariant(n, rows)
    ensures Invariant(n, GateRows(g, rows, n))
  {
    GateShape(g, rows, n);
    GateCanonical(g, rows, n);
    GateComplete(g, rows, n);
  }

  // ---------------------------------------------------------------- random measurement

  /** A row made to commute with Z_b by multiplying it by the pivot s, if it has to be. */
  function Cleared(q: Pauli, s: Pauli, b: nat, n: nat): (q': Pauli)
    requires Fits(q, n) && Fits(s, n) && b < n
    ensures Fits(q', n)
  {
    if q.x[b] then Times(s, q, n) else q
  }

  lemma SympCleared(v: Pauli, q: Pauli, s: Pauli, b: nat, n: nat)
    requires Fits(v, n) && Fits(q, n) && Fits(s, n) && b < n
    ensures Symp(v, Cleared(q, s, b, n), n) == (Symp(v, q, n) != (q.x[b] && Symp(v, s, n)))
  {
    hide Times, Symp;
    SympTimes(v, s, q, n);
  }

  /** The rows after measuring qubit b with pivot p and random bit o
      (state/chp_state.hpp:433-443). */
  function RandomRow(n: nat, rows: Rows, b: nat, p: nat, o: bool, i: nat): (q: Pauli)
    requires Shape(n, rows) && b < n && p < n && i < 2 * n
    ensures Fits(q, n)
  {
    if i == p then rows[p + n]
    else if i == p + n then UnitZ(n, b, OutcomePhase(o))
    else Cleared(rows[i], rows[p + n], b, n)
  }

  function RandomRows(n: nat, rows: Rows, b: nat, p: nat, o: bool): (rows': Rows)
    requires Shape(n, rows) && b < n && p < n
    ensures |rows'| == 2 * n
    ensures forall i :: 0 <= i < 2 * n ==> rows'[i] == RandomRow(n, rows, b, p, o, i)
  {
    seq(2 * n, i requires 0 <= i < 2 * n => RandomRow(n, rows, b, p, o, i))
  }

  /** How a row of the new tableau is seen by any operator v. */
  lemma SympRandomRow(n: nat, rows: Rows, b: nat, p: nat, o: bool, i: nat, v: Pauli)
    requires Invariant(n, rows) && b < n && p < n && i < 2 * n && Fits(v, n)
    ensures Symp(v, RandomRow(n, rows, b, p, o, i), n) ==
      if i == p then Symp(v, rows[p + n], n)
      else if i == p + n then v.x[b]
      else Symp(v, rows[i], n) != (rows[i].x[b] && Symp(v, rows[p + n], n))
  {
    hide Cleared, Symp, Complete, Canonical;
    if i == p + n {
      var u := UnitZ(n, b, OutcomePhase(o));
      SympSymmetric(v, u, n);
      SympUnitZ(n, b, OutcomePhase(o), v);
    } else if i != p {
      SympCleared(v, rows[i], rows[p + n], b, n);
    }
  }

  lemma RandomShape(n: nat, rows: Rows, b: nat, p: nat, o: bool)
    requires Invariant(n, rows) && b < n && p < n && rows[p + n].x[b]
    ensures Shape(n, RandomRows(n, rows, b, p, o))
  {
    hide Times, Symp, Complete, Canonical, RandomRow;
    forall i | 0 <= i < 2 * n ensures RandomRow(n, rows, b, p, o, i).r % 2 == 0 {
      RandomRowReal(n, rows, b, p, o, i);
    }
  }

  lemma RandomRowReal(n: nat, rows: Rows, b: nat, p: nat, o: bool, i: nat)
    requires Invariant(n, rows) && b < n && p < n && rows[p + n].x[b] && i < 2 * n
    ensures RandomRow(n, rows, b, p, o, i).r % 2 == 0
  {
    hide Times, Symp, Complete, Canonical;
    CanonicalAt(n, rows, i, p + n);
    CliffordParity(rows[p + n], rows[i], n);
  }

  lemma RandomCanonical(n: nat, rows: Rows, b: nat, p: nat, o: bool)
    requires Invariant(n, rows) && b < n && p < n && rows[p + n].x[b]
    requires Shape(n, RandomRows(n, rows, b, p, o))
    ensures Canonical(n, RandomRows(n, rows, b, p, o))
  {
    forall i: nat, j: nat | i < 2 * n && j < 2 * n
      ensures Symp(RandomRow(n, rows, b, p, o, i), RandomRow(n, rows, b, p, o, j), n) == (i == j + n || j == i + n)
    {
      RandomCanonicalAt(n, rows, b, p, o, i, j);
    }
  }

  lemma RandomCanonicalAt(n: nat, rows: Rows, b: nat, p: nat, o: bool, i: nat, j: nat)
    requires Invariant(n, rows) && b < n && p < n && rows[p + n].x[b] && i < 2 * n && j < 2 * n
    ensures Symp(RandomRow(n, rows, b, p, o, i), RandomRow(n, rows, b, p, o, j), n) == (i == j + n || j == i + n)
  {
    hide Times, Symp, Complete, Canonical;
    var q := RandomRow(n, rows, b, p, o, i);
    SympRandomRow(n, rows, b, p, o, j, q);
    SympSymmetric(q, rows[j], n);
    SympSymmetric(q, rows[p + n], n);
    SympRandomRow(n, rows, b, p, o, i, rows[j]);
    SympRandomRow(n, rows, b, p, o, i, rows[p + n]);
    CanonicalAt(n, rows, j, p + n);
    CanonicalAt(n, rows, p + n, p + n);
    CanonicalAt(n, rows, j, i);
    CanonicalAt(n, rows, p + n, i);
  }

  /** How the pairing of v and w changes at an index away from the pivot s. */
  lemma ClearedPairTerm(d: Pauli, t: Pauli, s: Pauli, b: nat, v: Pauli, w: Pauli, n: nat)
    requires Fits(d, n) && Fits(t, n) && Fits(s, n) && b < n && Fits(v, n) && Fits(w, n)
    ensures var z := UnitZ(n, b, 0);
            PairTerm(Cleared(d, s, b, n), Cleared(t, s, b, n), v, w, n) ==
              ((PairTerm(d, t, v, w, n) != (Symp(w, s, n) && PairTerm(d, t, v, z, n)))
               != (Symp(v, s, n) && PairTerm(d, t, z, w, n)))
  {
    hide Symp, Cleared, UnitZ, Fits;
    SympCleared(v, d, s, b, n);
    SympCleared(w, d, s, b, n);
    SympCleared(v, t, s, b, n);
    SympCleared(w, t, s, b, n);
    SympUnitZ(n, b, 0, d);
    SympUnitZ(n, b, 0, t);
  }

  /** At the pivot the old contribution is traded for that of (s, Z_b). */
  lemma PivotPairTerm(d: Pauli, s: Pauli, b: nat, o: bool, v: Pauli, w: Pauli, n: nat)
    requires Fits(d, n) && Fits(s, n) && b < n && Fits(v, n) && Fits(w, n) && s.x[b]
    ensures var z := UnitZ(n, b, 0);
            PairTerm(s, UnitZ(n, b, OutcomePhase(o)), v, w, n) ==
              ((PairTerm(d, s, v, w, n) != (Symp(w, s, n) && PairTerm(d, s, v, z, n)))
               != ((Symp(v, s, n) && PairTerm(d, s, z, w, n))
                   != ((v.x[b] && Symp(w, s, n)) != (Symp(v, s, n) && w.x[b]))))
  {
    hide Symp, UnitZ;
    var u := UnitZ(n, b, OutcomePhase(o));
    SympUnitZ(n, b, OutcomePhase(o), v);
    SympUnitZ(n, b, OutcomePhase(o), w);
    SympSymmetric(u, v, n);
    SympSymmetric(u, w, n);
    SympUnitZ(n, b, 0, d);
    SympUnitZ(n, b, 0, s);
  }

  lemma RandomComplete(n: nat, rows: Rows, b: nat, p: nat, o: bool)
    requires Invariant(n, rows) && b < n && p < n && rows[p + n].x[b]
    requires Shape(n, RandomRows(n, rows, b, p, o))
    ensures Complete(n, RandomRows(n, rows, b, p, o))
  {
    forall v: Pauli, w: Pauli | Fits(v, n) && Fits(w, n)
      ensures Symp(v, w, n) == Xor(PairTerms(n, RandomRows(n, rows, b, p, o), v, w))
    {
      RandomCompleteAt(n, rows, b, p, o, v, w);
    }
  }

  lemma RandomTerm(n: nat, rows: Rows, b: nat, p: nat, o: bool, v: Pauli, w: Pauli, i: nat)
    requires Shape(n, rows) && b < n && p < n && rows[p + n].x[b] && Fits(v, n) && Fits(w, n) && i < n
    requires Shape(n, RandomRows(n, rows, b, p, o))
    ensures var sv, sw := Symp(v, rows[p + n], n), Symp(w, rows[p + n], n);
            var z := UnitZ(n, b, 0);
            var c := i == p && (v.x[b] && sw) != (sv && w.x[b]);
            PairTerms(n, RandomRows(n, rows, b, p, o), v, w)[i] ==
              ((PairTerms(n, rows, v, w)[i] != (sw && PairTerms(n, rows, v, z)[i]))
               != ((sv && PairTerms(n, rows, z, w)[i]) != c))
  {
    hide Symp, Cleared, PairTerm, UnitZ;
    if i == p {
      PivotPairTerm(rows[i], rows[n + i], b, o, v, w, n);
    } else {
      ClearedPairTerm(rows[i], rows[n + i], rows[p + n], b, v, w, n);
    }
  }

  lemma RandomCompleteAt(n: nat, rows: Rows, b: nat, p: nat, o: bool, v: Pauli, w: Pauli)
    requires Invariant(n, rows) && b < n && p < n && rows[p + n].x[b] && Fits(v, n) && Fits(w, n)
    requires Shape(n, RandomRows(n, rows, b, p, o))
    ensures Symp(v, w, n) == Xor(PairTerms(n, RandomRows(n, rows, b, p, o), v, w))
  {
    hide Symp, Complete, Canonical, RandomRows, PairTerms, Xor, UnitZ;
    var z := UnitZ(n, b, 0);
    var sv, sw := Symp(v, rows[p + n], n), Symp(w, rows[p + n], n);
    var t, tv, tw := PairTerms(n, rows, v, w), PairTerms(n, rows, v, z), PairTerms(n, rows, z, w);
    var av := seq(n, i requires 0 <= i < n => sw && tv[i]);
    var aw := seq(n, i requires 0 <= i < n => sv && tw[i]);
    var c := Zeros(n)[p := (v.x[b] && sw) != (sv && w.x[b])];
    var l, r := XorBits(t, av), XorBits(aw, c);
    var t' := PairTerms(n, RandomRows(n, rows, b, p, o), v, w);
    forall i | 0 <= i < n ensures t'[i] == (l[i] != r[i]) {
      RandomTerm(n, rows, b, p, o, v, w, i);
    }
    XorAnd(tv, sw, av);
    XorAnd(tw, sv, aw);
    XorSingle(c, p);
    XorPointwise(t, av, l);
    XorPointwise(aw, c, r);
    XorPointwise(l, r, t');
    CompleteAt(n, rows, v, w);
    CompleteAt(n, rows, v, z);
    CompleteAt(n, rows, z, w);
    SympUnitZ(n, b, 0, w);
    SympUnitZ(n, b, 0, v);
    SympSymmetric(v, z, n);
  }

  /** A random measurement keeps the tableau invariant. */
  lemma RandomInvariant(n: nat, rows: Rows, b: nat, p: nat, o: bool)
    requires Invariant(n, rows) && b < n && p < n && rows[p + n].x[b]
    ensures Invariant(n, RandomRows(n, rows, b, p, o))
  {
    RandomShape(n, rows, b, p, o);
    RandomCanonical(n, rows, b, p, o);
    RandomComplete(n, rows, b, p, o);
  }
}
