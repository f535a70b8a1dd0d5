/** The stabilizer group with its signs, and what a measurement does to it. */
module SignedGroup {
  import opened Paulis
  import opened Amplitudes
  import opened Projections
  import opened Tableaus
  import opened Measurement

  /** How a group element is built from the stabilizer rows. */
  datatype Word = One | Gen(i: nat) | Mul(l: Word, r: Word)

  predicate Over(w: Word, n: nat)
  {
    match w
    case One => true
    case Gen(i) => i < n
    case Mul(l, r) => Over(l, n) && Over(r, n)
  }

  function Eval(n: nat, rows: Rows, w: Word): (p: Pauli)
    requires Shape(n, rows) && Over(w, n)
    ensures Fits(p, n)
  {
    match w
    case One => Identity(n)
    case Gen(i) => rows[n + i]
    case Mul(l, r) => Times(Eval(n, rows, l), Eval(n, rows, r), n)
  }

  ghost predicate InGroup(n: nat, rows: Rows, p: Pauli)
    requires Shape(n, rows)
  {
    exists w :: Over(w, n) && Eval(n, rows, w) == p
  }

  lemma GroupProduct(n: nat, rows: Rows, p: Pauli, q: Pauli)
    requires Shape(n, rows) && InGroup(n, rows, p) && InGroup(n, rows, q)
    ensures Fits(p, n) && Fits(q, n) && InGroup(n, rows, Times(p, q, n))
  {
    var v :| Over(v, n) && Eval(n, rows, v) == p;
    var w :| Over(w, n) && Eval(n, rows, w) == q;
    assert Over(Mul(v, w), n) && Eval(n, rows, Mul(v, w)) == Times(p, q, n);
  }

  lemma GroupGenerator(n: nat, rows: Rows, i: nat)
    requires Shape(n, rows) && i < n
    ensures InGroup(n, rows, rows[n + i])
  {
    assert Over(Gen(i), n) && Eval(n, rows, Gen(i)) == rows[n + i];
  }

  lemma GroupIdentity(n: nat, rows: Rows)
    requires Shape(n, rows)
    ensures InGroup(n, rows, Identity(n))
  {
    assert Over(One, n) && Eval(n, rows, One) == Identity(n);
  }

  lemma SympIdentity(n: nat, v: Pauli)
    requires Fits(v, n)
    ensures !Symp(v, Identity(n), n)
  {
    Sums.XorAllFalse(SympTerms(v, Identity(n), n));
  }

  ghost predicate CommutesWithAll(n: nat, rows: Rows, v: Pauli)
    requires Shape(n, rows) && Fits(v, n)
  {
    forall i :: n <= i < 2 * n ==> !Symp(v, rows[i], n)
  }

  /** Whatever commutes with the generators commutes with the whole group. */
  lemma {:induction false} WordCommutes(n: nat, rows: Rows, w: Word, v: Pauli)
    requires Shape(n, rows) && Over(w, n) && Fits(v, n) && CommutesWithAll(n, rows, v)
    ensures !Symp(v, Eval(n, rows, w), n)
  {
    hide Symp, Times, Identity;
    match w
    case One => SympIdentity(n, v);
    case Gen(i) => assert !Symp(v, rows[n + i], n);
    case Mul(l, r) =>
      WordCommutes(n, rows, l, v);
      WordCommutes(n, rows, r, v);
      SympTimes(v, Eval(n, rows, l), Eval(n, rows, r), n);
  }

  lemma GeneratorCommutes(n: nat, rows: Rows, i: nat)
    requires Invariant(n, rows) && n <= i < 2 * n
    ensures CommutesWithAll(n, rows, rows[i])
  {
    hide Symp, Complete, Canonical;
    forall j | n <= j < 2 * n ensures !Symp(rows[i], rows[j], n) { CanonicalAt(n, rows, i, j); }
  }

  /** Group elements commute with the generators and have real phases. */
  lemma {:induction false} WordReal(n: nat, rows: Rows, w: Word)
    requires Invariant(n, rows) && Over(w, n)
    ensures Eval(n, rows, w).r % 2 == 0
    ensures CommutesWithAll(n, rows, Eval(n, rows, w))
  {
    hide Symp, Times, Canonical, Complete;
    var p := Eval(n, rows, w);
    forall i | n <= i < 2 * n ensures !Symp(p, rows[i], n) {
      GeneratorCommutes(n, rows, i);
      WordCommutes(n, rows, w, rows[i]);
      SympSymmetric(p, rows[i], n);
    }
    if w.Mul? {
      var l, r := Eval(n, rows, w.l), Eval(n, rows, w.r);
      WordReal(n, rows, w.l);
      WordReal(n, rows, w.r);
      WordCommutes(n, rows, w.r, l);
      SympSymmetric(l, r, n);
      CliffordParity(l, r, n);
    }
  }

  lemma GroupElement(n: nat, rows: Rows, p: Pauli)
    requires Invariant(n, rows) && InGroup(n, rows, p)
    ensures Fits(p, n) && p.r % 2 == 0 && CommutesWithAll(n, rows, p)
  {
    hide Symp, Times, Canonical, Complete, Shape, CommutesWithAll;
    var w :| Over(w, n) && Eval(n, rows, w) == p;
    WordReal(n, rows, w);
  }

  lemma GroupCommutes(n: nat, rows: Rows, p: Pauli, q: Pauli)
    requires Invariant(n, rows) && InGroup(n, rows, p) && InGroup(n, rows, q)
    ensures Fits(p, n) && Fits(q, n) && !Symp(p, q, n) && Times(p, q, n) == Times(q, p, n)
  {
    hide Symp, Times, Canonical, Complete, Shape, CommutesWithAll;
    GroupElement(n, rows, p);
    var w :| Over(w, n) && Eval(n, rows, w) == q;
    WordCommutes(n, rows, w, p);
    SympSymmetric(p, q, n);
    TimesCommutes(p, q, n);
    assert Times(p, q, n).r % 4 == Times(p, q, n).r;
  }

  /** The whole group fixes the state that its generators fix. */
  lemma {:induction false} GroupStabilises(n: nat, rows: Rows, w: Word, f: Amp)
    requires Shape(n, rows) && Describes(n, rows, f) && Over(w, n)
    ensures Stabilises(Eval(n, rows, w), f, n)
  {
    hide Times, Stabilises;
    match w
    case One => IdentityStabilises(n, f);
    case Gen(_) =>
    case Mul(l, r) =>
      GroupStabilises(n, rows, l, f);
      GroupStabilises(n, rows, r, f);
      StabilisesProduct(Eval(n, rows, l), Eval(n, rows, r), f, n);
  }

  lemma IdentityStabilises(n: nat, f: Amp)
    ensures Stabilises(Identity(n), f, n)
  {
    var p := Identity(n);
    forall t: Bits | |t| == n ensures Apply(p, f, n)(t) == f(t) {
      assert XorBits(t, p.x) == t;
      Sums.SumAllZero(ExpoTerms(p, t, n));
    }
  }

  // ---------------------------------------------------------------- random measurement

  lemma CancelSquare(s: Pauli, p: Pauli, n: nat)
    requires Fits(s, n) && Fits(p, n) && s.r % 2 == 0
    ensures Times(s, Times(s, p, n), n) == p
  {
    hide Times;
    TimesAssociative(s, s, p, n);
    TimesSelf(s, n);
    TimesIdentity(p, n);
  }

  lemma SwapLeft(s: Pauli, p: Pauli, q: Pauli, n: nat)
    requires Fits(s, n) && Fits(p, n) && Fits(q, n) && !Symp(s, p, n)
    ensures Times(p, Times(s, q, n), n) == Times(s, Times(p, q, n), n)
  {
    hide Times, Symp;
    TimesAssociative(p, s, q, n);
    TimesAssociative(s, p, q, n);
    TimesCommutes(s, p, n);
    assert 0 <= Times(p, s, n).r < 4;
    SympSymmetric(s, p, n);
  }

  /** Every old group element that commutes with Z_b survives; one that does not
      survives multiplied by the pivot. */
  lemma {:induction false} RandomKeeps(n: nat, rows: Rows, b: nat, p: nat, o: bool, w: Word)
    requires Invariant(n, rows) && b < n && p < n && rows[p + n].x[b] && Over(w, n)
    requires Invariant(n, RandomRows(n, rows, b, p, o))
    ensures var e := Eval(n, rows, w);
            InGroup(n, RandomRows(n, rows, b, p, o), if e.x[b] then Times(rows[p + n], e, n) else e)
  {
    hide Times, Symp, Complete, Canonical, InGroup;
    var rows' := RandomRows(n, rows, b, p, o);
    var s := rows[p + n];
    match w
    case One =>
      GroupIdentity(n, rows');
    case Gen(i) =>
      if i == p {
        TimesSelf(s, n);
        GroupIdentity(n, rows');
      } else {
        GroupGenerator(n, rows', i);
      }
    case Mul(l, r) =>
      GroupGenerator(n, rows, p);
      RandomKeeps(n, rows, b, p, o, l);
      RandomKeeps(n, rows, b, p, o, r);
      KeepsProduct(n, rows, rows', b, s, l, r);
  }

  lemma KeepsProduct(n: nat, rows: Rows, rows': Rows, b: nat, s: Pauli, v: Word, w: Word)
    requires Invariant(n, rows) && Shape(n, rows') && b < n && Over(v, n) && Over(w, n) && InGroup(n, rows, s) && Fits(s, n)
    requires var e := Eval(n, rows, v); InGroup(n, rows', if e.x[b] then Times(s, e, n) else e)
    requires var e := Eval(n, rows, w); InGroup(n, rows', if e.x[b] then Times(s, e, n) else e)
    ensures var e := Eval(n, rows, Mul(v, w)); InGroup(n, rows', if e.x[b] then Times(s, e, n) else e)
  {
    hide Times, Symp, Complete, Canonical, Shape;
    var d, e := Eval(n, rows, v), Eval(n, rows, w);
    assert InGroup(n, rows, d) && InGroup(n, rows, e);
    var d', e' := if d.x[b] then Times(s, d, n) else d, if e.x[b] then Times(s, e, n) else e;
    GroupProduct(n, rows', d', e');
    GroupElement(n, rows, s);
    GroupCommutes(n, rows, s, d);
    if d.x[b] && e.x[b] {
      TimesAssociative(s, d, Times(s, e, n), n);
      SwapLeft(s, d, e, n);
      CancelSquare(s, Times(d, e, n), n);
    } else if d.x[b] {
      TimesAssociative(s, d, e, n);
    } else if e.x[b] {
      SwapLeft(s, d, e, n);
    }
  }

  /** Every element of the new group is an old element that commutes with Z_b, up to
      a factor (-1)^o Z_b. */
  lemma {:induction false} RandomNothingElse(n: nat, rows: Rows, b: nat, p: nat, o: bool, w: Word)
    returns (q: Pauli)
    requires Invariant(n, rows) && b < n && p < n && rows[p + n].x[b] && Over(w, n)
    requires Shape(n, RandomRows(n, rows, b, p, o))
    ensures Fits(q, n) && InGroup(n, rows, q) && !q.x[b]
    ensures var e := Eval(n, RandomRows(n, rows, b, p, o), w);
            e == q || e == Times(UnitZ(n, b, OutcomePhase(o)), q, n)
  {
    hide Times, Symp, Complete, Canonical, InGroup;
    var rows' := RandomRows(n, rows, b, p, o);
    var z := UnitZ(n, b, OutcomePhase(o));
    match w
    case One =>
      GroupIdentity(n, rows);
      q := Identity(n);
    case Gen(i) =>
      if i == p {
        GroupIdentity(n, rows);
        TimesIdentity(z, n);
        q := Identity(n);
      } else {
        GroupGenerator(n, rows, i);
        GroupGenerator(n, rows, p);
        if rows[n + i].x[b] { GroupProduct(n, rows, rows[p + n], rows[n + i]); }
        q := rows'[n + i];
      }
    case Mul(l, r) =>
      var d := RandomNothingElse(n, rows, b, p, o, l);
      var e := RandomNothingElse(n, rows, b, p, o, r);
      q := Times(d, e, n);
      GroupProduct(n, rows, d, e);
      FactorZ(z, Eval(n, rows', l), Eval(n, rows', r), d, e, n) by { SympUnitZ(n, b, z.r, d); }
  }

  lemma FactorZ(z: Pauli, d': Pauli, e': Pauli, d: Pauli, e: Pauli, n: nat)
    requires Fits(z, n) && Fits(d, n) && Fits(e, n) && z.r % 2 == 0 && !Symp(z, d, n)
    requires d' == d || d' == Times(z, d, n)
    requires e' == e || e' == Times(z, e, n)
    ensures var q := Times(d, e, n); Times(d', e', n) == q || Times(d', e', n) == Times(z, q, n)
  {
    hide Times, Symp;
    TimesAssociative(z, d, e, n);
    SwapLeft(z, d, e, n);
    TimesAssociative(z, d, Times(z, e, n), n);
    CancelSquare(z, Times(d, e, n), n);
  }

  /** The signed group after a random measurement, exactly. */
  lemma RandomGroup(n: nat, rows: Rows, b: nat, p: nat, o: bool, e: Pauli)
    requires Invariant(n, rows) && b < n && p < n && rows[p + n].x[b]
    ensures Invariant(n, RandomRows(n, rows, b, p, o))
    ensures InGroup(n, RandomRows(n, rows, b, p, o), e) <==>
      exists q :: Fits(q, n) && InGroup(n, rows, q) && !q.x[b]
               && (e == q || e == Times(UnitZ(n, b, OutcomePhase(o)), q, n))
  {
    hide Times, Symp, Complete, Canonical, UnitZ, RandomRow;
    var rows' := RandomRows(n, rows, b, p, o);
    var z := UnitZ(n, b, OutcomePhase(o));
    RandomInvariant(n, rows, b, p, o);
    if InGroup(n, rows', e) {
      var w :| Over(w, n) && Eval(n, rows', w) == e;
      var q := RandomNothingElse(n, rows, b, p, o, w);
    }
    if q :| Fits(q, n) && InGroup(n, rows, q) && !q.x[b] && (e == q || e == Times(z, q, n)) {
      var w :| Over(w, n) && Eval(n, rows, w) == q;
      RandomKeeps(n, rows, b, p, o, w);
      assert rows'[n + p] == z by { RandomPivotRow(n, rows, b, p, o); }
      GroupGenerator(n, rows', p);
      GroupProduct(n, rows', z, q);
    }
  }

  lemma RandomPivotRow(n: nat, rows: Rows, b: nat, p: nat, o: bool)
    requires Shape(n, rows) && b < n && p < n
    ensures RandomRow(n, rows, b, p, o, n + p) == UnitZ(n, b, OutcomePhase(o))
  {
  }

  /** After measuring b with outcome o, the group holds (-1)^o Z_b and every earlier
      element that commutes with Z_b, whichever branch ran. */
  lemma MeasureGroup(n: nat, rows: Rows, b: nat, coin: bool, e: Pauli)
    requires Invariant(n, rows) && b < n
    ensures var m := Measure(n, rows, b, coin);
            Invariant(n, m.rows) && InGroup(n, m.rows, UnitZ(n, b, OutcomePhase(m.outcome)))
            && (Fits(e, n) && InGroup(n, rows, e) && !e.x[b] ==> InGroup(n, m.rows, e))
  {
    hide Times, Symp, Complete, Canonical, UnitZ, RandomRow, InGroup;
    var p := FindX(rows, b, n, n, 2 * n);
    if p < 2 * n {
      RandomGroup(n, rows, b, p - n, coin, e);
      RandomPivotRow(n, rows, b, p - n, coin);
      GroupGenerator(n, RandomRows(n, rows, b, p - n, coin), p - n);
    } else {
      DeterministicRow(n, rows, b);
      AccumulatedInGroup(n, rows, b, FindX(rows, b, n, 0, n), n);
    }
  }

  lemma {:induction false} AccumulatedInGroup(n: nat, rows: Rows, b: nat, m: nat, k: nat)
    requires Shape(n, rows) && b < n && m < k <= n
    ensures InGroup(n, rows, Accumulated(n, rows, b, m, k))
  {
    hide Times, InGroup;
    GroupGenerator(n, rows, k - 1);
    GroupGenerator(n, rows, m);
    if k > m + 1 {
      AccumulatedInGroup(n, rows, b, m, k - 1);
      GroupProduct(n, rows, rows[k - 1 + n], Accumulated(n, rows, b, m, k - 1));
    }
  }
}
