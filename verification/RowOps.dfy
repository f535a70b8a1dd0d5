/** The two row operations of gaussian (state/chp_state.hpp:324-375), each done to a
    stabilizer pair and to the destabilizers that go with it. */
module RowOps {
  import opened Sums
  import opened Paulis
  import opened Amplitudes
  import opened Tableaus
  import opened Measurement
  import opened SignedGroup

  /** rowswap(i, k); rowswap(i - n, k - n) */
  function SwapPair(n: nat, rows: Rows, i: nat, k: nat): (rows': Rows)
    requires |rows| == 2 * n && n <= i < 2 * n && n <= k < 2 * n
    ensures |rows'| == 2 * n
    ensures forall j :: 0 <= j < 2 * n ==> rows'[j] == rows[Swapped(n, i, k, j)]
  {
    seq(2 * n, j requires 0 <= j < 2 * n => rows[Swapped(n, i, k, j)])
  }

  function Swapped(n: nat, i: nat, k: nat, j: nat): (s: nat)
    requires n <= i < 2 * n && n <= k < 2 * n && j < 2 * n
    ensures s < 2 * n && (s < n <==> j < n)
  {
    if j == i then k else if j == k then i
    else if j == i - n then k - n else if j == k - n then i - n
    else j
  }

  /** rowmult(k, i); rowmult(i - n, k - n) */
  function AddPair(n: nat, rows: Rows, k: nat, i: nat): (rows': Rows)
    requires Shape(n, rows) && n <= i < 2 * n && n <= k < 2 * n && i != k
    ensures |rows'| == 2 * n
    ensures forall j :: 0 <= j < 2 * n ==> Fits(rows'[j], n)
    ensures forall j :: 0 <= j < 2 * n && j != k && j != i - n ==> rows'[j] == rows[j]
    ensures rows'[k] == Times(rows[i], rows[k], n) && rows'[i - n] == Times(rows[k - n], rows[i - n], n)
  {
    rows[k := Times(rows[i], rows[k], n)][i - n := Times(rows[k - n], rows[i - n], n)]
  }

  // ---------------------------------------------------------------- swapping

  lemma SwapPairTerms(n: nat, rows: Rows, i: nat, k: nat, v: Pauli, w: Pauli, j: nat)
    requires Shape(n, rows) && n <= i < 2 * n && n <= k < 2 * n && Fits(v, n) && Fits(w, n) && j < n
    requires Shape(n, SwapPair(n, rows, i, k))
    ensures PairTerms(n, SwapPair(n, rows, i, k), v, w)[j] == PairTerms(n, rows, v, w)[Swapped(n, i, k, j)]
  {
    hide PairTerm, Shape;
    assert Swapped(n, i, k, n + j) == n + Swapped(n, i, k, j);
  }

  lemma SwapComplete(n: nat, rows: Rows, i: nat, k: nat, v: Pauli, w: Pauli)
    requires Invariant(n, rows) && n <= i < 2 * n && n <= k < 2 * n && Fits(v, n) && Fits(w, n)
    requires Shape(n, SwapPair(n, rows, i, k))
    ensures Symp(v, w, n) == Xor(PairTerms(n, SwapPair(n, rows, i, k), v, w))
  {
    hide Symp, Complete, Canonical, PairTerm, PairTerms, SwapPair, Xor;
    var t, t' := PairTerms(n, rows, v, w), PairTerms(n, SwapPair(n, rows, i, k), v, w);
    CompleteAt(n, rows, v, w);
    forall j | 0 <= j < n ensures t'[j] == t[Swapped(n, i, k, j)] {
      SwapPairTerms(n, rows, i, k, v, w, j);
    }
    if i == k {
      assert t == t';
    } else {
      XorTwoChanged(t, t', i - n, k - n);
    }
  }

  lemma SwapShape(n: nat, rows: Rows, i: nat, k: nat)
    requires Shape(n, rows) && n <= i < 2 * n && n <= k < 2 * n
    ensures Shape(n, SwapPair(n, rows, i, k))
  {
    hide Swapped;
  }

  lemma SwapCanonicalAt(n: nat, rows: Rows, i: nat, k: nat, a: nat, b: nat)
    requires Invariant(n, rows) && n <= i < 2 * n && n <= k < 2 * n && a < 2 * n && b < 2 * n
    requires Shape(n, SwapPair(n, rows, i, k))
    ensures Symp(SwapPair(n, rows, i, k)[a], SwapPair(n, rows, i, k)[b], n) == (a == b + n || b == a + n)
  {
    hide Symp, Complete, Canonical, Shape;
    CanonicalAt(n, rows, Swapped(n, i, k, a), Swapped(n, i, k, b));
  }

  lemma SwapInvariant(n: nat, rows: Rows, i: nat, k: nat)
    requires Invariant(n, rows) && n <= i < 2 * n && n <= k < 2 * n
    ensures Invariant(n, SwapPair(n, rows, i, k))
  {
    hide Symp, SwapPair, PairTerms;
    SwapShape(n, rows, i, k);
    forall a: nat, b: nat | a < 2 * n && b < 2 * n
      ensures Symp(SwapPair(n, rows, i, k)[a], SwapPair(n, rows, i, k)[b], n) == (a == b + n || b == a + n)
    {
      SwapCanonicalAt(n, rows, i, k, a, b);
    }
    forall v: Pauli, w: Pauli | Fits(v, n) && Fits(w, n)
      ensures Symp(v, w, n) == Xor(PairTerms(n, SwapPair(n, rows, i, k), v, w))
    {
      SwapComplete(n, rows, i, k, v, w);
    }
  }

  // ---------------------------------------------------------------- adding

  lemma AddShape(n: nat, rows: Rows, k: nat, i: nat)
    requires Invariant(n, rows) && n <= i < 2 * n && n <= k < 2 * n && i != k
    ensures Shape(n, AddPair(n, rows, k, i))
  {
    hide Symp, Times, Complete, Canonical;
    CanonicalAt(n, rows, k, i);
    CanonicalAt(n, rows, i - n, k - n);
    CliffordParity(rows[i], rows[k], n);
    CliffordParity(rows[k - n], rows[i - n], n);
  }

  /** How any operator sees the rows after an addition. */
  lemma SympAdd(n: nat, rows: Rows, k: nat, i: nat, v: Pauli, j: nat)
    requires Shape(n, rows) && n <= i < 2 * n && n <= k < 2 * n && i != k && Fits(v, n) && j < 2 * n
    ensures Symp(v, AddPair(n, rows, k, i)[j], n) ==
      if j == k then Symp(v, rows[i], n) != Symp(v, rows[k], n)
      else if j == i - n then Symp(v, rows[k - n], n) != Symp(v, rows[i - n], n)
      else Symp(v, rows[j], n)
  {
    hide Symp, Times;
    if j == k { SympTimes(v, rows[i], rows[k], n); }
    if j == i - n { SympTimes(v, rows[k - n], rows[i - n], n); }
  }

  predicate Partners(n: nat, a: nat, b: nat)
  {
    a == b + n || b == a + n
  }

  /** The new row a against the old row b. */
  lemma SympAddColumn(n: nat, rows: Rows, k: nat, i: nat, a: nat, b: nat)
    requires Invariant(n, rows) && n <= i < 2 * n && n <= k < 2 * n && i != k && a < 2 * n && b < 2 * n
    ensures Symp(rows[b], AddPair(n, rows, k, i)[a], n) ==
      (Partners(n, a, b) != ((a == k && i == b + n) || (a == i - n && b == k)))
  {
    hide Symp, Complete, Canonical, AddPair;
    SympAdd(n, rows, k, i, rows[b], a);
    CanonicalAt(n, rows, b, a);
    if a == k {
      CanonicalAt(n, rows, b, i);
    } else if a == i - n {
      CanonicalAt(n, rows, b, k - n);
    }
  }

  /** Rows a and b anticommute exactly if they are partners. */
  predicate CanonicalPair(n: nat, rows: Rows, a: nat, b: nat)
  {
    && a < |rows| && b < |rows| && Fits(rows[a], n) && Fits(rows[b], n)
    && Symp(rows[a], rows[b], n) == Partners(n, a, b)
  }

  /** The new row a against the new row b. */
  lemma AddCanonicalAt(n: nat, rows: Rows, k: nat, i: nat, a: nat, b: nat)
    requires Invariant(n, rows) && n <= i < 2 * n && n <= k < 2 * n && i != k && a < 2 * n && b < 2 * n
    ensures CanonicalPair(n, AddPair(n, rows, k, i), a, b)
  {
    hide Symp, Complete, Canonical, AddPair, Times;
    var rows' := AddPair(n, rows, k, i);
    if b == k {
      NewAgainstOld(n, rows, k, i, a, k);
      NewAgainstOld(n, rows, k, i, a, i);
      SympTimes(rows'[a], rows[i], rows[k], n);
    } else if b == i - n {
      NewAgainstOld(n, rows, k, i, a, i - n);
      NewAgainstOld(n, rows, k, i, a, k - n);
      SympTimes(rows'[a], rows[k - n], rows[i - n], n);
    } else {
      NewAgainstOld(n, rows, k, i, a, b);
    }
  }

  lemma NewAgainstOld(n: nat, rows: Rows, k: nat, i: nat, a: nat, b: nat)
    requires Invariant(n, rows) && n <= i < 2 * n && n <= k < 2 * n && i != k && a < 2 * n && b < 2 * n
    ensures Fits(rows[b], n)
    ensures Symp(AddPair(n, rows, k, i)[a], rows[b], n) ==
      (Partners(n, a, b) != ((a == k && i == b + n) || (a == i - n && b == k)))
  {
    hide Symp, Complete, Canonical, AddPair;
    SympAddColumn(n, rows, k, i, a, b);
    SympSymmetric(AddPair(n, rows, k, i)[a], rows[b], n);
  }

  lemma AddComplete(n: nat, rows: Rows, k: nat, i: nat, v: Pauli, w: Pauli)
    requires Invariant(n, rows) && n <= i < 2 * n && n <= k < 2 * n && i != k && Fits(v, n) && Fits(w, n)
    requires Shape(n, AddPair(n, rows, k, i))
    ensures Symp(v, w, n) == Xor(PairTerms(n, AddPair(n, rows, k, i), v, w))
  {
    hide Symp, Times, Complete, Canonical, Xor, AddPair;
    var rows' := AddPair(n, rows, k, i);
    var t, t' := PairTerms(n, rows, v, w), PairTerms(n, rows', v, w);
    CompleteAt(n, rows, v, w);
    forall j | 0 <= j < n
      ensures j != i - n && j != k - n ==> t[j] == t'[j]
    {
      AddSees(n, rows, k, i, v, w, j);
    }
    AddSees(n, rows, k, i, v, w, i - n);
    AddSees(n, rows, k, i, v, w, k - n);
    XorTwoChanged(t, t', i - n, k - n);
  }

  lemma AddSees(n: nat, rows: Rows, k: nat, i: nat, v: Pauli, w: Pauli, j: nat)
    requires Shape(n, rows) && n <= i < 2 * n && n <= k < 2 * n && i != k && Fits(v, n) && Fits(w, n) && j < n
    ensures var rows' := AddPair(n, rows, k, i);
            && Symp(v, rows'[j], n) == (Symp(v, rows[j], n) != (j == i - n && Symp(v, rows[k - n], n)))
            && Symp(w, rows'[j], n) == (Symp(w, rows[j], n) != (j == i - n && Symp(w, rows[k - n], n)))
            && Symp(v, rows'[n + j], n) == (Symp(v, rows[n + j], n) != (n + j == k && Symp(v, rows[i], n)))
            && Symp(w, rows'[n + j], n) == (Symp(w, rows[n + j], n) != (n + j == k && Symp(w, rows[i], n)))
  {
    hide Symp, AddPair;
    SympAdd(n, rows, k, i, v, j);
    SympAdd(n, rows, k, i, w, j);
    SympAdd(n, rows, k, i, v, n + j);
    SympAdd(n, rows, k, i, w, n + j);
  }

  lemma AddInvariant(n: nat, rows: Rows, k: nat, i: nat)
    requires Invariant(n, rows) && n <= i < 2 * n && n <= k < 2 * n && i != k
    ensures Invariant(n, AddPair(n, rows, k, i))
  {
    hide Symp, Shape, AddPair, PairTerms;
    AddShape(n, rows, k, i);
    forall a: nat, b: nat | a < 2 * n && b < 2 * n
      ensures Symp(AddPair(n, rows, k, i)[a], AddPair(n, rows, k, i)[b], n) == (a == b + n || b == a + n)
    {
      AddCanonicalAt(n, rows, k, i, a, b);
    }
    forall v: Pauli, w: Pauli | Fits(v, n) && Fits(w, n)
      ensures Symp(v, w, n) == Xor(PairTerms(n, AddPair(n, rows, k, i), v, w))
    {
      AddComplete(n, rows, k, i, v, w);
    }
  }

  // ---------------------------------------------------------------- the group

  /** Every generator of the one tableau is a product of generators of the other. */
  ghost predicate Generates(n: nat, rows: Rows, rows': Rows)
    requires Shape(n, rows) && Shape(n, rows')
  {
    forall i :: n <= i < 2 * n ==> InGroup(n, rows, rows'[i])
  }

  ghost predicate SameGroup(n: nat, rows: Rows, rows': Rows)
    requires Shape(n, rows) && Shape(n, rows')
  {
    Generates(n, rows, rows') && Generates(n, rows', rows)
  }

  lemma {:induction false} GeneratesWord(n: nat, rows: Rows, rows': Rows, w: Word)
    requires Shape(n, rows) && Shape(n, rows') && Generates(n, rows, rows') && Over(w, n)
    ensures InGroup(n, rows, Eval(n, rows', w))
  {
    hide Times, InGroup, Shape;
    match w
    case One => GroupIdentity(n, rows);
    case Gen(_) =>
    case Mul(l, r) =>
      GeneratesWord(n, rows, rows', l);
      GeneratesWord(n, rows, rows', r);
      GroupProduct(n, rows, Eval(n, rows', l), Eval(n, rows', r));
  }

  /** Tableaus that generate each other have the same signed group. */
  lemma SameGroupElements(n: nat, rows: Rows, rows': Rows, p: Pauli)
    requires Shape(n, rows) && Shape(n, rows') && SameGroup(n, rows, rows')
    ensures InGroup(n, rows, p) <==> InGroup(n, rows', p)
  {
    hide Shape, Generates;
    if InGroup(n, rows, p) {
      var w :| Over(w, n) && Eval(n, rows, w) == p;
      GeneratesWord(n, rows', rows, w);
    }
    if InGroup(n, rows', p) {
      var w :| Over(w, n) && Eval(n, rows', w) == p;
      GeneratesWord(n, rows, rows', w);
    }
  }

  /** Tableaus with the same signed group describe the same states. */
  lemma SameGroupDescribes(n: nat, rows: Rows, rows': Rows, f: Amp)
    requires Shape(n, rows) && Shape(n, rows') && SameGroup(n, rows, rows') && Describes(n, rows, f)
    ensures Describes(n, rows', f)
  {
    hide Stabilises;
    forall i | n <= i < 2 * n ensures Stabilises(rows'[i], f, n) {
      var w :| Over(w, n) && Eval(n, rows, w) == rows'[i];
      GroupStabilises(n, rows, w, f);
    }
  }

  lemma SameGroupReflexive(n: nat, rows: Rows)
    requires Shape(n, rows)
    ensures SameGroup(n, rows, rows)
  {
    forall i | n <= i < 2 * n ensures InGroup(n, rows, rows[i]) { GroupGenerator(n, rows, i - n); }
  }

  lemma GeneratesTransitive(n: nat, a: Rows, b: Rows, c: Rows)
    requires Shape(n, a) && Shape(n, b) && Shape(n, c) && Generates(n, a, b) && Generates(n, b, c)
    ensures Generates(n, a, c)
  {
    forall i | n <= i < 2 * n ensures InGroup(n, a, c[i]) {
      var w :| Over(w, n) && Eval(n, b, w) == c[i];
      GeneratesWord(n, a, b, w);
    }
  }

  lemma SwapGroup(n: nat, rows: Rows, i: nat, k: nat)
    requires Shape(n, rows) && n <= i < 2 * n && n <= k < 2 * n
    ensures Shape(n, SwapPair(n, rows, i, k)) && SameGroup(n, rows, SwapPair(n, rows, i, k))
  {
    hide InGroup;
    var rows' := SwapPair(n, rows, i, k);
    forall j | n <= j < 2 * n ensures InGroup(n, rows, rows'[j]) && InGroup(n, rows', rows[j]) {
      GroupGenerator(n, rows, Swapped(n, i, k, j) - n);
      GroupGenerator(n, rows', Swapped(n, i, k, j) - n);
    }
  }

  lemma AddGroup(n: nat, rows: Rows, k: nat, i: nat)
    requires Invariant(n, rows) && n <= i < 2 * n && n <= k < 2 * n && i != k
    ensures Shape(n, AddPair(n, rows, k, i)) && SameGroup(n, rows, AddPair(n, rows, k, i))
  {
    hide InGroup, Times, Complete, Canonical;
    AddShape(n, rows, k, i);
    var rows' := AddPair(n, rows, k, i);
    forall j | n <= j < 2 * n ensures InGroup(n, rows, rows'[j]) && InGroup(n, rows', rows[j]) {
      GroupGenerator(n, rows, j - n);
      GroupGenerator(n, rows', j - n);
      if j == k {
        GroupGenerator(n, rows, i - n);
        GroupProduct(n, rows, rows[i], rows[k]);
        GroupGenerator(n, rows', i - n);
        GroupProduct(n, rows', rows[i], rows'[k]);
        CancelSquare(rows[i], rows[k], n);
      }
    }
  }
}
