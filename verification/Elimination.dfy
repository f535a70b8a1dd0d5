/** The steps of gaussian on the rows of a tableau. */
module Elimination {
  import opened Paulis
  import opened Tableaus
  import opened RowOps
  import opened Echelon

  /** The X or the Z part of a row: the two phases of gaussian differ in nothing else. */
  function Part(p: Pauli, useZ: bool): seq<bool>
  {
    if useZ then p.z else p.x
  }

  predicate HasBit(p: Pauli, c: nat, useZ: bool)
  {
    c < |Part(p, useZ)| && Part(p, useZ)[c]
  }

  /** Rows i.. have nothing in the columns before j. */
  ghost predicate Clear(n: nat, rows: Rows, i: nat, j: nat, useZ: bool)
    requires Shape(n, rows) && n <= i <= 2 * n && j <= n
  {
    forall q, c :: i <= q < 2 * n && 0 <= c < j ==> !HasBit(rows[q], c, useZ)
  }

  /** Rows lo..i-1 have strictly increasing leading columns, all before j. */
  ghost predicate Leading(n: nat, rows: Rows, lo: nat, i: nat, j: nat, useZ: bool)
    requires Shape(n, rows) && n <= lo <= i <= 2 * n && j <= n
  {
    && (forall q :: lo <= q < i ==> Lead(Part(rows[q], useZ), 0) < j)
    && (forall p, q :: lo <= p < q < i ==> Lead(Part(rows[p], useZ), 0) < Lead(Part(rows[q], useZ), 0))
  }

  /** The stabilizers before row i are as they were. */
  ghost predicate Kept(n: nat, rows: Rows, rows': Rows, i: int)
  {
    |rows| == |rows'| == 2 * n && i <= 2 * n && forall q :: n <= q < i ==> rows'[q] == rows[q]
  }

  /** Column j has a bit in row i and none in the rows after it, up to k. */
  ghost predicate Pivoted(n: nat, rows: Rows, i: nat, k: int, j: nat, useZ: bool)
  {
    |rows| == 2 * n && i < k <= 2 * n && HasBit(rows[i], j, useZ) && forall q :: i < q < k ==> !HasBit(rows[q], j, useZ)
  }

  lemma SwapClear(n: nat, rows: Rows, rows': Rows, i: nat, k: nat, j: nat, useZ: bool)
    requires Shape(n, rows) && Shape(n, rows') && n <= i <= k < 2 * n && j <= n && rows' == SwapPair(n, rows, i, k)
    requires Clear(n, rows, i, j, useZ)
    ensures Kept(n, rows, rows', i) && Clear(n, rows', i, j, useZ)
  {
    forall q, c | i <= q < 2 * n && 0 <= c < j ensures !HasBit(rows'[q], c, useZ) {
      assert rows'[q] == rows[Swapped(n, i, k, q)];
    }
  }

  lemma SwapStep(n: nat, rows: Rows, rows': Rows, i: nat, k: nat, j: nat, useZ: bool)
    requires Invariant(n, rows) && n <= i <= k < 2 * n && j <= n && rows' == SwapPair(n, rows, i, k)
    requires Clear(n, rows, i, j, useZ)
    ensures Shape(n, rows') && Invariant(n, rows') && SameGroup(n, rows, rows') && Kept(n, rows, rows', i)
    ensures Clear(n, rows', i, j, useZ)
  {
    hide Complete, Canonical, SameGroup, Shape, SwapPair, Clear;
    SwapInvariant(n, rows, i, k);
    SwapGroup(n, rows, i, k);
    SwapClear(n, rows, rows', i, k, j, useZ);
  }

  lemma AddClear(n: nat, rows: Rows, rows': Rows, i: nat, k: nat, j: nat, useZ: bool)
    requires Shape(n, rows) && Shape(n, rows') && n <= i < k < 2 * n && j <= n && rows' == AddPair(n, rows, k, i)
    requires Clear(n, rows, i, j, useZ)
    ensures Kept(n, rows, rows', k) && Clear(n, rows', i, j, useZ)
  {
    hide Times, AddPair;
    forall q, c | i <= q < 2 * n && 0 <= c < j ensures !HasBit(rows'[q], c, useZ) {
      assert !HasBit(rows[q], c, useZ) && !HasBit(rows[i], c, useZ);
    }
  }

  lemma AddStep(n: nat, rows: Rows, rows': Rows, i: nat, k: nat, j: nat, useZ: bool)
    requires Invariant(n, rows) && n <= i < k < 2 * n && j <= n && rows' == AddPair(n, rows, k, i)
    requires Clear(n, rows, i, j, useZ)
    ensures Shape(n, rows') && Invariant(n, rows') && SameGroup(n, rows, rows') && Kept(n, rows, rows', k)
    ensures Clear(n, rows', i, j, useZ)
  {
    hide Complete, Canonical, SameGroup, Shape, AddPair, Clear;
    AddInvariant(n, rows, k, i);
    AddGroup(n, rows, k, i);
    AddClear(n, rows, rows', i, k, j, useZ);
  }

  /** What holds while the rows from i on are being worked on in column j: the tableau is
      sound, its group is the one of the rows at the start, and the columns before j are
      clear; the second phase finds and leaves these rows without X part. */
  ghost predicate Working(n: nat, start: Rows, rows: Rows, i: nat, j: int, useZ: bool)
  {
    && n <= i <= 2 * n && 0 <= j <= n
    && Shape(n, start) && Invariant(n, rows) && SameGroup(n, start, rows)
    && Clear(n, rows, i, j, useZ)
    && (useZ ==> Clear(n, rows, i, n, false))
  }

  lemma WorkingShape(n: nat, start: Rows, rows: Rows, i: nat, j: nat, useZ: bool)
    requires Working(n, start, rows, i, j, useZ)
    ensures Shape(n, rows) && Invariant(n, rows) && Shape(n, start)
  {
  }

  lemma WorkingSwap(n: nat, start: Rows, rows: Rows, rows': Rows, i: nat, k: nat, j: nat, useZ: bool)
    requires Working(n, start, rows, i, j, useZ) && i <= k < 2 * n && rows' == SwapPair(n, rows, i, k)
    requires HasBit(rows[k], j, useZ)
    ensures Working(n, start, rows', i, j, useZ) && Kept(n, rows, rows', i) && Pivoted(n, rows', i, i + 1, j, useZ)
  {
    hide Complete, Canonical, Shape, Clear, SameGroup, HasBit;
    SwapStep(n, rows, rows', i, k, j, useZ);
    if useZ { SwapStep(n, rows, rows', i, k, n, false); }
    SameGroupTransitive(n, start, rows, rows');
    assert Swapped(n, i, k, i) == k;
  }

  lemma WorkingAdd(n: nat, start: Rows, rows: Rows, rows': Rows, i: nat, k: nat, j: nat, useZ: bool)
    requires Working(n, start, rows, i, j, useZ) && i < k < 2 * n && Shape(n, rows) && rows' == AddPair(n, rows, k, i)
    ensures Working(n, start, rows', i, j, useZ)
  {
    hide Invariant, AddPair, Clear, SameGroup, Shape, Kept;
    AddStep(n, rows, rows', i, k, j, useZ);
    if useZ { AddStep(n, rows, rows', i, k, n, false); }
    SameGroupTransitive(n, start, rows, rows');
  }

  /** A row that had the bit, cleared by adding the pivot row. */
  lemma AddPivots(n: nat, rows: Rows, rows': Rows, i: nat, k: nat, j: nat, useZ: bool)
    requires Shape(n, rows) && n <= i < k < 2 * n && j < n && Pivoted(n, rows, i, k, j, useZ)
    requires HasBit(rows[k], j, useZ) && rows' == AddPair(n, rows, k, i)
    ensures Kept(n, rows, rows', i + 1) && Pivoted(n, rows', i, k + 1, j, useZ)
  {
    hide AddPair, Times, Shape;
    AddClearsColumn(n, rows, rows', k, i, j, useZ);
  }

  lemma RowAdded(n: nat, start: Rows, rows: Rows, rows': Rows, i: nat, k: nat, j: nat, useZ: bool)
    requires Shape(n, rows) && n <= i < k < 2 * n && j < n && rows' == AddPair(n, rows, k, i)
    requires HasBit(rows[k], j, useZ)
    requires Pivoted(n, rows, i, k, j, useZ) && Working(n, start, rows, i, j, useZ)
    ensures Kept(n, rows, rows', i + 1) && Pivoted(n, rows', i, k + 1, j, useZ)
    ensures Working(n, start, rows', i, j, useZ)
  {
    hide AddPair, Working, Shape, HasBit, Kept, Pivoted;
    WorkingAdd(n, start, rows, rows', i, k, j, useZ);
    AddPivots(n, rows, rows', i, k, j, useZ);
  }

  /** A row that did not have it. */
  lemma RowSkipped(n: nat, rows: Rows, i: nat, k: nat, j: nat, useZ: bool)
    requires n <= i < k < 2 * n && Pivoted(n, rows, i, k, j, useZ) && !HasBit(rows[k], j, useZ)
    ensures Kept(n, rows, rows, i + 1) && Pivoted(n, rows, i, k + 1, j, useZ)
  {
  }

  lemma KeptReflexive(n: nat, rows: Rows, i: nat)
    requires |rows| == 2 * n && i <= 2 * n
    ensures Kept(n, rows, rows, i)
  {
  }

  lemma KeptTransitive(n: nat, a: Rows, b: Rows, c: Rows, i: nat, k: nat)
    requires Kept(n, a, b, i) && Kept(n, b, c, k)
    ensures Kept(n, a, c, if i < k then i else k)
  {
  }

  /** Column j is done, with row i as its pivot or without one. */
  lemma ColumnDone(n: nat, start: Rows, rows: Rows, rows': Rows, lo: nat, i: nat, i': nat, j: nat, useZ: bool)
    requires Shape(n, rows) && n <= lo <= i <= 2 * n && j < n && Leading(n, rows, lo, i, j, useZ)
    requires Working(n, start, rows', i, j, useZ) && Kept(n, rows, rows', i)
    requires if i' == i then forall q :: i <= q < 2 * n ==> !HasBit(rows'[q], j, useZ)
             else i' == i + 1 && i < 2 * n && Pivoted(n, rows', i, 2 * n, j, useZ)
    ensures Shape(n, rows') && Working(n, start, rows', i', j + 1, useZ) && Leading(n, rows', lo, i', j + 1, useZ)
    ensures useZ ==> Clear(n, rows', i, n, false)
  {
    hide Complete, Canonical, SameGroup;
    WorkingNext(n, start, rows', i, i', j, useZ);
    if i' > i {
      PivotLeads(n, rows, rows', lo, i, j, useZ);
    } else {
      forall q | lo <= q < i ensures rows'[q] == rows[q] {}
    }
  }

  /** Adding the pivot row clears the column of row k. */
  lemma AddClearsColumn(n: nat, rows: Rows, rows': Rows, k: nat, i: nat, j: nat, useZ: bool)
    requires Shape(n, rows) && n <= i < k < 2 * n && j < n && rows' == AddPair(n, rows, k, i)
    requires HasBit(rows[i], j, useZ) && HasBit(rows[k], j, useZ)
    ensures !HasBit(rows'[k], j, useZ)
  {
    hide Times, AddPair;
  }

  /** Column j is done: nothing is left in it from row i on. */
  lemma WorkingNext(n: nat, start: Rows, rows: Rows, i: nat, i': nat, j: nat, useZ: bool)
    requires Working(n, start, rows, i, j, useZ) && i <= i' <= 2 * n && j < n && Shape(n, rows)
    requires forall q :: i' <= q < 2 * n ==> !HasBit(rows[q], j, useZ)
    ensures Working(n, start, rows, i', j + 1, useZ)
  {
    hide Complete, Canonical, SameGroup;
  }

  /** The new pivot row leads at column j, after all the earlier ones. */
  lemma PivotLeads(n: nat, rows: Rows, rows': Rows, lo: nat, i: nat, j: nat, useZ: bool)
    requires Shape(n, rows) && Shape(n, rows') && n <= lo <= i < 2 * n && j < n
    requires Leading(n, rows, lo, i, j, useZ) && Kept(n, rows, rows', i)
    requires HasBit(rows'[i], j, useZ) && Clear(n, rows', i, j, useZ)
    ensures Leading(n, rows', lo, i + 1, j + 1, useZ)
  {
    forall c | 0 <= c < j ensures !Part(rows'[i], useZ)[c] { assert !HasBit(rows'[i], c, useZ); }
    LeadIs(Part(rows'[i], useZ), j);
    forall q | lo <= q < i
      ensures Lead(Part(rows'[q], useZ), 0) < j && Lead(Part(rows'[q], useZ), 0) == Lead(Part(rows[q], useZ), 0)
    {
      assert rows[q] == rows'[q];
    }
  }

  lemma SameGroupTransitive(n: nat, a: Rows, b: Rows, c: Rows)
    requires Shape(n, a) && Shape(n, b) && Shape(n, c) && SameGroup(n, a, b) && SameGroup(n, b, c)
    ensures SameGroup(n, a, c)
  {
    hide Generates;
    GeneratesTransitive(n, a, b, c);
    GeneratesTransitive(n, c, b, a);
  }

  lemma StartX(n: nat, start: Rows)
    requires Invariant(n, start)
    ensures Leading(n, start, n, n, 0, false) && Working(n, start, start, n, 0, false)
  {
    hide Complete, Canonical, SameGroup;
    SameGroupReflexive(n, start);
  }

  /** Between the phases: the rows that are left have no X part. */
  lemma StartZ(n: nat, start: Rows, rows: Rows, i: nat)
    requires Shape(n, rows) && Working(n, start, rows, i, n, false)
    ensures n <= i <= 2 * n && Clear(n, rows, i, n, false)
    ensures Leading(n, rows, i, i, 0, true) && Working(n, start, rows, i, 0, true)
  {
    hide Complete, Canonical, SameGroup;
  }

  /** The second phase keeps what the first one reached. */
  lemma FirstPhaseKept(n: nat, rows: Rows, rows': Rows, lo: nat, i: nat)
    requires Shape(n, rows) && Shape(n, rows') && n <= lo <= i <= 2 * n && Kept(n, rows, rows', i)
    requires Leading(n, rows, n, lo, n, false) && Clear(n, rows, lo, n, false) && Clear(n, rows', i, n, false)
    ensures Leading(n, rows', n, lo, n, false) && Clear(n, rows', lo, n, false)
  {
    forall q, c | lo <= q < 2 * n && 0 <= c < n ensures !HasBit(rows'[q], c, false) {
      if q < i { assert rows'[q] == rows[q]; }
    }
    forall q | n <= q < lo ensures rows'[q] == rows[q] {}
  }

  lemma EmptyCommutes(p: Pauli, q: Pauli, n: nat)
    requires Fits(p, n) && Fits(q, n) && forall c :: 0 <= c < n ==> !p.x[c] && !p.z[c]
    ensures !Symp(p, q, n)
  {
    Sums.XorAllFalse(SympTerms(p, q, n));
  }

  /** A row without bits commutes with everything, so the second phase uses up all rows. */
  lemma NoEmptyRow(n: nat, rows: Rows, i: nat)
    requires Invariant(n, rows) && n <= i < 2 * n
    ensures exists c :: 0 <= c < n && (HasBit(rows[i], c, false) || HasBit(rows[i], c, true))
  {
    hide Complete, Canonical, Symp;
    if forall c :: 0 <= c < n ==> !HasBit(rows[i], c, false) && !HasBit(rows[i], c, true) {
      assert forall c :: 0 <= c < n ==> rows[i].x[c] == HasBit(rows[i], c, false) && rows[i].z[c] == HasBit(rows[i], c, true);
      CanonicalAt(n, rows, i, i - n);
      EmptyCommutes(rows[i], rows[i - n], n);
    }
  }

  lemma FormReached(n: nat, rows: Rows, g: nat, i: nat)
    requires Invariant(n, rows) && g <= n && n + g <= i <= 2 * n
    requires Leading(n, rows, n, n + g, n, false) && Clear(n, rows, n + g, n, false)
    requires Leading(n, rows, n + g, i, n, true) && Clear(n, rows, i, n, true)
    ensures i == 2 * n && GaussianForm(n, rows, g)
  {
    hide Symp, Complete, Canonical;
    if i < 2 * n {
      NoEmptyRow(n, rows, i);
    }
    forall q, c | n + g <= q < 2 * n && 0 <= c < n ensures !rows[q].x[c] { assert !HasBit(rows[q], c, false); }
    assert XForm(n, rows, g) by {
      assert forall q :: n <= q < n + g ==> Part(rows[q], false) == rows[q].x;
    }
    assert ZForm(n, rows, g, 2 * n) by {
      assert forall q :: n + g <= q < 2 * n ==> Part(rows[q], false) == rows[q].x && Part(rows[q], true) == rows[q].z;
    }
  }

  lemma EliminationDone(n: nat, start: Rows, rows: Rows, lo: nat, i: nat)
    requires Shape(n, rows) && n <= lo <= i <= 2 * n
    requires Leading(n, rows, n, lo, n, false) && Clear(n, rows, lo, n, false)
    requires Leading(n, rows, lo, i, n, true)
    requires Working(n, start, rows, i, n, true)
    ensures Invariant(n, rows) && SameGroup(n, start, rows) && GaussianForm(n, rows, lo - n)
  {
    hide Complete, Canonical, SameGroup, Leading;
    FormReached(n, rows, lo - n, i);
  }
}
