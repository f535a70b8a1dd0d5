/** The simulator's state as the source keeps it: two matrices of packed words and an
    array of phases, updated in place (state/chp_state.hpp). */
module ChpStates {
  import opened Sums
  import opened Utility
  import opened Words
  import opened Paulis
  import opened Gates
  import opened Tableaus
  import opened Measurement
  import opened Programs
  import opened Buffers
  import opened RowOps
  import opened Echelon
  import opened Elimination
  import opened Supports
  import opened Ranks
  import M = Machine

  /** C++ % on signed integers: the sign of the result is that of the dividend. */
  function TruncatedMod(a: int, m: int): int
    requires m > 0
  {
    if a >= 0 then a % m else -(-a % m)
  }

  /** Row i of a matrix of words. */
  ghost function MatrixRow(m: array2<Word>, i: nat): (ws: seq<Word>)
    reads m
    requires i < m.Length0
    ensures |ws| == m.Length1
    ensures forall j :: 0 <= j < m.Length1 ==> ws[j] == m[i, j]
  {
    seq<Word>(m.Length1, j reads m requires 0 <= j < m.Length1 && i < m.Length0 => m[i, j])
  }

  class ChpState {
    var n: nat
    var x: array2<Word>
    var z: array2<Word>
    var r: array<int>
    var over32: nat

    constructor ()
      ensures Valid() && n == 0 && over32 == 0 && Rows() == []
      ensures fresh(x) && fresh(z) && fresh(r)
    {
      n, over32 := 0, 0;
      x := new Word[0, 0];
      z := new Word[0, 0];
      r := new int[0];
    }

    // -------------------------------------------------------------- abstraction

    ghost function XRow(i: nat): (ws: seq<Word>)
      reads this, x
      requires i < x.Length0
      ensures |ws| == x.Length1
    {
      MatrixRow(x, i)
    }

    ghost function ZRow(i: nat): (ws: seq<Word>)
      reads this, z
      requires i < z.Length0
      ensures |ws| == z.Length1
    {
      MatrixRow(z, i)
    }

    /** The arrays of an initialised state; before init there are none. */
    ghost predicate Sized()
      reads this
    {
      && x != z
      && (if over32 == 0 then n == 0 else over32 == n / 32 + 1)
      && x.Length0 == z.Length0 == r.Length == (if over32 == 0 then 0 else 2 * n + 1)
      && x.Length1 == z.Length1 == over32
    }

    ghost predicate RowValid(i: nat)
      reads this, x, z, r
      requires Sized() && i < x.Length0
    {
      && AllExtended(XRow(i)) && AllExtended(ZRow(i))
      && (i < 2 * n ==> Packed(XRow(i), n) && Packed(ZRow(i), n) && 0 <= r[i] < 4)
    }

    /** Every word is the sign extension of its low half, and the tableau rows are empty
        in columns n and above. Nothing is said about the scratch row's contents. */
    ghost predicate Valid()
      reads this, x, z, r
    {
      Sized() && forall i :: 0 <= i < x.Length0 ==> RowValid(i)
    }

    /** Row i as a Pauli operator; row 2n is the scratch row. */
    ghost function Row(i: nat): (p: Pauli)
      reads this, x, z, r
      requires Sized() && i < x.Length0
      ensures |p.x| == n && |p.z| == n && p.r == r[i]
    {
      Pauli(Unpacked(XRow(i), n), Unpacked(ZRow(i), n), r[i])
    }

    /** The tableau: destabilizers 0..n-1 and stabilizers n..2n-1. */
    ghost function Rows(): (rows: seq<Pauli>)
      reads this, x, z, r
      requires Valid()
      ensures |rows| == 2 * n
      ensures forall i :: 0 <= i < 2 * n ==> rows[i] == Row(i) && Fits(rows[i], n)
    {
      FirstRows(2 * n)
    }

    ghost function FirstRows(k: nat): (rows: seq<Pauli>)
      reads this, x, z, r
      requires Valid() && k <= 2 * n
      ensures |rows| == k
      ensures forall i :: 0 <= i < k ==> rows[i] == Row(i) && Fits(rows[i], n)
    {
      if k == 0 then [] else
        assert RowValid(k - 1);
        FirstRows(k - 1) + [Row(k - 1)]
    }

    predicate XBit(i: nat, c: nat)
      reads this, x, z, r
      requires Valid() && i < x.Length0 && c < n
      ensures XBit(i, c) == Row(i).x[c]
    {
      assert RowValid(i) && XRow(i)[c / 32] == x[i, c / 32];
      BitTest(x[i, c / 32], c % 32);
      Bit(x[i, c / 32], c % 32)
    }

    predicate ZBit(i: nat, c: nat)
      reads this, x, z, r
      requires Valid() && i < x.Length0 && c < n
      ensures ZBit(i, c) == Row(i).z[c]
    {
      assert RowValid(i) && ZRow(i)[c / 32] == z[i, c / 32];
      BitTest(z[i, c / 32], c % 32);
      Bit(z[i, c / 32], c % 32)
    }

    /** Every row but i is untouched. */
    twostate predicate OtherRowsKept(i: nat)
      reads this, x, z, r
      requires old(Sized()) && Sized() && x.Length0 == old(x.Length0)
    {
      forall k :: 0 <= k < x.Length0 && k != i ==>
        XRow(k) == old(XRow(k)) && ZRow(k) == old(ZRow(k)) && r[k] == old(r[k])
    }

    twostate lemma OneRowChanged(i: nat)
      requires old(Valid()) && unchanged(this) && i < x.Length0
      requires OtherRowsKept(i) && RowValid(i)
      ensures Valid()
      ensures forall k :: 0 <= k < x.Length0 && k != i ==> Row(k) == old(Row(k))
    {
      forall k | 0 <= k < x.Length0 && k != i ensures RowValid(k) {
        assert old(RowValid(k));
      }
    }

    // -------------------------------------------------------------- gates

    method FlipX(i: nat, c: nat)
      requires Valid() && i < x.Length0 && c < n && Packed(XRow(i), n)
      modifies x
      ensures Valid() && OtherRowsKept(i) && Packed(XRow(i), n)
      ensures Row(i) == old(Row(i)).(x := old(Row(i)).x[c := !old(Row(i)).x[c]])
    {
      assert RowValid(i);
      x[i, c / 32] := ExclusiveOr(x[i, c / 32], Pt(c % 32));
      FlipColumn(old(XRow(i)), c, n);
      assert XRow(i) == old(XRow(i))[c / 32 := x[i, c / 32]];
      assert ZRow(i) == old(ZRow(i));
      OneRowChanged(i);
    }

    method FlipZ(i: nat, c: nat)
      requires Valid() && i < 2 * n && c < n
      modifies z
      ensures Valid() && OtherRowsKept(i)
      ensures Row(i) == old(Row(i)).(z := old(Row(i)).z[c := !old(Row(i)).z[c]])
    {
      assert RowValid(i);
      z[i, c / 32] := ExclusiveOr(z[i, c / 32], Pt(c % 32));
      FlipColumn(old(ZRow(i)), c, n);
      assert ZRow(i) == old(ZRow(i))[c / 32 := z[i, c / 32]];
      assert XRow(i) == old(XRow(i));
      OneRowChanged(i);
    }

    method FlipPhase(i: nat)
      requires Valid() && i < 2 * n
      modifies r
      ensures Valid() && OtherRowsKept(i)
      ensures Row(i) == old(Row(i)).(r := (old(r[i]) + 2) % 4)
    {
      assert RowValid(i);
      r[i] := (r[i] + 2) % 4;
      assert XRow(i) == old(XRow(i)) && ZRow(i) == old(ZRow(i));
      OneRowChanged(i);
    }

    method CnotBits(i: nat, control: nat, target: nat)
      requires Valid() && i < 2 * n && control < n && target < n
      modifies x, z
      ensures Valid() && OtherRowsKept(i)
      ensures Fits(old(Row(i)), n)
      ensures Row(i) == CnotRow(old(Row(i)), control, target, n).(r := old(r[i]))
    {
      assert RowValid(i);
      if XBit(i, control) {
        FlipX(i, target);
      }
      if ZBit(i, target) {
        FlipZ(i, control);
      }
    }

    method CnotPhase(i: nat, control: nat, target: nat)
      requires Valid() && i < 2 * n && control < n && target < n
      modifies r
      ensures Valid() && OtherRowsKept(i)
      ensures Row(i) == old(Row(i)).(r := r[i])
      ensures r[i] ==
        if old(XBit(i, control) && ZBit(i, target) && XBit(i, target) == ZBit(i, control)) then (old(r[i]) + 2) % 4
        else old(r[i])
    {
      if XBit(i, control) && ZBit(i, target) && XBit(i, target) && ZBit(i, control) {
        FlipPhase(i);
      }
      if XBit(i, control) && ZBit(i, target) && !XBit(i, target) && !ZBit(i, control) {
        FlipPhase(i);
      }
    }

    method CnotAt(i: nat, control: nat, target: nat)
      requires Valid() && i < 2 * n && control < n && target < n
      modifies x, z, r
      ensures Valid() && OtherRowsKept(i)
      ensures Fits(old(Row(i)), n) && Row(i) == CnotRow(old(Row(i)), control, target, n)
    {
      hide Unpacked, Pt, ExclusiveOr, RowValid;
      assert RowValid(i);
      CnotBits(i, control, target);
      CnotPhase(i, control, target);
    }

    method Cnot(control: nat, target: nat)
      requires Valid() && control < n && target < n
      modifies x, z, r
      ensures Valid()
      ensures forall k :: 0 <= k < 2 * n ==> Row(k) == CnotRow(old(Rows()[k]), control, target, n)
    {
      for i := 0 to 2 * n
        invariant Valid()
        invariant forall k :: 0 <= k < i ==> Row(k) == CnotRow(old(Rows()[k]), control, target, n)
        invariant forall k :: i <= k < 2 * n ==> Row(k) == old(Rows()[k])
      {
        CnotAt(i, control, target);
      }
    }

    method HadamardAt(i: nat, qubit: nat)
      requires Valid() && i < 2 * n && qubit < n
      modifies x, z, r
      ensures Valid() && OtherRowsKept(i)
      ensures Fits(old(Row(i)), n) && Row(i) == HadamardRow(old(Row(i)), qubit, n)
    {
      hide Pt, And, ExclusiveOr, Unpacked;
      assert RowValid(i);
      var w, m := qubit / 32, Pt(qubit % 32);
      var tmp := x[i, w];
      x[i, w] := ExclusiveOr(x[i, w], And(ExclusiveOr(x[i, w], z[i, w]), m));
      z[i, w] := ExclusiveOr(z[i, w], And(ExclusiveOr(z[i, w], tmp), m));
      CopyColumn(old(XRow(i)), old(ZRow(i)), qubit, n);
      CopyColumn(old(ZRow(i)), old(XRow(i)), qubit, n);
      assert XRow(i) == old(XRow(i))[w := x[i, w]];
      assert ZRow(i) == old(ZRow(i))[w := z[i, w]];
      OneRowChanged(i);
      if XBit(i, qubit) && ZBit(i, qubit) {
        FlipPhase(i);
      }
    }

    method Hadamard(qubit: nat)
      requires Valid() && qubit < n
      modifies x, z, r
      ensures Valid()
      ensures forall k :: 0 <= k < 2 * n ==> Row(k) == HadamardRow(old(Rows()[k]), qubit, n)
    {
      for i := 0 to 2 * n
        invariant Valid()
        invariant forall k :: 0 <= k < i ==> Row(k) == HadamardRow(old(Rows()[k]), qubit, n)
        invariant forall k :: i <= k < 2 * n ==> Row(k) == old(Rows()[k])
      {
        HadamardAt(i, qubit);
      }
    }

    method PhaseAt(i: nat, qubit: nat)
      requires Valid() && i < 2 * n && qubit < n
      modifies z, r
      ensures Valid() && OtherRowsKept(i)
      ensures Fits(old(Row(i)), n) && Row(i) == PhaseRow(old(Row(i)), qubit, n)
    {
      hide Pt, And, ExclusiveOr, Unpacked;
      assert RowValid(i);
      if XBit(i, qubit) && ZBit(i, qubit) {
        FlipPhase(i);
      }
      var w := qubit / 32;
      z[i, w] := ExclusiveOr(z[i, w], And(x[i, w], Pt(qubit % 32)));
      AddColumn(old(ZRow(i)), old(XRow(i)), qubit, n);
      assert ZRow(i) == old(ZRow(i))[w := z[i, w]];
      assert XRow(i) == old(XRow(i));
      OneRowChanged(i);
    }

    method Phase(qubit: nat)
      requires Valid() && qubit < n
      modifies z, r
      ensures Valid()
      ensures forall k :: 0 <= k < 2 * n ==> Row(k) == PhaseRow(old(Rows()[k]), qubit, n)
    {
      for i := 0 to 2 * n
        invariant Valid()
        invariant forall k :: 0 <= k < i ==> Row(k) == PhaseRow(old(Rows()[k]), qubit, n)
        invariant forall k :: i <= k < 2 * n ==> Row(k) == old(Rows()[k])
      {
        PhaseAt(i, qubit);
      }
    }

    // -------------------------------------------------------------- rows

    method CopyWords(to: nat, from: nat)
      requires Sized() && to < x.Length0 && from < x.Length0
      modifies x, z
      ensures OtherRowsKept(to)
      ensures XRow(to) == old(XRow(from)) && ZRow(to) == old(ZRow(from))
    {
      for i := 0 to over32
        invariant OtherRowsKept(to)
        invariant forall j :: 0 <= j < i ==> x[to, j] == old(x[from, j]) && z[to, j] == old(z[from, j])
        invariant forall j :: i <= j < over32 ==> x[to, j] == old(x[to, j]) && z[to, j] == old(z[to, j])
      {
        assert to != from ==> XRow(from)[i] == old(XRow(from))[i] && ZRow(from)[i] == old(ZRow(from))[i];
        x[to, i] := x[from, i];
        z[to, i] := z[from, i];
        assert forall k :: 0 <= k < x.Length0 && k != to ==> XRow(k) == old(XRow(k)) && ZRow(k) == old(ZRow(k));
      }
    }

    method RowCopy(to: nat, from: nat)
      requires Valid() && to < x.Length0 && from < x.Length0
      requires from == 2 * n ==> to == 2 * n || (Packed(XRow(from), n) && Packed(ZRow(from), n) && 0 <= r[from] < 4)
      modifies x, z, r
      ensures Valid() && OtherRowsKept(to)
      ensures XRow(to) == old(XRow(from)) && ZRow(to) == old(ZRow(from)) && r[to] == old(r[from])
      ensures Row(to) == old(Row(from))
    {
      hide Unpacked, Extended;
      assert RowValid(from) && RowValid(to);
      CopyWords(to, from);
      r[to] := r[from];
      OneRowChanged(to);
    }

    method RowSwap(a: nat, b: nat)
      requires Valid() && a < 2 * n && b < 2 * n
      modifies x, z, r
      ensures Valid()
      ensures Row(a) == old(Row(b)) && Row(b) == old(Row(a))
      ensures forall k :: 0 <= k < 2 * n && k != a && k != b ==> Row(k) == old(Row(k))
    {
      assert RowValid(a) && RowValid(b);
      RowCopy(2 * n, b);
      RowCopy(b, a);
      RowCopy(a, 2 * n);
    }

    /** The loop that wipes a row clean, in rowset and in seed. */
    method ClearRow(row: nat)
      requires Valid() && row < x.Length0
      modifies x, z, r
      ensures Valid() && OtherRowsKept(row)
      ensures Row(row) == Identity(n) && Packed(XRow(row), n) && Packed(ZRow(row), n)
      ensures forall j :: 0 <= j < over32 ==> x[row, j] == z[row, j] == NO_BITS
    {
      for j := 0 to over32
        invariant OtherRowsKept(row)
        invariant forall l :: 0 <= l < j ==> x[row, l] == z[row, l] == NO_BITS
      {
        x[row, j] := NO_BITS;
        z[row, j] := NO_BITS;
        assert forall k :: 0 <= k < x.Length0 && k != row ==> XRow(k) == old(XRow(k)) && ZRow(k) == old(ZRow(k));
      }
      r[row] := 0;
      UnitRow(XRow(row), 0, false);
      UnitRow(ZRow(row), 0, false);
      OneRowChanged(row);
    }

    /** Observables 0..n-1 are X_0.., n..2n-1 are Z_0... */
    method RowSet(row: nat, observable: nat)
      requires Valid() && row < 2 * n && observable < 2 * n
      modifies x, z, r
      ensures Valid() && OtherRowsKept(row)
      ensures Row(row) == if observable < n then UnitX(n, observable, 0) else UnitZ(n, observable - n, 0)
    {
      hide Pt, Unpacked;
      ClearRow(row);
      label cleared:
      if observable < n {
        x[row, observable / 32] := Pt(observable % 32);
        UnitRow(XRow(row), observable, true);
        UnpackedUnit(XRow(row), observable, n);
        assert ZRow(row) == old@cleared(ZRow(row));
      } else {
        var c := observable - n;
        z[row, c / 32] := Pt(c % 32);
        UnitRow(ZRow(row), c, true);
        UnpackedUnit(ZRow(row), c, n);
        assert XRow(row) == old@cleared(XRow(row));
      }
      assert forall k :: 0 <= k < x.Length0 && k != row ==>
        XRow(k) == old@cleared(XRow(k)) && ZRow(k) == old@cleared(ZRow(k));
      OneRowChanged@cleared(row);
    }

    /** The bits that the mask tests see, padding columns included. */
    lemma RowBits(a: nat, i: nat, j: nat)
      requires Valid() && a < x.Length0 && i < over32 && j < 32
      ensures Bit(x[a, i], j) == Column(XRow(a), 32 * i + j) && Bit(z[a, i], j) == Column(ZRow(a), 32 * i + j)
      ensures a < 2 * n && 32 * i + j >= n ==> !Bit(x[a, i], j) && !Bit(z[a, i], j)
    {
      assert RowValid(a);
      assert (32 * i + j) / 32 == i && (32 * i + j) % 32 == j;
      assert XRow(a)[i] == x[a, i] && ZRow(a)[i] == z[a, i];
      BitTest(x[a, i], j);
      BitTest(z[a, i], j);
    }

    /** What the clifford loop has added up after c columns. */
    ghost function Counted(a: nat, b: nat, c: nat): int
      reads this, x, z, r
      requires Valid() && a < x.Length0 && b < 2 * n && 0 <= r[a] < 4
    {
      assert RowValid(b);
      Sum(CliffordTerms(Row(a), Row(b), n)[..if c < n then c else n])
    }

    lemma CountedColumn(a: nat, b: nat, i: nat, j: nat)
      requires Valid() && a < x.Length0 && b < 2 * n && 0 <= r[a] < 4 && i < over32 && j < 32
      ensures Counted(a, b, 32 * i + j + 1) == Counted(a, b, 32 * i + j)
        + CliffordTerm(Bit(x[a, i], j), Bit(z[a, i], j), Bit(x[b, i], j), Bit(z[b, i], j))
    {
      hide Bit, Column, Sum;
      assert RowValid(b);
      RowBits(a, i, j);
      RowBits(b, i, j);
      if 32 * i + j < n { SumPrefix(CliffordTerms(Row(a), Row(b), n), 32 * i + j + 1); }
    }

    lemma CountedAll(a: nat, b: nat)
      requires Valid() && a < x.Length0 && b < 2 * n && 0 <= r[a] < 4
      ensures Fits(Row(a), n) && Fits(Row(b), n)
      ensures Counted(a, b, 0) == 0 && Counted(a, b, 32 * over32) == Sum(CliffordTerms(Row(a), Row(b), n))
    {
      assert RowValid(b);
      var terms := CliffordTerms(Row(a), Row(b), n);
      assert terms[..n] == terms;
    }

    /** The phase of row b times row a: a tableau row b has no bits in the padding, so
        the loop over whole words adds nothing there. */
    method Clifford(a: nat, b: nat) returns (phase: int)
      requires Valid() && a < x.Length0 && b < 2 * n && 0 <= r[a] < 4
      ensures Fits(Row(a), n) && Fits(Row(b), n)
      ensures phase == Times(Row(b), Row(a), n).r
    {
      hide Counted, Row, RowValid, Bit, CliffordTerm, Times, Sum, TruncatedMod;
      CountedAll(a, b);
      var e := 0;
      for i := 0 to over32
        invariant e == Counted(a, b, 32 * i)
      {
        for j := 0 to 32
          invariant e == Counted(a, b, 32 * i + j)
        {
          CountedColumn(a, b, i, j);
          var d := CliffordColumn(Bit(x[a, i], j), Bit(z[a, i], j), Bit(x[b, i], j), Bit(z[b, i], j));
          e := e + d;
        }
      }
      ProductPhase(Row(b), Row(a), n);
      TruncatedRemainder(e + r[a] + r[b]);
      e := TruncatedMod(e + r[a] + r[b], 4);
      phase := if e >= 0 then e else e + 4;
    }

    /** One column of the loop in clifford. */
    static method CliffordColumn(xa: bool, za: bool, xb: bool, zb: bool) returns (e: int)
      ensures e == CliffordTerm(xa, za, xb, zb)
    {
      e := 0;
      if xb && !zb {
        if xa && za { e := e + 1; }   // XY = iZ
        if !xa && za { e := e - 1; }  // XZ = -iY
      }
      if xb && zb {
        if !xa && za { e := e + 1; }  // YZ = iX
        if xa && !za { e := e - 1; }  // YX = -iZ
      }
      if !xb && zb {
        if xa && !za { e := e + 1; }  // ZX = iY
        if xa && za { e := e - 1; }   // ZY = -iX
      }
    }

    /** The word loop of rowmult. */
    method AddRow(a: nat, b: nat)
      requires Valid() && a < x.Length0 && b < 2 * n
      modifies x, z
      ensures Valid() && OtherRowsKept(a)
      ensures Row(a).x == XorBits(old(Row(a)).x, old(Row(b)).x)
      ensures Row(a).z == XorBits(old(Row(a)).z, old(Row(b)).z)
    {
      hide ExclusiveOr, Extended, Unpacked;
      assert RowValid(a) && RowValid(b);
      for i := 0 to over32
        invariant OtherRowsKept(a)
        invariant forall j :: 0 <= j < i ==>
          x[a, j] == ExclusiveOr(old(x[a, j]), old(x[b, j])) && z[a, j] == ExclusiveOr(old(z[a, j]), old(z[b, j]))
        invariant forall j :: i <= j < over32 ==> x[a, j] == old(x[a, j]) && z[a, j] == old(z[a, j])
      {
        assert a != b ==> XRow(b)[i] == old(XRow(b))[i] && ZRow(b)[i] == old(ZRow(b))[i];
        x[a, i] := ExclusiveOr(x[a, i], x[b, i]);
        z[a, i] := ExclusiveOr(z[a, i], z[b, i]);
        assert forall k :: 0 <= k < x.Length0 && k != a ==> XRow(k) == old(XRow(k)) && ZRow(k) == old(ZRow(k));
      }
      XorRows(XRow(a), old(XRow(a)), old(XRow(b)));
      XorRows(ZRow(a), old(ZRow(a)), old(ZRow(b)));
      OneRowChanged(a);
    }

    /** Row a becomes row b times row a. */
    method RowMult(a: nat, b: nat)
      requires Valid() && a < x.Length0 && b < 2 * n && a != b && 0 <= r[a] < 4
      modifies x, z, r
      ensures Valid() && OtherRowsKept(a)
      ensures Fits(old(Row(a)), n) && Fits(old(Row(b)), n)
      ensures Row(a) == Times(old(Row(b)), old(Row(a)), n)
    {
      assert RowValid(a) && RowValid(b);
      var phase := Clifford(a, b);
      r[a] := phase;
      assert XRow(a) == old(XRow(a)) && ZRow(a) == old(ZRow(a));
      OneRowChanged(a);
      AddRow(a, b);
    }

    // -------------------------------------------------------------- measurement

    /** Only the scratch row has changed. */
    twostate lemma ScratchChanged()
      requires old(Valid()) && Valid() && unchanged(this) && OtherRowsKept(2 * n)
      ensures Rows() == old(Rows())
    {
      forall k | 0 <= k < 2 * n ensures Row(k) == old(Row(k)) {
        assert XRow(k) == old(XRow(k)) && ZRow(k) == old(ZRow(k));
      }
    }

    /** One step of the row loop of the random branch. */
    method ClearColumnAt(i: nat, qubit: nat, p: nat)
      requires Valid() && i < 2 * n && qubit < n && p < 2 * n
      modifies x, z, r
      ensures Valid() && OtherRowsKept(i)
      ensures Row(i) ==
        if i != p then Cleared(old(Rows()[i]), old(Rows()[p]), qubit, n) else old(Rows()[i])
    {
      assert RowValid(i) && RowValid(p);
      if i != p && XBit(i, qubit) {
        RowMult(i, p);
      }
    }

    method ClearColumn(qubit: nat, p: nat)
      requires Valid() && qubit < n && p < 2 * n
      modifies x, z, r
      ensures Valid()
      ensures forall k :: 0 <= k < 2 * n ==>
        Row(k) == (if k != p then Cleared(old(Rows()[k]), old(Rows()[p]), qubit, n) else old(Rows()[k]))
    {
      hide Cleared, RowValid;
      for i := 0 to 2 * n
        invariant Valid() && Row(p) == old(Rows()[p])
        invariant forall k :: 0 <= k < i ==>
          Row(k) == (if k != p then Cleared(old(Rows()[k]), old(Rows()[p]), qubit, n) else old(Rows()[k]))
        invariant forall k :: i <= k < 2 * n ==> Row(k) == old(Rows()[k])
      {
        ClearColumnAt(i, qubit, p);
      }
    }

    method SetPhase(i: nat, phase: int)
      requires Valid() && i < x.Length0 && 0 <= phase < 4
      modifies r
      ensures Valid() && OtherRowsKept(i) && Row(i) == old(Row(i)).(r := phase)
    {
      assert RowValid(i);
      r[i] := phase;
      assert forall k :: 0 <= k < x.Length0 ==> XRow(k) == old(XRow(k)) && ZRow(k) == old(ZRow(k));
      OneRowChanged(i);
    }

    /** Pivot and Z_b put in place. */
    method SetPivot(qubit: nat, p: nat, coin: bool)
      requires Valid() && qubit < n && p < n
      modifies x, z, r
      ensures Valid()
      ensures Rows() == old(Rows())[p := old(Rows())[p + n]][p + n := UnitZ(n, qubit, OutcomePhase(coin))]
    {
      hide Unpacked, Extended;
      RowCopy(p, p + n);
      RowSet(p + n, qubit + n);
      SetPhase(p + n, OutcomePhase(coin));
    }

    method MeasureRandom(qubit: nat, p: nat, coin: bool)
      requires Valid() && Shape(n, Rows()) && qubit < n && p < n
      modifies x, z, r
      ensures Valid() && Rows() == RandomRows(n, old(Rows()), qubit, p, coin)
    {
      hide RowValid, Row, Times;
      SetPivot(qubit, p, coin);
      ClearColumn(qubit, p);
    }

    method AccumulateAt(i: nat, qubit: nat)
      requires Valid() && i < n && qubit < n && 0 <= r[2 * n] < 4
      modifies x, z, r
      ensures Valid() && Rows() == old(Rows()) && 0 <= r[2 * n] < 4
      ensures Row(2 * n) ==
        if old(Rows())[i].x[qubit] then Times(old(Rows())[i + n], old(Row(2 * n)), n) else old(Row(2 * n))
    {
      hide Times, Row, RowValid;
      if XBit(i, qubit) {
        RowMult(2 * n, i + n);
        ScratchChanged();
      }
    }

    /** Accumulates the stabilizers that make up Z_b in the scratch row. */
    method Accumulate(qubit: nat, m: nat)
      requires Valid() && Shape(n, Rows()) && qubit < n && m < n
      modifies x, z, r
      ensures Valid() && Rows() == old(Rows())
      ensures Row(2 * n) == Accumulated(n, old(Rows()), qubit, m, n)
    {
      hide Times, RowValid, Row, Accumulated, Shape;
      ghost var rows := Rows();
      AccumulatedStep(n, rows, qubit, m, m + 1);
      CopyToScratch(m + n);
      for i := m + 1 to n
        invariant Valid() && Rows() == rows && 0 <= r[2 * n] < 4
        invariant Row(2 * n) == Accumulated(n, rows, qubit, m, i)
      {
        AccumulatedStep(n, rows, qubit, m, i);
        AccumulateAt(i, qubit);
      }
    }

    method CopyToScratch(from: nat)
      requires Valid() && from < 2 * n
      modifies x, z, r
      ensures Valid() && Rows() == old(Rows()) && 0 <= r[2 * n] < 4
      ensures Row(2 * n) == Rows()[from]
    {
      assert RowValid(from);
      RowCopy(2 * n, from);
      ScratchChanged();
    }

    method FindStabilizer(qubit: nat) returns (p: nat)
      requires Valid() && Shape(n, Rows()) && qubit < n
      ensures p + n == FindX(Rows(), qubit, n, n, 2 * n)
    {
      p := 0;
      while p < n
        invariant p <= n && forall i :: n <= i < p + n ==> !Rows()[i].x[qubit]
      {
        if XBit(p + n, qubit) {
          break;
        }
        p := p + 1;
      }
      FindXIs(Rows(), qubit, n, n, 2 * n, p + n);
    }

    method FindDestabilizer(qubit: nat) returns (m: nat)
      requires Valid() && Shape(n, Rows()) && qubit < n
      ensures m == FindX(Rows(), qubit, n, 0, n)
    {
      m := 0;
      while m < n
        invariant m <= n && forall i :: 0 <= i < m ==> !Rows()[i].x[qubit]
      {
        if XBit(m, qubit) {
          break;
        }
        m := m + 1;
      }
      FindXIs(Rows(), qubit, n, 0, n, m);
    }

    method MeasureDeterministic(qubit: nat) returns (outcome: nat)
      requires Valid() && Invariant(n, Rows()) && qubit < n && NoStabilizerX(n, Rows(), qubit)
      modifies x, z, r
      ensures Valid() && Rows() == old(Rows())
      ensures FindX(old(Rows()), qubit, n, 0, n) < n
      ensures var a := Accumulated(n, old(Rows()), qubit, FindX(old(Rows()), qubit, n, 0, n), n);
              outcome == (if a.r != 0 then 1 else 0) && Row(2 * n) == a
    {
      hide Complete, Canonical, RowValid, Accumulated, Row;
      ghost var rows := Rows();
      PivotExists(n, rows, qubit);
      var m := FindDestabilizer(qubit);
      Accumulate(qubit, m);
      outcome := if r[2 * n] != 0 then 1 else 0;
    }

    /** Measures a qubit; coin is the bit that the generator would deliver. The result
        does not depend on what the scratch row held. */
    method Measure(qubit: nat, coin: bool) returns (outcome: nat, drew: bool)
      requires Valid() && Invariant(n, Rows()) && qubit < n
      modifies x, z, r
      ensures Valid()
      ensures var m := Measurement.Measure(n, old(Rows()), qubit, coin);
              Rows() == m.rows && outcome == (if m.outcome then 1 else 0) && drew == m.drew
      ensures !drew ==> Row(2 * n) == UnitZ(n, qubit, 2 * outcome)
    {
      hide Complete, Canonical, UnitZ, RowValid, Accumulated, Row, RandomRows, Measurement.Measure, Rows, FindX;
      MeasureBranches(n, Rows(), qubit, coin);
      var p := FindStabilizer(qubit);
      drew := p < n;
      if drew {
        MeasureRandom(qubit, p, coin);
        assert Rows()[p + n] == Row(p + n);
        outcome := if r[p + n] != 0 then 1 else 0;
      } else {
        outcome := MeasureDeterministic(qubit);
      }
    }

    // -------------------------------------------------------------- programs

    /** memset: two matrices of zero words, phases 0 in the tableau rows only. */
    method Allocate(qubits: nat)
      modifies this
      ensures Sized() && n == qubits && over32 == n / 32 + 1
      ensures fresh(x) && fresh(z) && fresh(r)
      ensures forall i, j :: 0 <= i < 2 * n + 1 && 0 <= j < over32 ==> x[i, j] == z[i, j] == NO_BITS
      ensures forall i :: 0 <= i < 2 * n ==> r[i] == 0
    {
      n := qubits;
      over32 := n / 32 + 1;
      x := new Word[2 * n + 1, over32]((i, j) => NO_BITS);
      z := new Word[2 * n + 1, over32]((i, j) => NO_BITS);
      r := new int[2 * n + 1];
      for i := 0 to 2 * n
        invariant forall k :: 0 <= k < i ==> r[k] == 0
        modifies r
      {
        r[i] := 0;
      }
    }

    /** Row i holds one bit: X_i for i < n, else Z_(i-n). The scratch row 2n gets a stray
        Z bit in column n, and its phase is whatever the allocation found there. */
    ghost predicate OneBit(i: nat)
      reads this, x, z
      requires Sized() && i < x.Length0
    {
      forall j :: 0 <= j < over32 ==>
        && x[i, j] == (if i < n && j == i / 32 then Pt(i % 32) else NO_BITS)
        && z[i, j] == (if i >= n && j == (i - n) / 32 then Pt((i - n) % 32) else NO_BITS)
    }

    lemma OneBitRow(i: nat)
      requires Sized() && i < x.Length0 && OneBit(i) && (i < 2 * n ==> r[i] == 0)
      ensures RowValid(i)
      ensures i < 2 * n ==> Row(i) == if i < n then UnitX(n, i, 0) else UnitZ(n, i - n, 0)
    {
      hide Pt, Column;
      UnitRow(XRow(i), if i < n then i else 0, i < n);
      UnitRow(ZRow(i), if i < n then 0 else i - n, i >= n);
    }

    ghost predicate NoBits(i: nat)
      reads this, x, z
      requires Sized() && i < x.Length0
    {
      forall j :: 0 <= j < over32 ==> x[i, j] == z[i, j] == NO_BITS
    }

    method PlaceBit(i: nat)
      requires Sized() && i < x.Length0 && NoBits(i)
      modifies x, z
      ensures OneBit(i)
      ensures forall k :: 0 <= k < x.Length0 && k != i && old(OneBit(k)) ==> OneBit(k)
      ensures forall k :: 0 <= k < x.Length0 && k != i && old(NoBits(k)) ==> NoBits(k)
    {
      hide Pt;
      if i < n {
        x[i, i / 32] := Pt(i % 32);
      } else {
        z[i, (i - n) / 32] := Pt((i - n) % 32);
      }
      assert forall k, j :: 0 <= k < x.Length0 && k != i && 0 <= j < over32 ==>
        x[k, j] == old(x[k, j]) && z[k, j] == old(z[k, j]);
    }

    method Init(qubits: nat)
      modifies this
      ensures Valid() && n == qubits && Rows() == InitialRows(qubits)
      ensures fresh(x) && fresh(z) && fresh(r)
    {
      hide Pt, RowValid;
      Allocate(qubits);
      for i := 0 to 2 * n + 1
        invariant forall k :: 0 <= k < i ==> OneBit(k)
        invariant forall k :: i <= k < 2 * n + 1 ==> NoBits(k)
        modifies x, z
      {
        PlaceBit(i);
      }
      forall i | 0 <= i < x.Length0
        ensures RowValid(i) && (i < 2 * n ==> Row(i) == InitialRows(qubits)[i])
      {
        OneBitRow(i);
      }
    }

    method ApplyGate(g: Gate)
      requires Valid() && Shape(n, Rows()) && Acts(g, n)
      modifies x, z, r
      ensures Valid() && Rows() == GateRows(g, old(Rows()), n)
    {
      hide CnotRow, HadamardRow, PhaseRow;
      match g
      case Cnot(c, t) => Cnot(c, t);
      case Hadamard(q) => Hadamard(q);
      case Phase(q) => Phase(q);
    }

    method ApplyGates(gs: seq<Gate>)
      requires Valid() && Good(Sim(n, Rows())) && AllAct(gs, n)
      modifies x, z, r
      ensures Valid() && Sim(n, Rows()) == GatesRun(gs, old(Sim(n, Rows())))
    {
      hide Complete, Canonical, Shape;
      for i := 0 to |gs|
        invariant Valid() && Good(Sim(n, Rows()))
        invariant GatesRun(gs[i..], Sim(n, Rows())) == GatesRun(gs, old(Sim(n, Rows())))
      {
        GateInvariant(gs[i], Rows(), n);
        ApplyGate(gs[i]);
      }
    }

    /** The cases of run_program that apply gates, or nothing. */
    method RunGates(ins: M.Instruction)
      requires Valid() && Good(Sim(n, Rows())) && Legal(ins, n)
      requires !ins.bytecode.Initialize? && !ins.bytecode.Measure?
      modifies x, z, r
      ensures Valid() && Sim(n, Rows()) == GatesRun(GatesOf(ins), old(Sim(n, Rows())))
    {
      hide Good, Acts, GatesRun, Row, RowValid, Rows;
      var q := ins.operands[0];
      NoGates(Sim(n, Rows()));
      match ins.bytecode
      case Hadamard => ApplyGates([Gate.Hadamard(q)]);
      case Phase => ApplyGates([Gate.Phase(q)]);
      case Cnot => ApplyGates([Gate.Cnot(q, ins.operands[1])]);
      case PauliX => ApplyGates([Gate.Hadamard(q), Gate.Phase(q), Gate.Phase(q), Gate.Hadamard(q)]);
      case PauliY =>
        ApplyGates([Gate.Phase(q), Gate.Hadamard(q), Gate.Phase(q), Gate.Phase(q), Gate.Hadamard(q),
                    Gate.Phase(q), Gate.Phase(q), Gate.Phase(q)]);
      case PauliZ => ApplyGates([Gate.Phase(q), Gate.Phase(q)]);
      case _ =>
    }

    /** The configuration of the specification that this object and a record stand for. */
    ghost function Abstract(out: string, drawn: nat): (c: Config)
      reads this, x, z, r
      requires Valid()
    {
      Config(Sim(n, Rows()), out, drawn)
    }

    /** One instruction; the coins are the bits the generator delivers. */
    method RunInstruction(ins: M.Instruction, buffer: StringBuffer, coins: Coins, drawn: nat) returns (drawn': nat)
      requires Valid() && Good(Sim(n, Rows())) && Legal(ins, n)
      requires buffer.Valid() && |buffer.Text()| + WORD_SIZE + 1 < WORD_RANGE
      modifies this, x, z, r, buffer.base, buffer.base.stack, buffer.base.heap
      ensures Valid() && buffer.Valid()
      ensures Abstract(buffer.Text(), drawn') == Step(ins, old(Abstract(buffer.Text(), drawn)), coins)
      ensures x == old(x) || fresh(x)
      ensures z == old(z) || fresh(z)
      ensures r == old(r) || fresh(r)
      ensures buffer.base.stack == old(buffer.base.stack)
      ensures buffer.base.heap == old(buffer.base.heap) || fresh(buffer.base.heap)
    {
      hide Complete, Canonical, Shape, RowValid, Sized, Measurement.Measure, GatesRun, GatesOf, Row, InitialRows;
      drawn' := drawn;
      if ins.bytecode.Initialize? {
        Init(ins.operands[0]);
      } else if ins.bytecode.Measure? {
        var outcome, drew := Measure(ins.operands[0], coins(drawn));
        buffer.Add([if outcome == 1 then '1' else '0']);
        drawn' := if drew then drawn + 1 else drawn;
      } else {
        RunGates(ins);
      }
    }

    /** run_program: the results of the measurements go to the buffer, in order. */
    method RunProgram(prog: M.Program, buffer: StringBuffer, coins: Coins, drawn: nat) returns (drawn': nat)
      requires Valid() && Good(Sim(n, Rows())) && LegalProgram(prog, n)
      requires buffer.Valid() && |buffer.Text()| + |prog| + WORD_SIZE < WORD_RANGE
      modifies this, x, z, r, buffer.base, buffer.base.stack, buffer.base.heap
      ensures Valid() && buffer.Valid()
      ensures Abstract(buffer.Text(), drawn') == Run(prog, old(Abstract(buffer.Text(), drawn)), coins)
    {
      hide Complete, Canonical, Shape, RowValid, Sized, Step, Legal;
      drawn' := drawn;
      for t := 0 to |prog|
        invariant Valid() && Good(Sim(n, Rows())) && LegalProgram(prog[t..], n)
        invariant buffer.Valid() && |buffer.Text()| + |prog| - t + WORD_SIZE < WORD_RANGE
        invariant Run(prog[t..], Abstract(buffer.Text(), drawn'), coins)
               == Run(prog, old(Abstract(buffer.Text(), drawn)), coins)
        invariant x == old(x) || fresh(x)
        invariant z == old(z) || fresh(z)
        invariant r == old(r) || fresh(r)
        invariant buffer.base.stack == old(buffer.base.stack)
        invariant buffer.base.heap == old(buffer.base.heap) || fresh(buffer.base.heap)
      {
        StepRecord(prog[t], Abstract(buffer.Text(), drawn'), coins);
        drawn' := RunInstruction(prog[t], buffer, coins, drawn');
      }
    }

    // -------------------------------------------------------------- Gaussian elimination

    method SwapRows(i: nat, k: nat)
      requires Valid() && n <= i < 2 * n && n <= k < 2 * n
      modifies x, z, r
      ensures Valid() && Rows() == SwapPair(n, old(Rows()), i, k)
    {
      hide RowValid, Row;
      RowSwap(i, k);
      RowSwap(i - n, k - n);
    }

    lemma PhaseInRange(a: nat)
      requires Valid() && a < 2 * n
      ensures a < x.Length0 && 0 <= r[a] < 4
    {
      assert RowValid(a);
    }

    method MultRow(a: nat, b: nat)
      requires Valid() && a < 2 * n && b < 2 * n && a != b
      modifies x, z, r
      ensures Valid() && Rows() == old(Rows())[a := Times(old(Rows())[b], old(Rows())[a], n)]
    {
      hide Times, RowValid;
      PhaseInRange(a);
      RowMult(a, b);
    }

    method AddRows(k: nat, i: nat)
      requires Valid() && Shape(n, Rows()) && n <= i < 2 * n && n <= k < 2 * n && i != k
      modifies x, z, r
      ensures Valid() && Rows() == AddPair(n, old(Rows()), k, i)
    {
      hide Row, Times, RowValid, Valid;
      MultRow(k, i);
      MultRow(i - n, k - n);
    }

    predicate PartBit(i: nat, c: nat, useZ: bool)
      reads this, x, z, r
      requires Valid() && i < 2 * n && c < n
      ensures PartBit(i, c, useZ) == HasBit(Rows()[i], c, useZ)
    {
      if useZ then ZBit(i, c) else XBit(i, c)
    }

    /** The first row from i on with a bit in column j, or 2n. */
    method FindPivot(i: nat, j: nat, useZ: bool) returns (k: nat)
      requires Valid() && n <= i <= 2 * n && j < n
      ensures i <= k <= 2 * n && (k < 2 * n ==> HasBit(Rows()[k], j, useZ))
      ensures forall q :: i <= q < k ==> !HasBit(Rows()[q], j, useZ)
    {
      hide PartBit, HasBit, Row, RowValid, Valid;
      k := i;
      while k < 2 * n
        invariant i <= k <= 2 * n && forall q :: i <= q < k ==> !HasBit(Rows()[q], j, useZ)
      {
        if PartBit(k, j, useZ) {
          break;
        }
        k := k + 1;
      }
    }

    /** Clears column j of row k, if it has to be. */
    method EliminateAt(k: nat, i: nat, j: nat, useZ: bool, ghost start: Rows)
      requires Valid() && n <= i < k < 2 * n && j < n
      requires Pivoted(n, Rows(), i, k, j, useZ)
      requires Working(n, start, Rows(), i, j, useZ)
      modifies x, z, r
      ensures Valid() && Kept(n, old(Rows()), Rows(), i + 1) && Pivoted(n, Rows(), i, k + 1, j, useZ)
      ensures Working(n, start, Rows(), i, j, useZ)
    {
      hide Working, Row, RowValid, AddPair, HasBit, PartBit, Valid, Shape, Pivoted, Kept;
      ghost var rows := Rows();
      WorkingShape(n, start, rows, i, j, useZ);
      if PartBit(k, j, useZ) {
        AddRows(k, i);
        RowAdded(n, start, rows, Rows(), i, k, j, useZ);
      } else {
        RowSkipped(n, rows, i, k, j, useZ);
      }
    }

    /** Clears column j in the rows below the pivot row i. */
    method EliminateBelow(i: nat, j: nat, useZ: bool, ghost start: Rows)
      requires Valid() && n <= i < 2 * n && j < n
      requires Pivoted(n, Rows(), i, i + 1, j, useZ)
      requires Working(n, start, Rows(), i, j, useZ)
      modifies x, z, r
      ensures Valid() && Kept(n, old(Rows()), Rows(), i + 1) && Pivoted(n, Rows(), i, 2 * n, j, useZ)
      ensures Working(n, start, Rows(), i, j, useZ)
    {
      hide Working, Row, RowValid, HasBit, Valid, Shape, Pivoted, Kept;
      ghost var rows := Rows();
      KeptReflexive(n, rows, i + 1);
      for k := i + 1 to 2 * n
        invariant Valid() && Working(n, start, Rows(), i, j, useZ)
        invariant Kept(n, rows, Rows(), i + 1) && Pivoted(n, Rows(), i, k, j, useZ)
      {
        ghost var before := Rows();
        EliminateAt(k, i, j, useZ, start);
        KeptTransitive(n, rows, before, Rows(), i + 1, i + 1);
      }
    }

    /** Moves the pivot found in row k up to row i and clears the column below it. */
    method UsePivot(i: nat, k: nat, j: nat, useZ: bool, ghost start: Rows)
      requires Valid() && n <= i <= k < 2 * n && j < n && HasBit(Rows()[k], j, useZ)
      requires Working(n, start, Rows(), i, j, useZ)
      modifies x, z, r
      ensures Valid() && Kept(n, old(Rows()), Rows(), i) && Pivoted(n, Rows(), i, 2 * n, j, useZ)
      ensures Working(n, start, Rows(), i, j, useZ)
    {
      hide Working, Row, RowValid, SwapPair, HasBit, Valid, Shape, Kept, Pivoted;
      ghost var rows := Rows();
      SwapRows(i, k);
      ghost var swapped := Rows();
      WorkingSwap(n, start, rows, swapped, i, k, j, useZ);
      EliminateBelow(i, j, useZ, start);
      KeptTransitive(n, rows, swapped, Rows(), i, i + 1);
    }

    /** One column of one phase: i is the next pivot row, before and after. */
    method EliminateColumn(i: nat, j: nat, useZ: bool, ghost start: Rows, ghost lo: nat) returns (i': nat)
      requires Valid() && n <= lo <= i <= 2 * n && j < n && Shape(n, Rows())
      requires Leading(n, Rows(), lo, i, j, useZ) && Working(n, start, Rows(), i, j, useZ)
      modifies x, z, r
      ensures Valid() && i <= i' <= i + 1 && i' <= 2 * n && Shape(n, Rows())
      ensures Kept(n, old(Rows()), Rows(), i) && Leading(n, Rows(), lo, i', j + 1, useZ)
      ensures useZ ==> Clear(n, Rows(), i, n, false)
      ensures Working(n, start, Rows(), i', j + 1, useZ)
    {
      hide Working, Row, RowValid, HasBit, Valid, Shape, Leading, Kept, Pivoted, Clear;
      ghost var rows := Rows();
      KeptReflexive(n, rows, i);
      var k := FindPivot(i, j, useZ);
      i' := i;
      if k < 2 * n {
        UsePivot(i, k, j, useZ, start);
        i' := i + 1;
      }
      ColumnDone(n, start, rows, Rows(), lo, i, i', j, useZ);
    }

    method EliminateX(ghost start: Rows) returns (i: nat)
      requires Valid() && Rows() == start && Invariant(n, start)
      modifies x, z, r
      ensures Valid() && n <= i <= 2 * n && Shape(n, Rows())
      ensures Leading(n, Rows(), n, i, n, false) && Working(n, start, Rows(), i, n, false)
    {
      hide Working, Row, RowValid, Valid, Shape, Leading, Kept, Complete, Canonical;
      StartX(n, start);
      i := n;
      for j := 0 to n
        invariant Valid() && n <= i <= 2 * n && Shape(n, Rows())
        invariant Leading(n, Rows(), n, i, j, false) && Working(n, start, Rows(), i, j, false)
      {
        i := EliminateColumn(i, j, false, start, n);
      }
    }

    method EliminateZ(lo: nat, ghost start: Rows) returns (i: nat)
      requires Valid() && n <= lo <= 2 * n && Shape(n, Rows())
      requires Leading(n, Rows(), n, lo, n, false) && Clear(n, Rows(), lo, n, false)
      requires Leading(n, Rows(), lo, lo, 0, true) && Working(n, start, Rows(), lo, 0, true)
      modifies x, z, r
      ensures Valid() && lo <= i <= 2 * n && Shape(n, Rows())
      ensures Leading(n, Rows(), n, lo, n, false) && Clear(n, Rows(), lo, n, false)
      ensures Leading(n, Rows(), lo, i, n, true) && Working(n, start, Rows(), i, n, true)
    {
      hide Working, Row, RowValid, Valid, Shape, Leading, Kept, Clear;
      i := lo;
      for j := 0 to n
        invariant Valid() && lo <= i <= 2 * n && Shape(n, Rows())
        invariant Leading(n, Rows(), n, lo, n, false) && Clear(n, Rows(), lo, n, false)
        invariant Leading(n, Rows(), lo, i, j, true) && Working(n, start, Rows(), i, j, true)
      {
        ghost var rows := Rows();
        ghost var was := i;
        i := EliminateColumn(i, j, true, start, lo);
        FirstPhaseKept(n, rows, Rows(), lo, was);
      }
    }

    /** Gaussian elimination: the tableau stays sound with the same signed stabilizer group,
        and reaches the documented form; g generators have an X part, and g is the rank of
        the X block it began with. */
    method Gaussian() returns (g: nat)
      requires Valid() && Invariant(n, Rows())
      modifies x, z, r
      ensures Valid() && g <= n && Shape(n, Rows()) && Shape(n, old(Rows()))
      ensures GaussianForm(n, Rows(), g) && SameGroup(n, old(Rows()), Rows()) && g == XRank(n, old(Rows()))
      ensures Invariant(n, Rows())
    {
      hide Working, Row, RowValid, Valid, Leading, Clear, Complete, Canonical, SameGroup, GaussianForm, XRank;
      ghost var start := Rows();
      var lo := EliminateX(start);
      StartZ(n, start, Rows(), lo);
      g := lo - n;
      var i := EliminateZ(lo, start);
      EliminationDone(n, start, Rows(), lo, i);
      GaussianRank(n, start, Rows(), g);
    }

    // -------------------------------------------------------------- seed

    /** The sign equation of row i for the string in the scratch row: f is what is left
        over, min the row's first Z column. */
    method Residue(i: nat) returns (f: int, min: nat)
      requires Valid() && n > 0 && n <= i < 2 * n && r[i] % 2 == 0
      ensures min < n && (Lead(Rows()[i].z, 0) < n ==> min == Lead(Rows()[i].z, 0))
      ensures f == if Satisfies(Rows()[i], Row(2 * n).x) then 0 else 2
    {
      hide RowValid, OddFrom, Orthogonal, Lead, XBit, ZBit, Row, Rows, Unpacked;
      PhaseInRange(i);
      ghost var p, s := Rows()[i], Row(2 * n).x;
      OddFromEnds(p, s);
      LeadStep(p.z, n);
      f, min := r[i], 0;
      for j := n downto 0
        invariant f == if OddFrom(p, s, j) then (p.r + 2) % 4 else p.r
        invariant min == if Lead(p.z, j) < n then Lead(p.z, j) else 0
      {
        OddFromStep(p, s, j);
        LeadStep(p.z, j);
        if ZBit(i, j) {
          min := j;
          if XBit(2 * n, j) {
            f := (f + 2) % 4;
          }
        }
      }
    }

    /** One equation: the scratch string is made consistent with row i. */
    method SeedAt(i: nat)
      requires Valid() && n > 0 && n <= i < 2 * n && r[i] % 2 == 0 && Packed(XRow(2 * n), n)
      requires Lead(Rows()[i].z, 0) < n
      modifies x
      ensures Valid() && Rows() == old(Rows()) && Packed(XRow(2 * n), n)
      ensures Row(2 * n) == old(Row(2 * n)).(x := Repaired(old(Rows()[i]), old(Row(2 * n)).x))
    {
      hide RowValid, Row, Satisfies;
      var f, min := Residue(i);
      if f == 2 {
        FlipX(2 * n, min);
        ScratchChanged();
      }
    }

    /** Back substitution: leaves an X-only Pauli operator in the scratch row whose bit
        string satisfies the sign equation of every generator without X part. */
    method Seed(g: nat)
      requires Valid() && n > 0 && Shape(n, Rows()) && GaussianForm(n, Rows(), g)
      modifies x, z, r
      ensures Valid() && Rows() == old(Rows()) && Row(2 * n) == XOnly(Row(2 * n).x)
      ensures SatisfiesAll(n, Rows(), g, Row(2 * n).x)
    {
      hide RowValid, Row, Satisfies, XForm, Repaired;
      ghost var rows := Rows();
      ClearRow(2 * n);
      ScratchChanged();
      var i := 2 * n - 1;
      while i >= n + g
        invariant n + g - 1 <= i < 2 * n
        invariant Valid() && Rows() == rows && Row(2 * n) == XOnly(Row(2 * n).x) && Packed(XRow(2 * n), n)
        invariant forall q :: i < q < 2 * n ==> Satisfies(rows[q], Row(2 * n).x)
      {
        assert Rows()[i] == Row(i);
        SeedStep(n, rows, g, i, Row(2 * n).x);
        SeedAt(i);
        i := i - 1;
      }
    }
  }

  lemma NoGates(sim: Sim)
    requires Good(sim)
    ensures GatesRun([], sim) == sim
  {
  }

  lemma StepRecord(ins: M.Instruction, c: Config, coins: Coins)
    requires Good(c.sim) && Legal(ins, c.sim.n)
    ensures |Step(ins, c, coins).out| <= |c.out| + 1
  {
    hide Measurement.Measure, GatesRun;
  }

  lemma ProductPhase(b: Pauli, a: Pauli, n: nat)
    requires Fits(a, n) && Fits(b, n)
    ensures Times(b, a, n).r == (Sum(CliffordTerms(a, b, n)) + a.r + b.r) % 4
  {
  }

  /** The correction after a remainder that may be negative. */
  lemma TruncatedRemainder(e: int)
    ensures var t := TruncatedMod(e, 4); (if t >= 0 then t else t + 4) == e % 4
  {
  }

  lemma UnpackedUnit(ws: seq<Word>, c: nat, n: nat)
    requires |ws| == n / 32 + 1 && c < n && AllExtended(ws)
    requires forall d :: 0 <= d < 32 * |ws| ==> Column(ws, d) == (d == c)
    ensures Packed(ws, n) && Unpacked(ws, n) == Zeros(n)[c := true]
  {
  }

  lemma MeasureBranches(n: nat, rows: Rows, b: nat, coin: bool)
    requires Invariant(n, rows) && b < n
    ensures var m := Measurement.Measure(n, rows, b, coin);
            var p := FindX(rows, b, n, n, 2 * n);
            if p < 2 * n then
              m == Measured(RandomRows(n, rows, b, p - n, coin), coin, true) && m.rows[p].r == OutcomePhase(coin)
            else
              var k := FindX(rows, b, n, 0, n);
              k < n && (var a := Accumulated(n, rows, b, k, n);
                        m == Measured(rows, a.r != 0, false) && a == UnitZ(n, b, OutcomePhase(a.r != 0)))
  {
    hide Complete, Canonical, Accumulated, Times;
    if FindX(rows, b, n, n, 2 * n) == 2 * n { DeterministicRow(n, rows, b); }
  }

  lemma AccumulatedStep(n: nat, rows: Rows, b: nat, m: nat, k: nat)
    requires Shape(n, rows) && b < n && m < k <= n
    ensures k == m + 1 ==> Accumulated(n, rows, b, m, k) == rows[m + n]
    ensures k < n ==> (Accumulated(n, rows, b, m, k + 1) ==
      var a := Accumulated(n, rows, b, m, k); if rows[k].x[b] then Times(rows[k + n], a, n) else a)
  {
    hide Times;
  }

  lemma {:induction false} FindXIs(rows: Rows, b: nat, n: nat, lo: nat, hi: nat, k: nat)
    requires Shape(n, rows) && b < n && lo <= k <= hi <= 2 * n
    requires forall i :: lo <= i < k ==> !rows[i].x[b]
    requires k < hi ==> rows[k].x[b]
    ensures FindX(rows, b, n, lo, hi) == k
    decreases hi - lo
  {
    if lo < k { FindXIs(rows, b, n, lo + 1, hi, k); }
  }
}
