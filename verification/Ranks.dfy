/** The number that gaussian returns is the rank of the X block of the tableau it was given. */
module Ranks {
  import opened Sums
  import opened Paulis
  import opened Tableaus
  import opened SignedGroup
  import opened RowOps
  import opened Echelon

  /** Stabilizer i is a factor of e, as its destabilizer sees it. */
  predicate Factor(n: nat, rows: Rows, e: Pauli, i: nat)
    requires Shape(n, rows) && Fits(e, n) && i < n
  {
    Symp(e, rows[i], n)
  }

  function XTerms(n: nat, rows: Rows, e: Pauli, c: nat): (s: seq<bool>)
    requires Shape(n, rows) && Fits(e, n) && c < n
    ensures |s| == n && forall i :: 0 <= i < n ==> s[i] == (Factor(n, rows, e, i) && rows[n + i].x[c])
  {
    seq(n, i requires 0 <= i < n => Factor(n, rows, e, i) && rows[n + i].x[c])
  }

  /** The X part of a group element is the sum of the X parts of its factors. */
  lemma XPart(n: nat, rows: Rows, e: Pauli, c: nat)
    requires Invariant(n, rows) && Fits(e, n) && InGroup(n, rows, e) && c < n
    ensures e.x[c] == Xor(XTerms(n, rows, e, c))
  {
    hide Symp, Complete, Canonical, InGroup, Xor;
    var z := UnitZ(n, c, 0);
    GroupElement(n, rows, e);
    CompleteAt(n, rows, z, e);
    SympUnitZ(n, c, 0, e);
    forall i | 0 <= i < n ensures PairTerms(n, rows, z, e)[i] == XTerms(n, rows, e, c)[i] {
      SympUnitZ(n, c, 0, rows[n + i]);
    }
    assert PairTerms(n, rows, z, e) == XTerms(n, rows, e, c);
  }

  /** The first of the rows n..n+g-1 that is a factor of e, or n + g. */
  function FirstFactor(n: nat, rows: Rows, e: Pauli, from: nat, g: nat): (i: nat)
    requires Shape(n, rows) && Fits(e, n) && from <= g <= n
    ensures from <= i <= g && (i < g ==> Factor(n, rows, e, i))
    ensures forall j :: from <= j < i ==> !Factor(n, rows, e, j)
    decreases g - from
  {
    if from == g || Factor(n, rows, e, from) then from else FirstFactor(n, rows, e, from + 1, g)
  }

  /** A row at or after row n + i has no X before that row's leading column. */
  lemma ZeroBefore(n: nat, rows: Rows, g: nat, i: nat, j: nat, c: nat)
    requires Shape(n, rows) && GaussianForm(n, rows, g) && i <= j < n && c < n
    requires i < g ==> c < Lead(rows[n + i].x, 0)
    requires i <= g
    ensures !rows[n + j].x[c]
  {
    if j < g && i < j { assert Lead(rows[n + i].x, 0) < Lead(rows[n + j].x, 0); }
  }

  /** The leading X column of a group element is that of its first factor. */
  lemma ElementLead(n: nat, rows: Rows, g: nat, e: Pauli, i: nat)
    requires Invariant(n, rows) && GaussianForm(n, rows, g) && Fits(e, n) && InGroup(n, rows, e)
    requires i == FirstFactor(n, rows, e, 0, g)
    ensures i < g ==> Lead(rows[n + i].x, 0) < n
    ensures Lead(e.x, 0) == if i < g then Lead(rows[n + i].x, 0) else n
  {
    hide Symp, Complete, Canonical, InGroup, Factor, Xor, XForm, ZForm;
    var l := if i < g then Lead(rows[n + i].x, 0) else n;
    assert i < g ==> l < n by { XFormLead(n, rows, g, i); }
    forall c | 0 <= c < l ensures !e.x[c] {
      XPart(n, rows, e, c);
      forall j | 0 <= j < n ensures !XTerms(n, rows, e, c)[j] {
        if i <= j { ZeroBefore(n, rows, g, i, j, c); }
      }
      XorAllFalse(XTerms(n, rows, e, c));
    }
    if i < g {
      XPart(n, rows, e, l);
      forall j | 0 <= j < n && j != i ensures !XTerms(n, rows, e, l)[j] {
        if i < j { ZeroAfter(n, rows, g, i, j); }
      }
      XorSingle(XTerms(n, rows, e, l), i);
    }
    LeadIs(e.x, l);
  }

  lemma XFormLead(n: nat, rows: Rows, g: nat, i: nat)
    requires Shape(n, rows) && GaussianForm(n, rows, g)
    ensures i < g ==> Lead(rows[n + i].x, 0) < n
  {
  }

  lemma ZeroAfter(n: nat, rows: Rows, g: nat, i: nat, j: nat)
    requires Shape(n, rows) && GaussianForm(n, rows, g) && i < j < n && i < g && Lead(rows[n + i].x, 0) < n
    ensures !rows[n + j].x[Lead(rows[n + i].x, 0)]
  {
    if j < g { assert Lead(rows[n + i].x, 0) < Lead(rows[n + j].x, 0); }
  }

  // ---------------------------------------------------------------- rank

  /** Some element of the group has its first X in column c. */
  ghost predicate LeadsElement(n: nat, rows: Rows, c: nat)
    requires Shape(n, rows)
  {
    exists e: Pauli :: Fits(e, n) && InGroup(n, rows, e) && Lead(e.x, 0) == c
  }

  /** The rank of the X block: a space of bit strings has as many different leading columns
      as it has dimensions. */
  ghost function XRank(n: nat, rows: Rows): nat
    requires Shape(n, rows)
  {
    |set c | 0 <= c < n && LeadsElement(n, rows, c)|
  }

  function LeadColumns(n: nat, rows: Rows, g: nat): set<nat>
    requires Shape(n, rows) && g <= n
  {
    set q | n <= q < n + g :: Lead(rows[q].x, 0)
  }

  lemma {:induction false} CountLeads(n: nat, rows: Rows, g: nat, k: nat)
    requires Shape(n, rows) && k <= g <= n && XForm(n, rows, g)
    ensures |LeadColumns(n, rows, k)| == k
  {
    hide XForm, LeadColumns, Lead;
    if k == 0 {
      NoLeads(n, rows);
    } else {
      CountLeads(n, rows, g, k - 1);
      LeadsMore(n, rows, g, k);
    }
  }

  lemma NoLeads(n: nat, rows: Rows)
    requires Shape(n, rows)
    ensures LeadColumns(n, rows, 0) == {}
  {
  }

  lemma LeadsMore(n: nat, rows: Rows, g: nat, k: nat)
    requires Shape(n, rows) && 0 < k <= g <= n && XForm(n, rows, g)
    ensures Lead(rows[n + k - 1].x, 0) !in LeadColumns(n, rows, k - 1)
    ensures LeadColumns(n, rows, k) == LeadColumns(n, rows, k - 1) + {Lead(rows[n + k - 1].x, 0)}
  {
    hide Lead;
  }

  /** In the documented form, the columns in which elements of the group have their first X
      are the leading columns of the rows with an X part, no more and no fewer. */
  lemma LeadingColumns(n: nat, rows: Rows, g: nat, c: nat)
    requires Invariant(n, rows) && GaussianForm(n, rows, g) && c < n
    ensures LeadsElement(n, rows, c) <==> c in LeadColumns(n, rows, g)
  {
    hide Complete, Canonical, InGroup, XForm, ZForm;
    if LeadsElement(n, rows, c) {
      var e: Pauli :| Fits(e, n) && InGroup(n, rows, e) && Lead(e.x, 0) == c;
      ElementLead(n, rows, g, e, FirstFactor(n, rows, e, 0, g));
    }
    if c in LeadColumns(n, rows, g) {
      var q :| n <= q < n + g && c == Lead(rows[q].x, 0);
      GroupGenerator(n, rows, q - n);
      assert Fits(rows[q], n) && InGroup(n, rows, rows[q]);
    }
  }

  /** gaussian's result is the rank of the X block of the tableau it was run on, so it does
      not depend on the rows that were chosen as pivots. */
  lemma GaussianRank(n: nat, start: Rows, rows: Rows, g: nat)
    requires Shape(n, start) && Shape(n, rows) && SameGroup(n, start, rows) && GaussianForm(n, rows, g)
    requires Invariant(n, rows)
    ensures g == XRank(n, start) == XRank(n, rows)
  {
    hide Complete, Canonical, InGroup, XForm, ZForm, SameGroup, LeadColumns;
    CountLeads(n, rows, g, g);
    forall c | 0 <= c < n
      ensures (LeadsElement(n, rows, c) <==> c in LeadColumns(n, rows, g)) && (LeadsElement(n, start, c) <==> LeadsElement(n, rows, c))
    {
      LeadingColumns(n, rows, g, c);
      SameLeads(n, start, rows, c);
    }
    LeadsInRange(n, rows, g);
    assert (set c | 0 <= c < n && LeadsElement(n, rows, c)) == LeadColumns(n, rows, g);
    assert (set c | 0 <= c < n && LeadsElement(n, start, c)) == LeadColumns(n, rows, g);
  }

  lemma LeadsInRange(n: nat, rows: Rows, g: nat)
    requires Shape(n, rows) && GaussianForm(n, rows, g)
    ensures forall c :: c in LeadColumns(n, rows, g) ==> 0 <= c < n
  {
  }

  lemma SameLeads(n: nat, start: Rows, rows: Rows, c: nat)
    requires Shape(n, start) && Shape(n, rows) && SameGroup(n, start, rows)
    ensures LeadsElement(n, start, c) <==> LeadsElement(n, rows, c)
  {
    hide Shape, InGroup, SameGroup;
    forall e: Pauli ensures InGroup(n, start, e) <==> InGroup(n, rows, e) {
      SameGroupElements(n, start, rows, e);
    }
  }

  /** Two tableaus in the documented form with the same signed group have equally many rows
      with an X part. */
  lemma FormsAgree(n: nat, a: Rows, b: Rows, g: nat, h: nat)
    requires Shape(n, a) && Shape(n, b) && SameGroup(n, a, b) && GaussianForm(n, a, g) && GaussianForm(n, b, h)
    requires Invariant(n, a) && Invariant(n, b)
    ensures g == h
  {
    hide Complete, Canonical, SameGroup, GaussianForm, XRank;
    GaussianRank(n, a, b, h);
    SameGroupReflexive(n, a);
    GaussianRank(n, a, a, g);
  }
}
