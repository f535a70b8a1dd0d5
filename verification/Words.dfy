/** Machine words, and rows of columns packed 32 to a 64-bit word
    (state/chp_state.hpp:146-148). */
module Words {

  /** A 64-bit word as its bits, the lowest first. */
  type Word = w: seq<bool> | |w| == 64 witness seq(64, _ => false)

  const NO_BITS: Word := seq(64, _ => false)

  function And(a: Word, b: Word): Word
  {
    seq(64, k requires 0 <= k < 64 => a[k] && b[k])
  }

  function ExclusiveOr(a: Word, b: Word): Word
  {
    seq(64, k requires 0 <= k < 64 => a[k] != b[k])
  }

  predicate IsTrue(w: Word)
  {
    exists k :: 0 <= k < 64 && w[k]
  }

  /** 1 << i, an int of 32 bits. */
  function ShiftedOne(i: nat): (s: seq<bool>)
    requires i < 32
    ensures |s| == 32
  {
    seq(32, k => k == i)
  }

  /** An int widened to 64 bits takes its sign along. */
  function Widened(s: seq<bool>): Word
    requires |s| == 32
  {
    seq(64, k requires 0 <= k < 64 => if k < 32 then s[k] else s[31])
  }

  function Pt(i: nat): Word
    requires i < 32
  {
    Widened(ShiftedOne(i))
  }

  /** The test w & pt(i). */
  predicate Bit(w: Word, i: nat)
    requires i < 32
  {
    IsTrue(And(w, Pt(i)))
  }

  /** The word is the sign extension of its low 32 bits. */
  predicate Extended(w: Word)
  {
    forall k :: 32 <= k < 64 ==> w[k] == w[31]
  }

  /** On such words the test looks at one column, column 31 included. */
  lemma BitTest(w: Word, i: nat)
    requires i < 32 && Extended(w)
    ensures Bit(w, i) == w[i]
  {
    assert And(w, Pt(i))[i] == w[i];
  }

  lemma PtBits(i: nat)
    requires i < 32
    ensures Extended(Pt(i)) && forall k :: 0 <= k < 32 ==> Pt(i)[k] == (k == i)
    ensures forall k :: 32 <= k < 64 ==> Pt(i)[k] == (i == 31)
  {
  }

  /** w ^= pt(i) flips one column. */
  lemma FlipBit(w: Word, i: nat)
    requires i < 32 && Extended(w)
    ensures Extended(ExclusiveOr(w, Pt(i)))
    ensures forall k :: 0 <= k < 32 ==> ExclusiveOr(w, Pt(i))[k] == (w[k] != (k == i))
  {
  }

  lemma XorWords(v: Word, w: Word)
    requires Extended(v) && Extended(w)
    ensures Extended(ExclusiveOr(v, w))
    ensures forall k :: 0 <= k < 32 ==> ExclusiveOr(v, w)[k] == (v[k] != w[k])
  {
  }

  /** v ^= (v ^ w) & pt(i) copies one column of w into v. */
  lemma CopyBit(v: Word, w: Word, i: nat)
    requires i < 32 && Extended(v) && Extended(w)
    ensures var u := ExclusiveOr(v, And(ExclusiveOr(v, w), Pt(i)));
            Extended(u) && forall k :: 0 <= k < 32 ==> u[k] == if k == i then w[k] else v[k]
  {
  }

  /** v ^= w & pt(i) adds one column of w to v. */
  lemma AddBit(v: Word, w: Word, i: nat)
    requires i < 32 && Extended(v) && Extended(w)
    ensures var u := ExclusiveOr(v, And(w, Pt(i)));
            Extended(u) && forall k :: 0 <= k < 32 ==> u[k] == (v[k] != (k == i && w[k]))
  {
  }

  // ---------------------------------------------------------------- rows of words

  predicate Column(ws: seq<Word>, c: nat)
    requires c < 32 * |ws|
  {
    ws[c / 32][c % 32]
  }

  predicate AllExtended(ws: seq<Word>)
  {
    forall j :: 0 <= j < |ws| ==> Extended(ws[j])
  }

  /** Every word of the row is reachable, and columns n and above are empty. */
  predicate Packed(ws: seq<Word>, n: nat)
  {
    && |ws| == n / 32 + 1
    && AllExtended(ws)
    && (forall c :: n <= c < 32 * |ws| ==> !Column(ws, c))
  }

  /** The first n columns of the row. */
  function Unpacked(ws: seq<Word>, n: nat): (s: seq<bool>)
    requires n <= 32 * |ws|
    ensures |s| == n && forall c :: 0 <= c < n ==> s[c] == Column(ws, c)
  {
    seq(n, c requires 0 <= c < n => Column(ws, c))
  }

  /** Replacing one word by one that differs in column c alone. */
  lemma SetColumn(ws: seq<Word>, c: nat, n: nat, w: Word, v: bool)
    requires Packed(ws, n) && c < n && Extended(w)
    requires forall k :: 0 <= k < 32 ==> w[k] == if k == c % 32 then v else ws[c / 32][k]
    ensures Packed(ws[c / 32 := w], n) && Unpacked(ws[c / 32 := w], n) == Unpacked(ws, n)[c := v]
  {
    hide Extended;
    var us := ws[c / 32 := w];
    forall d: nat | d < 32 * |ws| ensures Column(us, d) == if d == c then v else Column(ws, d) {
      assert d / 32 == c / 32 && d != c ==> d % 32 != c % 32;
    }
  }

  lemma FlipColumn(ws: seq<Word>, c: nat, n: nat)
    requires Packed(ws, n) && c < n
    ensures var us := ws[c / 32 := ExclusiveOr(ws[c / 32], Pt(c % 32))];
            Packed(us, n) && Unpacked(us, n) == Unpacked(ws, n)[c := !Unpacked(ws, n)[c]]
  {
    hide ExclusiveOr, Pt, Extended;
    var i, k := c / 32, c % 32;
    FlipBit(ws[i], k);
    SetColumn(ws, c, n, ExclusiveOr(ws[i], Pt(k)), !ws[i][k]);
  }

  lemma CopyColumn(vs: seq<Word>, ws: seq<Word>, c: nat, n: nat)
    requires Packed(vs, n) && Packed(ws, n) && c < n
    ensures var i, m := c / 32, Pt(c % 32);
            var us := vs[i := ExclusiveOr(vs[i], And(ExclusiveOr(vs[i], ws[i]), m))];
            Packed(us, n) && Unpacked(us, n) == Unpacked(vs, n)[c := Unpacked(ws, n)[c]]
  {
    hide ExclusiveOr, And, Pt, Extended;
    var i, k := c / 32, c % 32;
    CopyBit(vs[i], ws[i], k);
    SetColumn(vs, c, n, ExclusiveOr(vs[i], And(ExclusiveOr(vs[i], ws[i]), Pt(k))), ws[i][k]);
  }

  lemma AddColumn(vs: seq<Word>, ws: seq<Word>, c: nat, n: nat)
    requires Packed(vs, n) && Packed(ws, n) && c < n
    ensures var i, m := c / 32, Pt(c % 32);
            var us := vs[i := ExclusiveOr(vs[i], And(ws[i], m))];
            Packed(us, n) && Unpacked(us, n) == Unpacked(vs, n)[c := Unpacked(vs, n)[c] != Unpacked(ws, n)[c]]
  {
    hide ExclusiveOr, And, Pt, Extended;
    var i, k := c / 32, c % 32;
    AddBit(vs[i], ws[i], k);
    SetColumn(vs, c, n, ExclusiveOr(vs[i], And(ws[i], Pt(k))), vs[i][k] != ws[i][k]);
  }

  /** A row holding at most the one column c. */
  lemma UnitRow(ws: seq<Word>, c: nat, on: bool)
    requires c < 32 * |ws|
    requires forall j :: 0 <= j < |ws| ==> ws[j] == if j == c / 32 && on then Pt(c % 32) else NO_BITS
    ensures AllExtended(ws)
    ensures forall d :: 0 <= d < 32 * |ws| ==> Column(ws, d) == (d == c && on)
  {
    hide Pt;
    PtBits(c % 32);
  }

  /** Adding two rows word by word adds their columns. */
  lemma XorRows(us: seq<Word>, vs: seq<Word>, ws: seq<Word>)
    requires |us| == |vs| == |ws| && AllExtended(vs) && AllExtended(ws)
    requires forall j :: 0 <= j < |us| ==> us[j] == ExclusiveOr(vs[j], ws[j])
    ensures AllExtended(us)
    ensures forall c :: 0 <= c < 32 * |us| ==> Column(us, c) == (Column(vs, c) != Column(ws, c))
  {
    hide ExclusiveOr, Extended;
    forall j | 0 <= j < |us|
      ensures Extended(us[j]) && forall k :: 0 <= k < 32 ==> us[j][k] == (vs[j][k] != ws[j][k])
    {
      XorWords(vs[j], ws[j]);
    }
  }
}
