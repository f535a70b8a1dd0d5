/** From the text of a program to the record of its measurements. */
module EndToEnd {
  import opened Machine
  import opened Programs
  import A = Assembler
  import L = Listing
  import N = Numerals
  import Measurement

  /** Instructions that differ at most in operands they do not use. */
  predicate Alike(a: Instruction, b: Instruction)
  {
    a.bytecode == b.bytecode && a.operands[..OperandCount(a.bytecode)] == b.operands[..OperandCount(a.bytecode)]
  }

  lemma UsedAlike(p: Program, q: Program, i: nat)
    requires A.Used(p) == A.Used(q) && i < |p|
    ensures |p| == |q| && Alike(p[i], q[i])
  {
    assert |A.Used(p)| == |A.Used(q)|;
    assert A.Used(p)[i] == A.Used(q)[i];
  }

  lemma AlikeSame(a: Instruction, b: Instruction, n: nat)
    requires Alike(a, b)
    ensures Legal(a, n) == Legal(b, n) && GatesOf(a) == GatesOf(b) && SizeAfter(a, n) == SizeAfter(b, n)
    ensures a.operands[0] == b.operands[0]
  {
    hide AllAct;
    var k := OperandCount(a.bytecode);
    assert a.operands[..k][0] == a.operands[0] && b.operands[..k][0] == b.operands[0];
    if k == 2 { assert a.operands[..k][1] == a.operands[1] && b.operands[..k][1] == b.operands[1]; }
  }

  lemma UsedRest(p: Program)
    requires p != []
    ensures A.Used(p)[1..] == A.Used(p[1..])
  {
  }

  lemma {:induction false} AlikeLegal(p: Program, q: Program, n: nat)
    requires A.Used(p) == A.Used(q) && LegalProgram(p, n)
    ensures LegalProgram(q, n)
  {
    hide A.Used, Alike, Legal, SizeAfter;
    assert |A.Used(p)| == |A.Used(q)|;
    if p != [] {
      UsedAlike(p, q, 0);
      AlikeSame(p[0], q[0], n);
      UsedRest(p);
      UsedRest(q);
      AlikeLegal(p[1..], q[1..], SizeAfter(p[0], n));
    }
  }

  /** What is in operands that are not used makes no difference. */
  lemma {:induction false} AlikeRun(p: Program, q: Program, c: Config, coins: Coins)
    requires Good(c.sim) && A.Used(p) == A.Used(q) && LegalProgram(p, c.sim.n)
    ensures LegalProgram(q, c.sim.n) && Run(q, c, coins) == Run(p, c, coins)
  {
    hide A.Used, Alike, Legal, SizeAfter, Good, GatesOf, Measurement.Measure;
    AlikeLegal(p, q, c.sim.n);
    assert |A.Used(p)| == |A.Used(q)|;
    if p != [] {
      UsedAlike(p, q, 0);
      AlikeSame(p[0], q[0], c.sim.n);
      UsedRest(p);
      UsedRest(q);
      AlikeRun(p[1..], q[1..], Step(p[0], c, coins), coins);
    }
  }

  lemma UsedAreLines(p: Program)
    ensures L.AreLines(A.Used(p))
  {
  }

  /** A program as text. */
  function Text(prog: Program, closed: bool, delimiter: char): string
  {
    UsedAreLines(prog);
    L.Print(A.Used(prog), closed, delimiter)
  }

  /** A program printed as text, assembled, and run from the beginning records what a
      simulation of the state vector by that program records, on the same random bits, and
      ends in a tableau that describes the final state vector. */
  lemma TextToRecord(prog: Program, blanks: string, closed: bool, delimiter: char, r: A.Outcome, coins: Coins)
    requires LegalProgram(prog, 0) && L.Fits(A.Used(prog)) && L.Blank(blanks) && !N.IsDigit(delimiter)
    requires A.Agrees(r, A.Assemble(A.WithoutLeadingBlanks(blanks + Text(prog, closed, delimiter)), delimiter))
    ensures r.Assembled? && LegalProgram(r.code, 0)
    ensures Agrees(Run(r.code, Blank(), coins), Ideal(prog, History(0, Basis(0), "", 0), coins))
  {
    hide A.Assemble, A.Used, L.Print, L.Fits, Run, Ideal, Measurement.Describes, LegalProgram, A.WithoutLeadingBlanks;
    UsedAreLines(prog);
    L.ParseUndoesPrint(A.Used(prog), blanks, closed, delimiter);
    assert A.Used(r.code) == A.Used(prog);
    BlankAgrees();
    AlikeRun(prog, r.code, Blank(), coins);
    RunRefines(prog, Blank(), History(0, Basis(0), "", 0), coins);
  }
}
