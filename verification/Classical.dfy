/** Programs without superposition: the simulator computes with bits. */
module Classical {
  import opened Paulis
  import opened Gates
  import opened Amplitudes
  import opened Projections
  import opened Tableaus
  import Measurement
  import opened Programs
  import opened Instructions
  import M = Machine

  predicate IsClassical(prog: M.Program)
  {
    forall i :: 0 <= i < |prog| ==>
      || prog[i].bytecode.Initialize? || prog[i].bytecode.Identity? || prog[i].bytecode.PauliX?
      || prog[i].bytecode.Cnot? || prog[i].bytecode.Measure?
  }

  /** A register of bits and what has been recorded. */
  datatype Register = Register(bits: Bits, out: string)

  function BitStep(ins: M.Instruction, g: Register): Register
    requires Legal(ins, |g.bits|)
  {
    LegalOperands(ins, |g.bits|);
    var a, b := ins.operands[0], ins.operands[1];
    match ins.bytecode
    case Initialize => g.(bits := Zeros(a))
    case PauliX => g.(bits := g.bits[a := !g.bits[a]])
    case Cnot => g.(bits := g.bits[b := g.bits[b] != g.bits[a]])
    case Measure => g.(out := g.out + if g.bits[a] then "1" else "0")
    case _ => g
  }

  function BitRun(prog: M.Program, g: Register): Register
    requires LegalProgram(prog, |g.bits|)
  {
    if prog == [] then g
    else
      BitStepSize(prog[0], g);
      BitRun(prog[1..], BitStep(prog[0], g))
  }

  lemma BitStepSize(ins: M.Instruction, g: Register)
    requires Legal(ins, |g.bits|)
    ensures |BitStep(ins, g).bits| == SizeAfter(ins, |g.bits|)
  {
    hide Legal;
    LegalOperands(ins, |g.bits|);
    match ins.bytecode
    case PauliX =>
    case Cnot =>
    case _ =>
  }

  lemma FlippedBack(s: Bits, u: Bits, q: nat)
    requires |s| == |u| && q < |u|
    ensures s[q := !s[q]] == u <==> s == u[q := !u[q]]
  {
    assert s[q := !s[q]][q := s[q]] == s && u[q := !u[q]][q := u[q]] == u;
  }

  /** All amplitude is at one string. */
  ghost predicate At(f: Amp, u: Bits)
  {
    f(u) != ZERO && forall s: Bits :: |s| == |u| && s != u ==> f(s) == ZERO
  }

  lemma DoubleNonzero(a: Gauss)
    ensures Plus(a, a) == ZERO <==> a == ZERO
  {
  }

  lemma AtZeros(n: nat)
    ensures At(Basis(n), Zeros(n))
  {
  }

  lemma XMoves(ins: M.Instruction, h: History, coins: Coins, u: Bits)
    requires Legal(ins, h.n) && ins.bytecode.PauliX? && |u| == h.n && At(h.f, u)
    ensures ins.operands[0] < h.n && At(IdealStep(ins, h, coins).f, u[ins.operands[0] := !u[ins.operands[0]]])
  {
    hide IdealStep, Plus;
    var q := ins.operands[0];
    LegalOperands(ins, h.n);
    var f', u' := IdealStep(ins, h, coins).f, u[q := !u[q]];
    forall s: Bits | |s| == h.n ensures f'(s) == ZERO <==> s != u' {
      IdealAmplitude(ins, h, coins, s);
      DoubleNonzero(h.f(s[q := !s[q]]));
      FlippedBack(s, u, q);
    }
  }

  lemma CnotMoves(ins: M.Instruction, h: History, coins: Coins, u: Bits)
    requires Legal(ins, h.n) && ins.bytecode.Cnot? && |u| == h.n && At(h.f, u)
    ensures var a, b := ins.operands[0], ins.operands[1];
            a < h.n && b < h.n && At(IdealStep(ins, h, coins).f, u[b := u[b] != u[a]])
  {
    hide IdealStep;
    var a, b := ins.operands[0], ins.operands[1];
    LegalOperands(ins, h.n);
    var f', u' := IdealStep(ins, h, coins).f, u[b := u[b] != u[a]];
    forall s: Bits | |s| == h.n ensures f'(s) == ZERO <==> s != u' {
      IdealAmplitude(ins, h, coins, s);
      var t := s[b := s[b] != s[a]];
      if t == u { assert s == u'; }
      assert u'[b := u'[b] != u'[a]] == u;
    }
  }

  /** Measuring a definite bit needs no coin, records the bit and changes nothing. */
  lemma DefiniteMeasured(ins: M.Instruction, h: History, coins: Coins, u: Bits)
    requires Legal(ins, h.n) && ins.bytecode.Measure? && |u| == h.n && At(h.f, u)
    ensures ins.operands[0] < h.n
    ensures var g := IdealStep(ins, h, coins);
            && At(g.f, u) && g.drawn == h.drawn && g.out == h.out + if u[ins.operands[0]] then "1" else "0"
  {
    var b := ins.operands[0];
    assert Project(h.f, b, u[b], h.n)(u) == h.f(u);
    assert Possible(h.f, b, u[b], h.n);
    assert !Possible(h.f, b, !u[b], h.n);
  }

  lemma BitStepAgrees(ins: M.Instruction, h: History, coins: Coins, g: Register)
    requires Legal(ins, h.n) && |g.bits| == h.n && At(h.f, g.bits) && h.out == g.out && IsClassical([ins])
    ensures var h', g' := IdealStep(ins, h, coins), BitStep(ins, g);
            |g'.bits| == h'.n && At(h'.f, g'.bits) && h'.out == g'.out && h'.drawn == h.drawn
  {
    hide At, Project, Possible;
    assert [ins][0] == ins;
    BitStepSize(ins, g);
    match ins.bytecode
    case PauliX =>
      XMoves(ins, h, coins, g.bits);
    case Cnot => CnotMoves(ins, h, coins, g.bits);
    case Measure => DefiniteMeasured(ins, h, coins, g.bits);
    case Initialize => AtZeros(ins.operands[0]);
    case _ =>
  }

  lemma {:induction false} BitRunAgrees(prog: M.Program, h: History, coins: Coins, g: Register)
    requires LegalProgram(prog, h.n) && IsClassical(prog)
    requires |g.bits| == h.n && At(h.f, g.bits) && h.out == g.out
    ensures var h', g' := Ideal(prog, h, coins), BitRun(prog, g);
            |g'.bits| == h'.n && At(h'.f, g'.bits) && h'.out == g'.out && h'.drawn == h.drawn
  {
    hide At, IdealStep, BitStep, Legal;
    if prog != [] {
      assert IsClassical([prog[0]]);
      BitStepAgrees(prog[0], h, coins, g);
      BitRunAgrees(prog[1..], IdealStep(prog[0], h, coins), coins, BitStep(prog[0], g));
    }
  }

  /** A program of init, i, x, c and m alone records the bits that computing with bits gives,
      and draws no coin. */
  lemma ClassicalRuns(prog: M.Program, coins: Coins)
    requires LegalProgram(prog, 0) && IsClassical(prog)
    ensures var c, g := Run(prog, Blank(), coins), BitRun(prog, Register([], ""));
            c.out == g.out && c.drawn == 0 && c.sim.n == |g.bits|
  {
    hide Run, Ideal, BitRun, LegalProgram, Measurement.Describes;
    BlankAgrees();
    var h := History(0, Basis(0), "", 0);
    assert At(h.f, []);
    RunRefines(prog, Blank(), h, coins);
    BitRunAgrees(prog, h, coins, Register([], ""));
  }

  /** A Hadamard gate on a definite bit makes it a coin: the measurement after it draws one
      and records it. */
  lemma HadamardTosses(q: nat, h: History, coins: Coins, u: Bits, had: M.Instruction, meas: M.Instruction)
    requires |u| == h.n && At(h.f, u) && q < h.n
    requires had.bytecode.Hadamard? && had.operands[0] == q && meas.bytecode.Measure? && meas.operands[0] == q
    ensures LegalProgram([had, meas], h.n)
    ensures var g := Ideal([had, meas], h, coins);
            g.drawn == h.drawn + 1 && g.out == h.out + if coins(h.drawn) then "1" else "0"
  {
    hide IdealStep, Legal;
    BecomesPossible(had, h, coins, u, false);
    BecomesPossible(had, h, coins, u, true);
    var k := IdealStep(had, h, coins);
    MeasureTosses(meas, k, coins);
    var prog := [had, meas];
    assert prog[1..] == [meas] && [meas][1..] == [];
    assert LegalProgram([], SizeAfter(meas, k.n));
    assert LegalProgram([meas], k.n);
    assert Ideal([meas], k, coins) == Ideal([], IdealStep(meas, k, coins), coins) == IdealStep(meas, k, coins);
    assert Ideal(prog, h, coins) == Ideal([meas], k, coins);
  }

  /** After a Hadamard gate on a definite bit either outcome is possible. */
  lemma BecomesPossible(had: M.Instruction, h: History, coins: Coins, u: Bits, o: bool)
    requires |u| == h.n && At(h.f, u) && had.bytecode.Hadamard? && had.operands[0] < h.n
    ensures Legal(had, h.n)
    ensures var k := IdealStep(had, h, coins);
            k.n == h.n && k.out == h.out && k.drawn == h.drawn && Possible(k.f, had.operands[0], o, k.n)
  {
    hide IdealStep, Rot, Plus;
    var q := had.operands[0];
    LegalOperands(had, h.n);
    var k, s := IdealStep(had, h, coins), u[q := o];
    IdealAmplitude(had, h, coins, s);
    assert s[q := u[q]] == u && s[q := !u[q]] != u;
    OneTerm(h.f(s[q := false]), h.f(s[q := true]), if s[q] then 2 else 0);
    assert Project(k.f, q, o, h.n)(s) == k.f(s) != ZERO;
  }

  lemma OneTerm(a: Gauss, b: Gauss, k: int)
    requires (a != ZERO && b == ZERO) || (a == ZERO && b != ZERO)
    ensures Plus(a, Rot(k, b)) != ZERO
  {
  }

  lemma MeasureTosses(meas: M.Instruction, k: History, coins: Coins)
    requires meas.bytecode.Measure? && meas.operands[0] < k.n
    requires Possible(k.f, meas.operands[0], false, k.n) && Possible(k.f, meas.operands[0], true, k.n)
    ensures Legal(meas, k.n)
    ensures var g := IdealStep(meas, k, coins);
            g.drawn == k.drawn + 1 && g.out == k.out + if coins(k.drawn) then "1" else "0"
  {
    hide Possible, Project;
  }
}
