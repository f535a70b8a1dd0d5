/** What each instruction does, one by one: to the tableau, and to the state vector. */
module Instructions {
  import opened Paulis
  import opened Gates
  import opened Amplitudes
  import opened Projections
  import opened Tableaus
  import opened Measurement
  import opened Programs
  import M = Machine

  // ---------------------------------------------------------------- operands

  /** Which operands are legal: each one used must be the number of a qubit. */
  lemma LegalOperands(ins: M.Instruction, n: nat)
    ensures Legal(ins, n) <==>
      match ins.bytecode
      case Hadamard => ins.operands[0] < n
      case Phase => ins.operands[0] < n
      case Measure => ins.operands[0] < n
      case PauliX => ins.operands[0] < n
      case PauliY => ins.operands[0] < n
      case PauliZ => ins.operands[0] < n
      case Cnot => ins.operands[0] < n && ins.operands[1] < n && ins.operands[0] != ins.operands[1]
      case _ => true
  {
    hide Acts;
    var gs, q := GatesOf(ins), ins.operands[0];
    match ins.bytecode
    case Cnot =>
      assert gs[0] == Gate.Cnot(q, ins.operands[1]);
      ActsIs(gs[0], n);
    case Measure =>
    case Initialize =>
    case Identity =>
    case Macro =>
    case _ => OnOneQubit(gs, q, n);
  }

  lemma OnOneQubit(gs: seq<Gate>, q: nat, n: nat)
    requires gs != [] && forall g :: g in gs ==> g == Gate.Hadamard(q) || g == Gate.Phase(q)
    ensures AllAct(gs, n) <==> q < n
  {
    assert forall i :: 0 <= i < |gs| ==> gs[i] in gs;
    assert gs[0] in gs && (Acts(gs[0], n) <==> q < n);
  }

  lemma ActsIs(g: Gate, n: nat)
    ensures Acts(g, n) <==>
      match g
      case Cnot(c, t) => c < n && t < n && c != t
      case Hadamard(q) => q < n
      case Phase(q) => q < n
  {
  }

  // ---------------------------------------------------------------- rows

  lemma SingleGate(g: Gate, sim: Sim, i: nat)
    requires Good(sim) && Acts(g, sim.n) && i < 2 * sim.n
    ensures AllAct([g], sim.n) && |GatesRun([g], sim).rows| == 2 * sim.n
    ensures GatesRun([g], sim).rows[i] == GateRow(g, sim.rows[i], sim.n)
  {
    hide GateRow, Complete, Canonical;
    GatesRunByRow([g], sim, i);
    OneGate(g, sim.rows[i], sim.n);
  }

  /** Each row of the tableau after an instruction that is not init or m: the control of a
      CNOT is the first operand and the target the second; i and macro change nothing. */
  lemma StepRows(ins: M.Instruction, c: Config, coins: Coins, i: nat)
    requires Good(c.sim) && Legal(ins, c.sim.n) && i < 2 * c.sim.n
    requires !ins.bytecode.Initialize? && !ins.bytecode.Measure?
    ensures var d, n, row, q := Step(ins, c, coins), c.sim.n, c.sim.rows[i], ins.operands[0];
            && d.sim.n == n && |d.sim.rows| == 2 * n && d.out == c.out && d.drawn == c.drawn
            && Fits(row, n)
            && d.sim.rows[i] ==
                 match ins.bytecode
                 case Cnot => CnotRow(row, q, ins.operands[1], n)
                 case Hadamard => HadamardRow(row, q, n)
                 case Phase => PhaseRow(row, q, n)
                 case PauliX => Negated(row, row.z[q])
                 case PauliY => Negated(row, row.x[q] != row.z[q])
                 case PauliZ => Negated(row, row.x[q])
                 case _ => row
  {
    hide CnotRow, HadamardRow, PhaseRow, Complete, Canonical, GatesRun, Negated;
    var n, row := c.sim.n, c.sim.rows[i];
    GatesRunByRow(GatesOf(ins), c.sim, i);
    if |GatesOf(ins)| == 1 {
      assert GatesOf(ins) == [GatesOf(ins)[0]];
      OneGate(GatesOf(ins)[0], row, n);
    } else if GatesOf(ins) != [] {
      PauliGates(ins, row, n);
    }
  }

  lemma SameRows(a: Rows, b: Rows)
    requires |a| == |b| && forall i :: 0 <= i < |a| ==> a[i] == b[i]
    ensures a == b
  {
  }

  /** i and macro leave everything as it is. */
  lemma StepNothing(ins: M.Instruction, c: Config, coins: Coins)
    requires Good(c.sim) && (ins.bytecode.Identity? || ins.bytecode.Macro?)
    ensures Legal(ins, c.sim.n) && Step(ins, c, coins) == c
  {
  }

  /** init n: destabilizer i is X_i and stabilizer i is Z_i, whatever was there before. */
  lemma StepInitialize(ins: M.Instruction, c: Config, coins: Coins, i: nat)
    requires Good(c.sim) && ins.bytecode.Initialize? && i < 2 * ins.operands[0]
    ensures Legal(ins, c.sim.n)
    ensures var d, n := Step(ins, c, coins), ins.operands[0];
            && d.sim.n == n && |d.sim.rows| == 2 * n && d.out == c.out && d.drawn == c.drawn
            && d.sim.rows[i] == if i < n then UnitX(n, i, 0) else UnitZ(n, i - n, 0)
  {
  }

  // ---------------------------------------------------------------- amplitudes

  lemma {:induction false} GatesActAppend(gs: seq<Gate>, hs: seq<Gate>, f: Amp, n: nat)
    requires AllAct(gs, n) && AllAct(hs, n)
    ensures AllAct(gs + hs, n) && GatesAct(gs + hs, f, n) == GatesAct(hs, GatesAct(gs, f, n), n)
  {
    hide ApplyGate;
    if gs == [] {
      assert gs + hs == hs;
    } else {
      assert (gs + hs)[1..] == gs[1..] + hs;
      GatesActAppend(gs[1..], hs, ApplyGate(gs[0], f, n), n);
    }
  }

  lemma OneGateActs(g: Gate, f: Amp, n: nat)
    requires Acts(g, n)
    ensures AllAct([g], n) && GatesAct([g], f, n) == ApplyGate(g, f, n)
  {
    hide ApplyGate;
    assert [g][1..] == [];
  }

  lemma TwoGatesAct(g: Gate, h: Gate, f: Amp, n: nat)
    requires Acts(g, n) && Acts(h, n)
    ensures AllAct([g, h], n) && GatesAct([g, h], f, n) == ApplyGate(h, ApplyGate(g, f, n), n)
  {
    hide ApplyGate, GatesAct;
    assert [g, h] == [g] + [h];
    OneGateActs(g, f, n);
    OneGateActs(h, ApplyGate(g, f, n), n);
    GatesActAppend([g], [h], f, n);
  }

  /** Two phase gates are a Z. */
  lemma TwoPhasesAct(q: nat, f: Amp, n: nat, s: Bits)
    requires q < n && |s| == n
    ensures AllAct([Gate.Phase(q), Gate.Phase(q)], n)
    ensures GatesAct([Gate.Phase(q), Gate.Phase(q)], f, n)(s) == Rot(if s[q] then 2 else 0, f(s))
  {
    hide GatesAct, Rot;
    var g := Gate.Phase(q);
    TwoGatesAct(g, g, f, n);
    var k := if s[q] then 1 else 0;
    assert ApplyGate(g, f, n)(s) == Rot(k, f(s));
    assert ApplyGate(g, ApplyGate(g, f, n), n)(s) == Rot(k, ApplyGate(g, f, n)(s));
    RotRot(k, k, f(s));
  }

  lemma ThreeGatesAct(a: seq<Gate>, b: seq<Gate>, c: seq<Gate>, f: Amp, n: nat)
    requires AllAct(a, n) && AllAct(b, n) && AllAct(c, n)
    ensures AllAct(a + b + c, n) && GatesAct(a + b + c, f, n) == GatesAct(c, GatesAct(b, GatesAct(a, f, n), n), n)
  {
    hide GatesAct;
    GatesActAppend(a, b, f, n);
    GatesActAppend(a + b, c, f, n);
  }

  /** H S S H is an X, times 2 because amplitudes are not normalised. */
  lemma XActs(q: nat, f: Amp, n: nat, s: Bits)
    requires q < n && |s| == n
    ensures var h, p := Gate.Hadamard(q), Gate.Phase(q);
            && AllAct([h, p, p, h], n)
            && GatesAct([h, p, p, h], f, n)(s) == Plus(f(s[q := !s[q]]), f(s[q := !s[q]]))
  {
    hide GatesAct;
    var h, p := Gate.Hadamard(q), Gate.Phase(q);
    var f1 := ApplyGate(h, f, n);
    var s0, s1 := s[q := false], s[q := true];
    assert [h, p, p, h] == [h] + [p, p] + [h];
    OneGateActs(h, f, n);
    TwoPhasesAct(q, f1, n, s0);
    TwoPhasesAct(q, f1, n, s1);
    OneGateActs(h, GatesAct([p, p], f1, n), n);
    ThreeGatesAct([h], [p, p], [h], f, n);
    assert s0[q := false] == s0 && s0[q := true] == s1 && s1[q := false] == s0 && s1[q := true] == s1;
    assert s[q := !s[q]] == if s[q] then s0 else s1;
  }

  /** S H S S H S S S is a Y, times -2. */
  lemma YActs(q: nat, f: Amp, n: nat, s: Bits)
    requires q < n && |s| == n
    ensures var h, p := Gate.Hadamard(q), Gate.Phase(q);
            var a := Rot(if s[q] then 3 else 1, f(s[q := !s[q]]));
            && AllAct([p, h, p, p, h, p, p, p], n)
            && GatesAct([p, h, p, p, h, p, p, p], f, n)(s) == Plus(a, a)
  {
    hide GatesAct, Rot, Plus;
    var h, p := Gate.Hadamard(q), Gate.Phase(q);
    var f1 := ApplyGate(p, f, n);
    var f2 := GatesAct([h, p, p, h], f1, n);
    var u := s[q := !s[q]];
    assert [p, h, p, p, h, p, p, p] == [p] + [h, p, p, h] + ([p] + [p, p]);
    OneGateActs(p, f, n);
    XActs(q, f1, n, s);
    OneGateActs(p, f2, n);
    TwoPhasesAct(q, ApplyGate(p, f2, n), n, s);
    GatesActAppend([p], [p, p], f2, n);
    ThreeGatesAct([p], [h, p, p, h], [p] + [p, p], f, n);
    var k := if s[q] then 1 else 0;
    assert f1(u) == Rot(1 - k, f(u));
    assert ApplyGate(p, f2, n)(s) == Rot(k, f2(s));
    RotRot(2 * k, k, f2(s));
    RotPlus(3 * k, f1(u), f1(u));
    RotRot(3 * k, 1 - k, f(u));
  }

  /** The state vector after an instruction that is not init or m, at every string; X and Y
      come with a factor of 2 and -2. */
  lemma IdealAmplitude(ins: M.Instruction, h: History, coins: Coins, s: Bits)
    requires Legal(ins, h.n) && |s| == h.n && !ins.bytecode.Initialize? && !ins.bytecode.Measure?
    ensures var g, q, t, f := IdealStep(ins, h, coins), ins.operands[0], ins.operands[1], h.f;
            && g.n == h.n && g.out == h.out && g.drawn == h.drawn
            && (ins.bytecode.Macro? || ins.bytecode.Identity? || q < h.n)
            && (ins.bytecode.Cnot? ==> t < h.n)
            && g.f(s) ==
                 match ins.bytecode
                 case Cnot => f(s[t := s[t] != s[q]])
                 case Hadamard => Plus(f(s[q := false]), Rot(if s[q] then 2 else 0, f(s[q := true])))
                 case Phase => Rot(if s[q] then 1 else 0, f(s))
                 case PauliX => Plus(f(s[q := !s[q]]), f(s[q := !s[q]]))
                 case PauliY =>
                   Plus(Rot(if s[q] then 3 else 1, f(s[q := !s[q]])), Rot(if s[q] then 3 else 1, f(s[q := !s[q]])))
                 case PauliZ => Rot(if s[q] then 2 else 0, f(s))
                 case _ => f(s)
  {
    hide GatesAct, Rot, Plus;
    var q, n := ins.operands[0], h.n;
    LegalOperands(ins, n);
    match ins.bytecode
    case Cnot => OneGateActs(Gate.Cnot(q, ins.operands[1]), h.f, n);
    case Hadamard => OneGateActs(Gate.Hadamard(q), h.f, n);
    case Phase => OneGateActs(Gate.Phase(q), h.f, n);
    case PauliX => XActs(q, h.f, n, s);
    case PauliY => YActs(q, h.f, n, s);
    case PauliZ => TwoPhasesAct(q, h.f, n, s);
    case _ => NothingActs(h.f, n);
  }

  lemma NothingActs(f: Amp, n: nat)
    ensures GatesAct([], f, n) == f
  {
  }
}
