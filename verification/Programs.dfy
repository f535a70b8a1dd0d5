/** Running a program (state/chp_state.hpp:532-608) and what the run means: the
    simulator agrees with a simulation of the state vector itself. */
module Programs {
  import opened Paulis
  import opened Gates
  import opened Amplitudes
  import opened Projections
  import opened Tableaus
  import opened Measurement
  import opened Descriptions
  import M = Machine

  /** The gates that one instruction applies, in order. */
  function GatesOf(ins: M.Instruction): seq<Gate>
  {
    var q := ins.operands[0];
    match ins.bytecode
    case Hadamard => [Hadamard(q)]
    case Phase => [Phase(q)]
    case Cnot => [Cnot(q, ins.operands[1])]
    case PauliX => [Hadamard(q), Phase(q), Phase(q), Hadamard(q)]
    case PauliY => [Phase(q), Hadamard(q), Phase(q), Phase(q), Hadamard(q), Phase(q), Phase(q), Phase(q)]
    case PauliZ => [Phase(q), Phase(q)]
    case _ => []
  }

  /** The operands address qubits that exist; a CNOT has two different ones. */
  predicate Legal(ins: M.Instruction, n: nat)
  {
    (ins.bytecode.Measure? ==> ins.operands[0] < n) && AllAct(GatesOf(ins), n)
  }

  predicate AllAct(gs: seq<Gate>, n: nat)
  {
    forall i :: 0 <= i < |gs| ==> Acts(gs[i], n)
  }

  function SizeAfter(ins: M.Instruction, n: nat): nat
  {
    if ins.bytecode.Initialize? then ins.operands[0] else n
  }

  predicate LegalProgram(prog: M.Program, n: nat)
  {
    prog == [] || (Legal(prog[0], n) && LegalProgram(prog[1..], SizeAfter(prog[0], n)))
  }

  /** The random bits, in the order in which they would be drawn. */
  type Coins = nat -> bool

  datatype Sim = Sim(n: nat, rows: Rows)

  /** A simulator, the characters recorded and the number of random bits drawn. */
  datatype Config = Config(sim: Sim, out: string, drawn: nat)

  ghost predicate Good(sim: Sim)
  {
    Invariant(sim.n, sim.rows)
  }

  function Blank(): (c: Config)
    ensures Good(c.sim)
  {
    InitialInvariant(0);
    Config(Sim(0, InitialRows(0)), "", 0)
  }

  function GatesRun(gs: seq<Gate>, sim: Sim): (sim': Sim)
    requires Good(sim) && AllAct(gs, sim.n)
    ensures Good(sim') && sim'.n == sim.n
  {
    if gs == [] then sim
    else
      GateInvariant(gs[0], sim.rows, sim.n);
      GatesRun(gs[1..], Sim(sim.n, GateRows(gs[0], sim.rows, sim.n)))
  }

  function Step(ins: M.Instruction, c: Config, coins: Coins): (c': Config)
    requires Good(c.sim) && Legal(ins, c.sim.n)
    ensures Good(c'.sim) && c'.sim.n == SizeAfter(ins, c.sim.n)
  {
    if ins.bytecode.Initialize? then
      InitialInvariant(ins.operands[0]);
      c.(sim := Sim(ins.operands[0], InitialRows(ins.operands[0])))
    else if ins.bytecode.Measure? then
      MeasureInvariant(c.sim.n, c.sim.rows, ins.operands[0], coins(c.drawn));
      var m := Measure(c.sim.n, c.sim.rows, ins.operands[0], coins(c.drawn));
      Config(Sim(c.sim.n, m.rows), c.out + [if m.outcome then '1' else '0'], c.drawn + if m.drew then 1 else 0)
    else c.(sim := GatesRun(GatesOf(ins), c.sim))
  }

  function Run(prog: M.Program, c: Config, coins: Coins): (c': Config)
    requires Good(c.sim) && LegalProgram(prog, c.sim.n)
    ensures Good(c'.sim)
  {
    if prog == [] then c else Run(prog[1..], Step(prog[0], c, coins), coins)
  }

  lemma MeasureInvariant(n: nat, rows: Rows, b: nat, coin: bool)
    requires Invariant(n, rows) && b < n
    ensures Invariant(n, Measure(n, rows, b, coin).rows)
  {
    hide Complete, Canonical, RandomRow, Symp;
    var p := FindX(rows, b, n, n, 2 * n);
    if p < 2 * n { RandomInvariant(n, rows, b, p - n, coin); }
  }

  // ---------------------------------------------------------------- splitting

  lemma {:induction false} LegalSplit(p: M.Program, q: M.Program, n: nat)
    ensures LegalProgram(p + q, n) <==> LegalProgram(p, n) && LegalProgram(q, FinalSize(p, n))
  {
    hide Legal;
    if p == [] {
      assert p + q == q;
    } else {
      assert (p + q)[1..] == p[1..] + q;
      LegalSplit(p[1..], q, SizeAfter(p[0], n));
    }
  }

  function FinalSize(p: M.Program, n: nat): nat
  {
    if p == [] then n else FinalSize(p[1..], SizeAfter(p[0], n))
  }

  lemma {:induction false} RunSize(p: M.Program, c: Config, coins: Coins)
    requires Good(c.sim) && LegalProgram(p, c.sim.n)
    ensures Run(p, c, coins).sim.n == FinalSize(p, c.sim.n)
  {
    hide Step, Legal, Good;
    if p != [] { RunSize(p[1..], Step(p[0], c, coins), coins); }
  }

  /** Running two programs one after the other is running their concatenation. */
  lemma {:induction false} RunSplit(p: M.Program, q: M.Program, c: Config, coins: Coins)
    requires Good(c.sim) && LegalProgram(p + q, c.sim.n)
    ensures LegalProgram(p, c.sim.n) && LegalProgram(q, Run(p, c, coins).sim.n)
    ensures Run(p + q, c, coins) == Run(q, Run(p, c, coins), coins)
  {
    hide Step, Legal, Good;
    LegalSplit(p, q, c.sim.n);
    RunSize(p, c, coins);
    if p == [] {
      assert p + q == q;
    } else {
      assert (p + q)[1..] == p[1..] + q;
      RunSplit(p[1..], q, Step(p[0], c, coins), coins);
    }
  }

  /** The record only grows, and what is already in it has no influence. */
  lemma {:induction false} RunRecord(p: M.Program, c: Config, coins: Coins)
    requires Good(c.sim) && LegalProgram(p, c.sim.n)
    ensures var d := Run(p, c.(out := ""), coins);
            Run(p, c, coins) == d.(out := c.out + d.out)
  {
    hide Measure, GatesRun, InitialRows, Legal;
    var e := c.(out := "");
    if p != [] {
      var c1, e1 := Step(p[0], c, coins), Step(p[0], e, coins);
      assert c1 == e1.(out := c.out + e1.out);
      RunRecord(p[1..], c1, coins);
      RunRecord(p[1..], e1, coins);
      assert c1.(out := "") == e1.(out := "");
    }
  }

  // ---------------------------------------------------------------- the state vector

  /** An unnormalised state vector on n qubits with the record of its measurements. */
  datatype History = History(n: nat, f: Amp, out: string, drawn: nat)

  function Basis(n: nat): Amp
  {
    (s: Bits) => if s == Zeros(n) then ONE else ZERO
  }

  function GatesAct(gs: seq<Gate>, f: Amp, n: nat): Amp
    requires AllAct(gs, n)
  {
    if gs == [] then f else GatesAct(gs[1..], ApplyGate(gs[0], f, n), n)
  }

  /** One instruction on the state vector. A measurement uses a random bit when both
      outcomes are possible, and reports the only possible one otherwise. */
  ghost function IdealStep(ins: M.Instruction, h: History, coins: Coins): (h': History)
    requires Legal(ins, h.n)
    ensures h'.n == SizeAfter(ins, h.n)
  {
    if ins.bytecode.Initialize? then h.(n := ins.operands[0], f := Basis(ins.operands[0]))
    else if ins.bytecode.Measure? then
      var b := ins.operands[0];
      var draw := Possible(h.f, b, false, h.n) && Possible(h.f, b, true, h.n);
      var o := if draw then coins(h.drawn) else Possible(h.f, b, true, h.n);
      History(h.n, Project(h.f, b, o, h.n), h.out + [if o then '1' else '0'], h.drawn + if draw then 1 else 0)
    else h.(f := GatesAct(GatesOf(ins), h.f, h.n))
  }

  ghost function Ideal(prog: M.Program, h: History, coins: Coins): History
    requires LegalProgram(prog, h.n)
  {
    if prog == [] then h else Ideal(prog[1..], IdealStep(prog[0], h, coins), coins)
  }

  /** The tableau describes the state vector, and both have recorded the same. */
  ghost predicate Agrees(c: Config, h: History)
  {
    && Good(c.sim) && c.sim.n == h.n && Describes(h.n, c.sim.rows, h.f)
    && c.out == h.out && c.drawn == h.drawn
  }

  lemma BasisStabilised(n: nat, b: nat)
    requires b < n
    ensures Stabilises(UnitZ(n, b, 0), Basis(n), n)
  {
    hide Stabilises, UnitZ;
    UnitZStabilises(Basis(n), b, false, n);
  }

  lemma InitialDescribes(n: nat)
    ensures Invariant(n, InitialRows(n)) && Describes(n, InitialRows(n), Basis(n))
  {
    hide Stabilises, UnitZ, UnitX, Complete, Canonical;
    InitialInvariant(n);
    assert Basis(n)(Zeros(n)) == ONE;
    forall i | n <= i < 2 * n ensures Stabilises(InitialRows(n)[i], Basis(n), n) {
      BasisStabilised(n, i - n);
    }
  }

  lemma GateDescribes(g: Gate, n: nat, rows: Rows, f: Amp)
    requires Invariant(n, rows) && Acts(g, n) && Describes(n, rows, f)
    ensures Invariant(n, GateRows(g, rows, n)) && Describes(n, GateRows(g, rows, n), ApplyGate(g, f, n))
  {
    hide Complete, Canonical, Stabilises, GateRow, ApplyGate;
    GateInvariant(g, rows, n);
    GateNonzero(g, f, n);
    forall i | n <= i < 2 * n ensures Stabilises(GateRow(g, rows[i], n), ApplyGate(g, f, n), n) {
      GateStabilises(g, rows[i], f, n);
    }
  }

  lemma {:induction false} GatesDescribe(gs: seq<Gate>, sim: Sim, f: Amp)
    requires Good(sim) && AllAct(gs, sim.n) && Describes(sim.n, sim.rows, f)
    ensures Describes(sim.n, GatesRun(gs, sim).rows, GatesAct(gs, f, sim.n))
  {
    hide Complete, Canonical, Describes, ApplyGate, Shape;
    if gs != [] {
      GateDescribes(gs[0], sim.n, sim.rows, f);
      GatesDescribe(gs[1..], Sim(sim.n, GateRows(gs[0], sim.rows, sim.n)), ApplyGate(gs[0], f, sim.n));
    }
  }

  lemma StepRefines(ins: M.Instruction, c: Config, h: History, coins: Coins)
    requires Agrees(c, h) && Legal(ins, h.n)
    ensures Agrees(Step(ins, c, coins), IdealStep(ins, h, coins))
  {
    hide Invariant, Describes, GatesRun, GatesAct, Project, Possible, Measure;
    if ins.bytecode.Initialize? {
      InitialDescribes(ins.operands[0]);
    } else if ins.bytecode.Measure? {
      MeasureSound(c.sim.n, c.sim.rows, ins.operands[0], coins(c.drawn), h.f);
    } else {
      GatesDescribe(GatesOf(ins), c.sim, h.f);
    }
  }

  /** End to end: on the same random bits the tableau simulator records exactly what the
      simulation of the state vector records, draws as many bits, and its stabilizer rows
      fix the final state vector, which is not zero. */
  lemma {:induction false} RunRefines(prog: M.Program, c: Config, h: History, coins: Coins)
    requires Agrees(c, h) && LegalProgram(prog, h.n)
    ensures Agrees(Run(prog, c, coins), Ideal(prog, h, coins))
  {
    hide Describes, Invariant, Step, IdealStep, Legal;
    if prog != [] {
      StepRefines(prog[0], c, h, coins);
      RunRefines(prog[1..], Step(prog[0], c, coins), IdealStep(prog[0], h, coins), coins);
    }
  }

  /** Before any instruction the simulator holds no qubits, which is the state 1. */
  lemma BlankAgrees()
    ensures Agrees(Blank(), History(0, Basis(0), "", 0))
  {
    assert Basis(0)([]) == ONE;
  }

  /** Wherever a run draws a random bit, the two outcomes have equal nonzero weight in the
      state vector, and where it draws none the other outcome has no weight. */
  lemma DrawsAreFair(p: M.Program, b: nat, c: Config, h: History, coins: Coins)
    requires Agrees(c, h) && LegalProgram(p, h.n) && b < FinalSize(p, h.n)
    ensures Good(Run(p, c, coins).sim) && Run(p, c, coins).sim.n == Ideal(p, h, coins).n == FinalSize(p, h.n)
    ensures var d, f := Run(p, c, coins), Ideal(p, h, coins).f;
            var m := Measure(d.sim.n, d.sim.rows, b, coins(d.drawn));
            && (m.drew ==> Weight(f, b, false, d.sim.n) == Weight(f, b, true, d.sim.n) > 0)
            && (!m.drew ==> Weight(f, b, !m.outcome, d.sim.n) == 0 < Weight(f, b, m.outcome, d.sim.n))
  {
    hide Describes, Invariant, Run, Ideal, Measure, Weight, Possible;
    RunRefines(p, c, h, coins);
    RunSize(p, c, coins);
    var d, f := Run(p, c, coins), Ideal(p, h, coins).f;
    MeasureSound(d.sim.n, d.sim.rows, b, coins(d.drawn), f);
    var m := Measure(d.sim.n, d.sim.rows, b, coins(d.drawn));
    WeightPositive(f, b, m.outcome, d.sim.n);
    if !m.drew { ImpossibleWeight(f, b, !m.outcome, d.sim.n); }
  }

  // ---------------------------------------------------------------- measuring again

  predicate OnlyMeasures(p: M.Program)
  {
    forall i :: 0 <= i < |p| ==> p[i].bytecode.Measure?
  }

  lemma {:induction false} MeasuresKeepSettled(p: M.Program, h: History, coins: Coins, b: nat, o: bool)
    requires LegalProgram(p, h.n) && OnlyMeasures(p) && b < h.n && Settled(h.f, b, o, h.n)
    ensures Ideal(p, h, coins).n == h.n && Settled(Ideal(p, h, coins).f, b, o, h.n)
  {
    hide Possible;
    if p != [] {
      MeasuresKeepSettled(p[1..], IdealStep(p[0], h, coins), coins, b, o);
    }
  }

  lemma MeasureAgainDescribed(c: Config, h: History, coins: Coins, b: nat, p: M.Program, coin: bool)
    requires Agrees(c, h) && b < h.n && LegalProgram(p, h.n) && OnlyMeasures(p)
    ensures var m := Measure(h.n, c.sim.rows, b, coins(c.drawn));
            && Good(Sim(h.n, m.rows))
            && var d := Run(p, Config(Sim(h.n, m.rows), "", c.drawn + if m.drew then 1 else 0), coins);
            d.sim.n == h.n && Measure(h.n, d.sim.rows, b, coin) == Measured(d.sim.rows, m.outcome, false)
  {
    hide Describes, Invariant, Run, Ideal, Measure, Weight, LegalProgram, Project, Possible;
    MeasureSound(h.n, c.sim.rows, b, coins(c.drawn), h.f);
    var m := Measure(h.n, c.sim.rows, b, coins(c.drawn));
    var e := Config(Sim(h.n, m.rows), "", c.drawn + if m.drew then 1 else 0);
    var h' := History(h.n, Project(h.f, b, m.outcome, h.n), "", e.drawn);
    RunRefines(p, e, h', coins);
    ProjectSettles(h.f, b, m.outcome, h.n);
    MeasuresKeepSettled(p, h', coins, b, m.outcome);
    var d, f := Run(p, e, coins), Ideal(p, h', coins).f;
    MeasureSound(h.n, d.sim.rows, b, coin, f);
    SettledImpossible(f, b, m.outcome, h.n);
  }

  /** Measuring b again, after any run of other measurements, draws no random bit, gives
      the same outcome and leaves rows 0..2n-1 as they are. */
  lemma MeasureAgain(c: Config, coins: Coins, b: nat, p: M.Program, coin: bool)
    requires Good(c.sim) && b < c.sim.n && LegalProgram(p, c.sim.n) && OnlyMeasures(p)
    ensures var n := c.sim.n;
            var m := Measure(n, c.sim.rows, b, coins(c.drawn));
            && Good(Sim(n, m.rows))
            && var d := Run(p, Config(Sim(n, m.rows), "", c.drawn + if m.drew then 1 else 0), coins);
            d.sim.n == n && Measure(n, d.sim.rows, b, coin) == Measured(d.sim.rows, m.outcome, false)
  {
    hide Describes, Invariant, Run, Measure, LegalProgram;
    var f := DescribesSome(c.sim.n, c.sim.rows);
    MeasureAgainDescribed(c, History(c.sim.n, f, c.out, c.drawn), coins, b, p, coin);
  }

  // ---------------------------------------------------------------- Pauli gates

  function GatesRow(gs: seq<Gate>, p: Pauli, n: nat): (p': Pauli)
    requires Fits(p, n) && AllAct(gs, n)
    ensures Fits(p', n)
  {
    if gs == [] then p else GatesRow(gs[1..], GateRow(gs[0], p, n), n)
  }

  /** A composed gate treats the rows one by one. */
  lemma {:induction false} GatesRunByRow(gs: seq<Gate>, sim: Sim, i: nat)
    requires Good(sim) && AllAct(gs, sim.n) && i < 2 * sim.n
    ensures |GatesRun(gs, sim).rows| == 2 * sim.n && GatesRun(gs, sim).rows[i] == GatesRow(gs, sim.rows[i], sim.n)
  {
    hide GateRow, Complete, Canonical;
    if gs != [] {
      GateInvariant(gs[0], sim.rows, sim.n);
      GatesRunByRow(gs[1..], Sim(sim.n, GateRows(gs[0], sim.rows, sim.n)), i);
    }
  }

  function Negated(p: Pauli, flip: bool): Pauli
  {
    if flip then p.(r := (p.r + 2) % 4) else p
  }

  lemma {:induction false} GatesRowAppend(gs: seq<Gate>, hs: seq<Gate>, p: Pauli, n: nat)
    requires Fits(p, n) && AllAct(gs, n) && AllAct(hs, n)
    ensures AllAct(gs + hs, n) && GatesRow(gs + hs, p, n) == GatesRow(hs, GatesRow(gs, p, n), n)
  {
    hide GateRow;
    if gs == [] {
      assert gs + hs == hs;
    } else {
      assert (gs + hs)[1..] == gs[1..] + hs;
      GatesRowAppend(gs[1..], hs, GateRow(gs[0], p, n), n);
    }
  }

  lemma OneGate(g: Gate, p: Pauli, n: nat)
    requires Fits(p, n) && Acts(g, n)
    ensures AllAct([g], n) && GatesRow([g], p, n) == GateRow(g, p, n)
  {
    hide GateRow;
  }

  lemma PhaseTwice(q: nat, p: Pauli, n: nat)
    requires Fits(p, n) && q < n
    ensures PhaseRow(PhaseRow(p, q, n), q, n) == Negated(p, p.x[q])
  {
    assert PhaseRow(PhaseRow(p, q, n), q, n).z == p.z;
  }

  lemma HadamardAround(q: nat, p: Pauli, n: nat)
    requires Fits(p, n) && q < n
    ensures var p1 := HadamardRow(p, q, n); HadamardRow(Negated(p1, p1.x[q]), q, n) == Negated(p, p.z[q])
  {
    var p1 := HadamardRow(p, q, n);
    var p2 := HadamardRow(Negated(p1, p1.x[q]), q, n);
    assert p2.x == p.x && p2.z == p.z;
  }

  lemma PhaseAround(q: nat, p: Pauli, n: nat)
    requires Fits(p, n) && q < n
    ensures var p1 := PhaseRow(p, q, n); var p6 := PhaseRow(Negated(p1, p1.z[q]), q, n);
            Negated(p6, p6.x[q]) == Negated(p, p.x[q] != p.z[q])
  {
    var p1 := PhaseRow(p, q, n);
    var p6 := PhaseRow(Negated(p1, p1.z[q]), q, n);
    assert p6.x == p.x && p6.z == p.z;
  }

  lemma SSRow(q: nat, p: Pauli, n: nat)
    requires Fits(p, n) && q < n
    ensures GatesRow([Phase(q), Phase(q)], p, n) == Negated(p, p.x[q])
  {
    hide PhaseRow, GatesRow, Negated;
    var s := Phase(q);
    assert [s, s] == [s] + [s];
    OneGate(s, p, n);
    OneGate(s, PhaseRow(p, q, n), n);
    GatesRowAppend([s], [s], p, n);
    PhaseTwice(q, p, n);
  }

  lemma HSSHRow(q: nat, p: Pauli, n: nat)
    requires Fits(p, n) && q < n
    ensures GatesRow([Hadamard(q), Phase(q), Phase(q), Hadamard(q)], p, n) == Negated(p, p.z[q])
  {
    hide HadamardRow, PhaseRow, GatesRow, Negated;
    var h, s := Hadamard(q), Phase(q);
    var p1 := HadamardRow(p, q, n);
    assert [h, s, s, h] == [h] + [s, s] + [h];
    OneGate(h, p, n);
    SSRow(q, p1, n);
    GatesRowAppend([h], [s, s], p, n);
    GatesRowAppend([h] + [s, s], [h], p, n);
    OneGate(h, GatesRow([h] + [s, s], p, n), n);
    HadamardAround(q, p, n);
  }

  lemma SHSSHSSSRow(q: nat, p: Pauli, n: nat)
    requires Fits(p, n) && q < n
    ensures var h, s := Hadamard(q), Phase(q);
            GatesRow([s, h, s, s, h, s, s, s], p, n) == Negated(p, p.x[q] != p.z[q])
  {
    hide HadamardRow, PhaseRow, GatesRow, Negated;
    var h, s := Hadamard(q), Phase(q);
    var a, b, c := [s], [h, s, s, h], [s, s];
    assert [s, h, s, s, h, s, s, s] == a + b + a + c;
    var p1 := PhaseRow(p, q, n);
    OneGate(s, p, n);
    HSSHRow(q, p1, n);
    GatesRowAppend(a, b, p, n);
    GatesRowAppend(a + b, a, p, n);
    var p5 := GatesRow(a + b, p, n);
    OneGate(s, p5, n);
    GatesRowAppend(a + b + a, c, p, n);
    SSRow(q, PhaseRow(p5, q, n), n);
    PhaseAround(q, p, n);
  }

  /** H S S H, S H S S H S S S and S S only change signs, as X, Y and Z must: of the rows
      that anticommute with them. */
  lemma PauliGates(ins: M.Instruction, p: Pauli, n: nat)
    requires Fits(p, n) && ins.operands[0] < n
    requires ins.bytecode.PauliX? || ins.bytecode.PauliY? || ins.bytecode.PauliZ?
    ensures AllAct(GatesOf(ins), n)
    ensures var q := ins.operands[0];
            GatesRow(GatesOf(ins), p, n) == Negated(p,
              if ins.bytecode.PauliX? then p.z[q]
              else if ins.bytecode.PauliY? then p.x[q] != p.z[q]
              else p.x[q])
  {
    hide GatesRow, Negated;
    var q := ins.operands[0];
    SSRow(q, p, n);
    HSSHRow(q, p, n);
    SHSSHSSSRow(q, p, n);
  }
}
