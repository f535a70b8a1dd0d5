/** How the server runs programs on states (state/chp_state.cpp:29-58,
    state/quantum_state.hpp:32-66): encode a new one, modify or measure a stored one,
    or compute a result on one that is thrown away. */
module QuantumStates {
  import opened Tableaus
  import opened Programs
  import opened Buffers
  import opened Utility
  import opened ChpStates
  import M = Machine

  method EncodeState(prog: M.Program, coins: Coins, drawn: nat) returns (state: ChpState, drawn': nat)
    requires LegalProgram(prog, 0) && |prog| + WORD_SIZE < WORD_RANGE
    ensures fresh(state) && state.Valid()
    ensures var c := Run(prog, Blank().(drawn := drawn), coins);
            state.Abstract(c.out, drawn') == c
  {
    hide Run, Good, LegalProgram;
    state := new ChpState();
    BlankState(state);
    var empty := new StringBuffer();
    drawn' := state.RunProgram(prog, empty, coins, drawn);
  }

  /** A state before any instruction is the blank configuration. */
  lemma BlankState(state: ChpState)
    requires state.Valid() && state.n == 0
    ensures Good(Sim(state.n, state.Rows())) && Sim(state.n, state.Rows()) == Blank().sim
  {
    assert state.Rows() == InitialRows(0);
    InitialInvariant(0);
  }

  /** The results of a program run only to change a state are dropped. */
  method ModifyState(state: ChpState, prog: M.Program, coins: Coins, drawn: nat) returns (drawn': nat)
    requires state.Valid() && Good(Sim(state.n, state.Rows())) && LegalProgram(prog, state.n)
    requires |prog| + WORD_SIZE < WORD_RANGE
    modifies state, state.x, state.z, state.r
    ensures state.Valid()
    ensures var c := Run(prog, old(state.Abstract("", drawn)), coins);
            state.Abstract(c.out, drawn') == c
  {
    hide Run, Good, LegalProgram;
    var empty := new StringBuffer();
    drawn' := state.RunProgram(prog, empty, coins, drawn);
  }

  method MeasureState(state: ChpState, prog: M.Program, buffer: StringBuffer, coins: Coins, drawn: nat)
    returns (drawn': nat)
    requires state.Valid() && Good(Sim(state.n, state.Rows())) && LegalProgram(prog, state.n)
    requires buffer.Valid() && |buffer.Text()| + |prog| + WORD_SIZE < WORD_RANGE
    modifies state, state.x, state.z, state.r, buffer.base, buffer.base.stack, buffer.base.heap
    ensures state.Valid() && buffer.Valid()
    ensures state.Abstract(buffer.Text(), drawn') == Run(prog, old(state.Abstract(buffer.Text(), drawn)), coins)
  {
    drawn' := state.RunProgram(prog, buffer, coins, drawn);
  }

  /** The whole program at once, on a state that is not kept. */
  method ComputeResult(prog: M.Program, buffer: StringBuffer, coins: Coins, drawn: nat) returns (drawn': nat)
    requires LegalProgram(prog, 0)
    requires buffer.Valid() && |buffer.Text()| + |prog| + WORD_SIZE < WORD_RANGE
    modifies buffer.base, buffer.base.stack, buffer.base.heap
    ensures buffer.Valid()
    ensures var c := Run(prog, Config(Blank().sim, old(buffer.Text()), drawn), coins);
            buffer.Text() == c.out && drawn' == c.drawn
  {
    hide Run, Good, LegalProgram;
    var temp := new ChpState();
    BlankState(temp);
    drawn' := temp.RunProgram(prog, buffer, coins, drawn);
  }

  /** Splitting a program does not change its meaning: computing p followed by q records
      what p records and then exactly what measuring with q records on the state encoded
      with p; the tableaus and the random bits used agree. */
  lemma ComputeIsEncodeThenMeasure(p: M.Program, q: M.Program, coins: Coins, drawn: nat)
    requires LegalProgram(p + q, 0)
    ensures LegalProgram(p, 0)
    ensures var encoded := Run(p, Blank().(drawn := drawn), coins);
            && LegalProgram(q, encoded.sim.n)
            && var measured := Run(q, encoded.(out := ""), coins);
               Run(p + q, Blank().(drawn := drawn), coins) == measured.(out := encoded.out + measured.out)
  {
    hide Good, LegalProgram;
    var start := Blank().(drawn := drawn);
    RunSplit(p, q, start, coins);
    RunRecord(q, Run(p, start, coins), coins);
  }
}
