/** The operations of universe.cpp and state/quantum_state.hpp as the steps they take on
    the containers, and the proof that all of them take locks in order. */
module Universe {
  import opened Options
  import opened Containers
  import opened LockOrder

  /** One call of the server; draws is the number of random bits its program uses. */
  datatype Operation =
    | CompileProgram(dialect: Key)
    | CompileMacro(kernel: Key, dialect: Key)
    | CreateKernel
    | DeleteKernel(kernel: Key)
    | CreateSystem
    | DeleteSystem(system: Key)
    | CreateState(system: Key, dialect: Key, draws: nat)
    | ModifyState(system: Key, state: Key, dialect: Key, draws: nat)
    | MeasureState(system: Key, state: Key, dialect: Key, draws: nat)
    | DeleteState(system: Key, state: Key)
    | ComputeResult(system: Key, dialect: Key, draws: nat)

  /** edit_item with its body. */
  function Edit(c: ContainerId, k: Key, body: seq<Cmd>): seq<Cmd>
  {
    [LockShared(c), Find(c, k), Spin(c, k)] + body + [Clear(c, k), Unlock(c)]
  }

  function Insert(c: ContainerId): seq<Cmd>
  {
    [LockUnique(c), InsertNext(c), Unlock(c)]
  }

  function EraseFrom(c: ContainerId, k: Key): seq<Cmd>
  {
    [LockUnique(c), Erase(c, k), Unlock(c)]
  }

  /** The count and the insertion are two operations: another thread may come between. */
  function InitializeInterpreter(d: Key): seq<Cmd>
  {
    [LockShared(Interpreters),
     CountThen(Interpreters, d, [Work, LockUnique(Interpreters), InsertNamed(Interpreters, d), Unlock(Interpreters)])]
  }

  function Compile(d: Key): seq<Cmd>
  {
    InitializeInterpreter(d) + Edit(Interpreters, d, [Work])
  }

  function Draws(k: nat): seq<Cmd>
  {
    if k == 0 then [] else [LockRng, UnlockRng] + Draws(k - 1)
  }

  /** The program is run on the state as it was found, and the result put back. */
  function RunOn(system: Key, state: Key, draws: nat): seq<Cmd>
  {
    Edit(States(system), state, [Load(States(system), state)] + Draws(draws) + [Store(States(system), state)])
  }

  function Script(op: Operation): seq<Cmd>
  {
    match op
    case CompileProgram(d) => Compile(d)
    case CompileMacro(k, d) => InitializeInterpreter(d) + Edit(Kernels, k, Compile(d) + Insert(Macros(k)))
    case CreateKernel => Insert(Kernels)
    case DeleteKernel(k) => EraseFrom(Kernels, k)
    case CreateSystem => Insert(Systems)
    case DeleteSystem(s) => EraseFrom(Systems, s)
    case CreateState(s, d, n) => Edit(Systems, s, Compile(d) + Draws(n) + Insert(States(s)))
    case ModifyState(s, k, d, n) => Edit(Systems, s, Compile(d) + RunOn(s, k, n))
    case MeasureState(s, k, d, n) => Edit(Systems, s, Compile(d) + RunOn(s, k, n))
    case DeleteState(s, k) => Edit(Systems, s, EraseFrom(States(s), k))
    case ComputeResult(s, d, n) => Edit(Systems, s, Compile(d) + Draws(n))
  }

  // ---------------------------------------------------------------- discipline

  lemma Next(v: View, cmd: Cmd, rest: seq<Cmd>)
    requires !cmd.CountThen? && Allowed(v, cmd) && Disciplined(After(v, cmd), rest)
    ensures Disciplined(v, [cmd] + rest)
  {
    hide Allowed, After;
    assert ([cmd] + rest)[1..] == rest;
  }

  lemma NextCount(v: View, c: ContainerId, k: Key, absent: seq<Cmd>, rest: seq<Cmd>)
    requires Allowed(v, CountThen(c, k, absent))
    requires Disciplined(v, [Unlock(c)] + absent + rest) && Disciplined(Counted(v, c, k), [Unlock(c)] + rest)
    ensures Disciplined(v, [CountThen(c, k, absent)] + rest)
  {
    hide Allowed, After;
    assert ([CountThen(c, k, absent)] + rest)[1..] == rest;
  }

  function Entered(v: View, c: ContainerId, k: Key): View
  {
    v.(held := v.held + [Hold(List(c), false), Hold(Flag(c, k), true)], found := v.found + {(c, k)})
  }

  /** Nothing of container c is in use. */
  predicate Fresh(v: View, c: ContainerId)
  {
    Above(v.held, List(c)) && Above(v.held, Flag(c, Id(0))) && Owned(v, c) && Inside(v, c)
    && v.loaded.None? && forall p :: p in v.found ==> p.0 != c
  }

  function Lock(c: ContainerId, exclusive: bool): Cmd
  {
    if exclusive then LockUnique(c) else LockShared(c)
  }

  /** A list may be locked, and unlocking it again leads back. */
  lemma LockUnlock(v: View, c: ContainerId, exclusive: bool, w: View)
    requires Fresh(v, c) && w == After(v, Lock(c, exclusive))
    ensures Allowed(v, Lock(c, exclusive)) && Allowed(w, Unlock(c))
    ensures HoldsAs(w.held, List(c), exclusive) && Newest(w, List(c)) && After(w, Unlock(c)) == v && Inside(w, c)
  {
    hide Rank, Above;
    StaysInside(v, w, c);
    assert w.held[|w.held| - 1] == Hold(List(c), exclusive);
    assert Popped(w.held) == v.held;
    assert (set p | p in w.found && p.0 != c) == v.found;
  }

  /** More locks do not lead out of an item. */
  lemma StaysInside(v: View, w: View, c: ContainerId)
    requires Inside(v, c) && v.held <= w.held
    ensures Inside(w, c)
  {
    match c
    case States(k) =>
      var i :| 0 <= i < |v.held| && v.held[i].lock == Flag(Systems, k);
      assert w.held[i].lock == Flag(Systems, k);
    case Macros(k) =>
      var i :| 0 <= i < |v.held| && v.held[i].lock == Flag(Kernels, k);
      assert w.held[i].lock == Flag(Kernels, k);
    case _ =>
  }

  /** The three steps into the body of an edit. */
  lemma Enters(v: View, c: ContainerId, k: Key)
    requires Fresh(v, c) && (c == Interpreters ==> k in v.known)
    ensures var v1 := After(v, LockShared(c));
            var v2 := After(v1, Find(c, k));
            && Allowed(v, LockShared(c)) && Allowed(v1, Find(c, k)) && Allowed(v2, Spin(c, k))
            && After(v2, Spin(c, k)) == Entered(v, c, k)
  {
    hide Rank;
    var v1 := After(v, LockShared(c));
    SameRank(c, k);
    StaysInside(v, v1, c);
    assert v1.held[|v1.held| - 1] == Hold(List(c), false);
    assert v.held + [Hold(List(c), false)] + [Hold(Flag(c, k), true)] == Entered(v, c, k).held;
  }

  /** An edit is disciplined if its body is, up to the clearing of the flag. */
  lemma EditDisciplined(v: View, c: ContainerId, k: Key, body: seq<Cmd>, rest: seq<Cmd>)
    requires Fresh(v, c) && (c == Interpreters ==> k in v.known)
    requires Disciplined(Entered(v, c, k), body + ([Clear(c, k), Unlock(c)] + rest))
    ensures Disciplined(v, Edit(c, k, body) + rest)
  {
    hide Disciplined, Fresh, Allowed, After, Entered;
    var tail := body + ([Clear(c, k), Unlock(c)] + rest);
    var v1 := After(v, LockShared(c));
    var v2 := After(v1, Find(c, k));
    Enters(v, c, k);
    Next(v2, Spin(c, k), tail);
    Next(v1, Find(c, k), [Spin(c, k)] + tail);
    Next(v, LockShared(c), [Find(c, k)] + ([Spin(c, k)] + tail));
    assert Edit(c, k, body) + rest == [LockShared(c)] + ([Find(c, k)] + ([Spin(c, k)] + tail));
  }

  lemma SameRank(c: ContainerId, k: Key)
    ensures Rank(Flag(c, k)) == Rank(Flag(c, Id(0))) == Rank(List(c)) + 1
  {
  }

  /** The end of an edit. */
  lemma EditEnds(v: View, c: ContainerId, k: Key, known: set<Key>, rest: seq<Cmd>)
    requires Fresh(v, c) && Disciplined(v.(known := known), rest)
    ensures Disciplined(Entered(v, c, k).(known := known), [Clear(c, k), Unlock(c)] + rest)
  {
    var w := Entered(v, c, k).(known := known);
    var w1 := After(w, Clear(c, k));
    var w2 := After(w1, Unlock(c));
    assert w1.held == v.held + [Hold(List(c), false)];
    assert w2.held == v.held && w2.found == v.found;
    assert w2 == v.(known := known);
    Next(w1, Unlock(c), rest);
    Next(w, Clear(c, k), [Unlock(c)] + rest);
    assert [Clear(c, k), Unlock(c)] + rest == [Clear(c, k)] + ([Unlock(c)] + rest);
  }

  lemma InsertDisciplined(v: View, c: ContainerId, rest: seq<Cmd>)
    requires Fresh(v, c) && c != Interpreters && Disciplined(v, rest)
    ensures Disciplined(v, Insert(c) + rest)
  {
    hide Disciplined, Fresh, HoldsAs, Newest, Above, Owned, Inside;
    var w := After(v, LockUnique(c));
    LockUnlock(v, c, true, w);
    Next(w, Unlock(c), rest);
    Next(w, InsertNext(c), [Unlock(c)] + rest);
    Next(v, LockUnique(c), [InsertNext(c)] + ([Unlock(c)] + rest));
    assert Insert(c) + rest == [LockUnique(c)] + ([InsertNext(c)] + ([Unlock(c)] + rest));
  }

  lemma EraseDisciplined(v: View, c: ContainerId, k: Key, rest: seq<Cmd>)
    requires Fresh(v, c) && c != Interpreters && Disciplined(v, rest)
    ensures Disciplined(v, EraseFrom(c, k) + rest)
  {
    hide Disciplined, Fresh, HoldsAs, Newest, Above, Owned, Inside;
    var w := After(v, LockUnique(c));
    LockUnlock(v, c, true, w);
    Next(w, Unlock(c), rest);
    Next(w, Erase(c, k), [Unlock(c)] + rest);
    Next(v, LockUnique(c), [Erase(c, k)] + ([Unlock(c)] + rest));
    assert EraseFrom(c, k) + rest == [LockUnique(c)] + ([Erase(c, k)] + ([Unlock(c)] + rest));
  }

  lemma OneDraw(v: View, rest: seq<Cmd>)
    requires Above(v.held, Rng) && Disciplined(v, rest)
    ensures Disciplined(v, [LockRng] + ([UnlockRng] + rest))
  {
    var w := After(v, LockRng);
    assert w.held[|w.held| - 1] == Hold(Rng, true);
    assert After(w, UnlockRng).held == v.held;
    Next(w, UnlockRng, rest);
    Next(v, LockRng, [UnlockRng] + rest);
  }

  lemma {:induction false} DrawsDisciplined(v: View, n: nat, rest: seq<Cmd>)
    requires Above(v.held, Rng) && Disciplined(v, rest)
    ensures Disciplined(v, Draws(n) + rest)
  {
    hide Disciplined, Above;
    if n == 0 {
      assert Draws(0) + rest == rest;
    } else {
      DrawsDisciplined(v, n - 1, rest);
      OneDraw(v, Draws(n - 1) + rest);
      assert Draws(n) + rest == [LockRng] + ([UnlockRng] + (Draws(n - 1) + rest));
    }
  }

  function Knowing(v: View, d: Key): View
  {
    v.(known := v.known + {d})
  }

  /** Whether the count was 0 or not, the interpreter is known to be there afterwards. */
  lemma InitializeDisciplined(v: View, d: Key, rest: seq<Cmd>)
    requires Fresh(v, Interpreters) && Disciplined(Knowing(v, d), rest)
    ensures Disciplined(v, InitializeInterpreter(d) + rest)
  {
    var c := Interpreters;
    var absent := [Work, LockUnique(c), InsertNamed(c, d), Unlock(c)];
    var v1 := After(v, LockShared(c));
    InitializeAbsent(v, v1, d, absent, rest);
    assert After(Counted(v1, c, d), Unlock(c)).held == v.held;
    assert After(Counted(v1, c, d), Unlock(c)).found == v.found;
    Next(Counted(v1, c, d), Unlock(c), rest);
    NextCount(v1, c, d, absent, rest);
    Next(v, LockShared(c), [CountThen(c, d, absent)] + rest);
    assert InitializeInterpreter(d) + rest == [LockShared(c)] + ([CountThen(c, d, absent)] + rest);
  }

  lemma InitializeAbsent(v: View, v1: View, d: Key, absent: seq<Cmd>, rest: seq<Cmd>)
    requires Fresh(v, Interpreters) && Disciplined(Knowing(v, d), rest) && v1 == After(v, LockShared(Interpreters))
    requires absent == [Work, LockUnique(Interpreters), InsertNamed(Interpreters, d), Unlock(Interpreters)]
    ensures Disciplined(v1, [Unlock(Interpreters)] + absent + rest)
  {
    hide Disciplined, Fresh, HoldsAs, Newest, Above, Owned, Inside;
    var c := Interpreters;
    LockUnlock(v, c, false, v1);
    var v3 := After(v, LockUnique(c));
    LockUnlock(v, c, true, v3);
    var v4 := After(v3, InsertNamed(c, d));
    StillUnlocks(v3, v4, c, d, v);
    Next(v4, Unlock(c), rest);
    Next(v3, InsertNamed(c, d), [Unlock(c)] + rest);
    Next(v, LockUnique(c), [InsertNamed(c, d)] + ([Unlock(c)] + rest));
    Next(v, Work, [LockUnique(c)] + ([InsertNamed(c, d)] + ([Unlock(c)] + rest)));
    Next(v1, Unlock(c), [Work] + ([LockUnique(c)] + ([InsertNamed(c, d)] + ([Unlock(c)] + rest))));
    assert [Unlock(c)] + absent + rest
        == [Unlock(c)] + ([Work] + ([LockUnique(c)] + ([InsertNamed(c, d)] + ([Unlock(c)] + rest))));
  }

  /** Registering an interpreter only adds to what is known. */
  lemma StillUnlocks(w: View, w': View, c: ContainerId, d: Key, v: View)
    requires c == Interpreters && w' == After(w, InsertNamed(c, d)) && Allowed(w, Unlock(c)) && After(w, Unlock(c)) == v
    requires v.known == w.known
    ensures Allowed(w', Unlock(c)) && After(w', Unlock(c)) == Knowing(v, d)
  {
    hide Rank, Above;
  }

  lemma CompileDisciplined(v: View, d: Key, rest: seq<Cmd>)
    requires Fresh(v, Interpreters) && Disciplined(Knowing(v, d), rest)
    ensures Disciplined(v, Compile(d) + rest)
  {
    hide Disciplined, InitializeInterpreter, Edit;
    var w := Knowing(v, d);
    var tail := [Clear(Interpreters, d), Unlock(Interpreters)] + rest;
    EditEnds(w, Interpreters, d, w.known, rest);
    assert Disciplined(Entered(w, Interpreters, d), tail) by {
      assert Entered(w, Interpreters, d).(known := w.known) == Entered(w, Interpreters, d);
    }
    assert After(Entered(w, Interpreters, d), Work) == Entered(w, Interpreters, d);
    Next(Entered(w, Interpreters, d), Work, tail);
    EditDisciplined(w, Interpreters, d, [Work], rest);
    InitializeDisciplined(v, d, Edit(Interpreters, d, [Work]) + rest);
    assert Compile(d) + rest == InitializeInterpreter(d) + (Edit(Interpreters, d, [Work]) + rest);
  }

  lemma RunOnDisciplined(v: View, s: Key, k: Key, n: nat, rest: seq<Cmd>)
    requires Fresh(v, States(s)) && Disciplined(v, rest)
    ensures Disciplined(v, RunOn(s, k, n) + rest)
  {
    var c := States(s);
    var w := Entered(v, c, k);
    var w1 := After(w, Load(c, k));
    var tail := [Clear(c, k), Unlock(c)] + rest;
    assert w.held[|w.held| - 1].lock == Flag(c, k);
    assert v.(known := v.known) == v && w.(known := v.known) == w;
    EditEnds(v, c, k, v.known, rest);
    assert After(w1, Store(c, k)) == w;
    Next(w1, Store(c, k), tail);
    DrawsDisciplined(w1, n, [Store(c, k)] + tail);
    Next(w, Load(c, k), Draws(n) + ([Store(c, k)] + tail));
    var body := [Load(c, k)] + Draws(n) + [Store(c, k)];
    assert body + tail == [Load(c, k)] + (Draws(n) + ([Store(c, k)] + tail));
    EditDisciplined(v, c, k, body, rest);
  }

  /** The view inside the body of an edit of a system or a kernel. */
  lemma InsideIsFresh(c: ContainerId, k: Key, d: Key)
    requires c == Systems || c == Kernels
    ensures var v := Entered(NOTHING, c, k);
            && Fresh(NOTHING, c) && Fresh(NOTHING, Interpreters) && Fresh(v, Interpreters) && Above(v.held, Rng)
            && (forall e :: e in Inner(c, k) ==> Fresh(Knowing(v, d), e) && Fresh(v, e))
            && Above(Knowing(v, d).held, Rng)
  {
    EnteredInside(NOTHING, c, k);
  }

  lemma EnteredInside(v: View, c: ContainerId, k: Key)
    ensures forall e :: e in Inner(c, k) ==> Inside(Entered(v, c, k), e)
  {
    assert Entered(v, c, k).held[|v.held| + 1].lock == Flag(c, k);
  }

  lemma CreateStateDisciplined(s: Key, d: Key, n: nat)
    ensures Disciplined(NOTHING, Script(CreateState(s, d, n)))
  {
    hide Disciplined, Fresh, Above;
    var v := Entered(NOTHING, Systems, s);
    var tail := [Clear(Systems, s), Unlock(Systems)] + [];
    InsideIsFresh(Systems, s, d);
    EndOfScript({d});
    EditEnds(NOTHING, Systems, s, {d}, []);
    assert NOTHING.known + {d} == {d};
    InsertDisciplined(Knowing(v, d), States(s), tail);
    DrawsDisciplined(Knowing(v, d), n, Insert(States(s)) + tail);
    CompileDisciplined(v, d, Draws(n) + (Insert(States(s)) + tail));
    var body := Compile(d) + Draws(n) + Insert(States(s));
    assert body + tail == Compile(d) + (Draws(n) + (Insert(States(s)) + tail));
    EditDisciplined(NOTHING, Systems, s, body, []);
    assert Edit(Systems, s, body) + [] == Edit(Systems, s, body);
  }

  lemma RunDisciplined(s: Key, k: Key, d: Key, n: nat)
    ensures Disciplined(NOTHING, Edit(Systems, s, Compile(d) + RunOn(s, k, n)))
  {
    hide Disciplined, Fresh, Above;
    var v := Entered(NOTHING, Systems, s);
    var tail := [Clear(Systems, s), Unlock(Systems)] + [];
    InsideIsFresh(Systems, s, d);
    EndOfScript({d});
    EditEnds(NOTHING, Systems, s, {d}, []);
    assert NOTHING.known + {d} == {d};
    RunOnDisciplined(Knowing(v, d), s, k, n, tail);
    CompileDisciplined(v, d, RunOn(s, k, n) + tail);
    var body := Compile(d) + RunOn(s, k, n);
    assert body + tail == Compile(d) + (RunOn(s, k, n) + tail);
    EditDisciplined(NOTHING, Systems, s, body, []);
    assert Edit(Systems, s, body) + [] == Edit(Systems, s, body);
  }

  lemma ComputeDisciplined(s: Key, d: Key, n: nat)
    ensures Disciplined(NOTHING, Script(ComputeResult(s, d, n)))
  {
    hide Disciplined, Fresh, Above;
    var v := Entered(NOTHING, Systems, s);
    var tail := [Clear(Systems, s), Unlock(Systems)] + [];
    InsideIsFresh(Systems, s, d);
    EndOfScript({d});
    EditEnds(NOTHING, Systems, s, {d}, []);
    assert NOTHING.known + {d} == {d};
    DrawsDisciplined(Knowing(v, d), n, tail);
    CompileDisciplined(v, d, Draws(n) + tail);
    var body := Compile(d) + Draws(n);
    assert body + tail == Compile(d) + (Draws(n) + tail);
    EditDisciplined(NOTHING, Systems, s, body, []);
    assert Edit(Systems, s, body) + [] == Edit(Systems, s, body);
  }

  lemma DeleteStateDisciplined(s: Key, k: Key)
    ensures Disciplined(NOTHING, Script(DeleteState(s, k)))
  {
    hide Disciplined, Fresh, Above;
    var v := Entered(NOTHING, Systems, s);
    var tail := [Clear(Systems, s), Unlock(Systems)] + [];
    InsideIsFresh(Systems, s, k);
    EndOfScript({});
    EditEnds(NOTHING, Systems, s, {}, []);
    assert v.(known := {}) == v;
    EraseDisciplined(v, States(s), k, tail);
    EditDisciplined(NOTHING, Systems, s, EraseFrom(States(s), k), []);
    var body := EraseFrom(States(s), k);
    assert Edit(Systems, s, body) + [] == Edit(Systems, s, body);
  }

  lemma CompileMacroDisciplined(k: Key, d: Key)
    ensures Disciplined(NOTHING, Script(CompileMacro(k, d)))
  {
    hide Disciplined, Fresh, Above;
    var u := Knowing(NOTHING, d);
    var v := Entered(u, Kernels, k);
    var tail := [Clear(Kernels, k), Unlock(Kernels)] + [];
    KernelIsFresh(k, d);
    EndOfScript({d});
    assert NOTHING.known + {d} == {d};
    assert u.(known := {d}) == u && v.(known := {d}) == v && Knowing(v, d) == v;
    EditEnds(u, Kernels, k, {d}, []);
    InsertDisciplined(v, Macros(k), tail);
    CompileDisciplined(v, d, Insert(Macros(k)) + tail);
    var body := Compile(d) + Insert(Macros(k));
    assert body + tail == Compile(d) + (Insert(Macros(k)) + tail);
    EditDisciplined(u, Kernels, k, body, []);
    assert Edit(Kernels, k, body) + [] == Edit(Kernels, k, body);
    InitializeDisciplined(NOTHING, d, Edit(Kernels, k, body));
  }

  lemma KernelIsFresh(k: Key, d: Key)
    ensures var u := Knowing(NOTHING, d); var v := Entered(u, Kernels, k);
            Fresh(NOTHING, Interpreters) && Fresh(u, Kernels) && Fresh(v, Interpreters) && Fresh(v, Macros(k))
  {
    EnteredInside(Knowing(NOTHING, d), Kernels, k);
  }

  lemma EndOfScript(known: set<Key>)
    ensures Disciplined(NOTHING.(known := known), [])
  {
  }

  lemma SimpleDisciplined(c: ContainerId, k: Key, d: Key)
    requires c == Systems || c == Kernels
    ensures Disciplined(NOTHING, Insert(c)) && Disciplined(NOTHING, EraseFrom(c, k)) && Disciplined(NOTHING, Compile(d))
  {
    hide Disciplined, Above;
    EndOfScript({});
    EndOfScript({d});
    assert NOTHING.(known := {}) == NOTHING && NOTHING.known + {d} == {d};
    InsideIsFresh(c, k, d);
    InsertDisciplined(NOTHING, c, []);
    EraseDisciplined(NOTHING, c, k, []);
    CompileDisciplined(NOTHING, d, []);
    assert Insert(c) + [] == Insert(c);
    assert EraseFrom(c, k) + [] == EraseFrom(c, k);
    assert Compile(d) + [] == Compile(d);
  }

  /** Every operation of the server, started with no locks held, takes its locks in strictly
      increasing rank, touches only what it has locked, and ends with no lock held. */
  lemma ScriptDisciplined(op: Operation)
    ensures Disciplined(NOTHING, Script(op))
  {
    hide Disciplined, Edit, Insert, EraseFrom, Compile, Draws, RunOn, InitializeInterpreter;
    match op
    case CompileProgram(d) => SimpleDisciplined(Systems, d, d);
    case CompileMacro(k, d) => CompileMacroDisciplined(k, d);
    case CreateKernel => SimpleDisciplined(Kernels, Id(0), Id(0));
    case DeleteKernel(k) => SimpleDisciplined(Kernels, k, k);
    case CreateSystem => SimpleDisciplined(Systems, Id(0), Id(0));
    case DeleteSystem(s) => SimpleDisciplined(Systems, s, s);
    case CreateState(s, d, n) => CreateStateDisciplined(s, d, n);
    case ModifyState(s, k, d, n) => RunDisciplined(s, k, d, n);
    case MeasureState(s, k, d, n) => RunDisciplined(s, k, d, n);
    case DeleteState(s, k) => DeleteStateDisciplined(s, k);
    case ComputeResult(s, d, n) => ComputeDisciplined(s, d, n);
  }
}
