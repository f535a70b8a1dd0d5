/** What each operation of the server does: exactly its own look-ups, insertions, edits and
    erasures, and its own random bits, in every run. */
module Effects {
  import opened Options
  import opened Containers
  import opened LockOrder
  import opened Universe
  import opened Interleaving
  import opened Safety
  import opened Guarantees
  import opened Progress

  /** The commands that look into a container, change what is in it, or ask for a random bit. */
  predicate Touches(cmd: Cmd)
  {
    cmd.LockRng? || cmd.Find? || cmd.InsertNext? || cmd.InsertNamed? || cmd.Erase? || cmd.Store?
  }

  /** A thread that knows these interpreters to be registered and has these commands to do may
      touch exactly so, if nothing throws. A count does not miss an interpreter that is known. */
  ghost predicate Yields(known: set<Key>, todo: seq<Cmd>, trace: seq<Cmd>)
    decreases Weight(todo)
  {
    if todo == [] then trace == []
    else
      match todo[0]
      case CountThen(c, k, absent) =>
        WeightSum([Unlock(c)] + absent, todo[1..]);
        WeightSum([Unlock(c)], absent);
        WeightSum([Unlock(c)], todo[1..]);
        || (!(c == Interpreters && k in known) && Yields(known, [Unlock(c)] + absent + todo[1..], trace))
        || Yields(if c == Interpreters then known + {k} else known, [Unlock(c)] + todo[1..], trace)
      case InsertNamed(c, k) =>
        trace != [] && trace[0] == todo[0]
        && Yields(if c == Interpreters then known + {k} else known, todo[1..], trace[1..])
      case cmd =>
        if Touches(cmd) then trace != [] && trace[0] == cmd && Yields(known, todo[1..], trace[1..])
        else Yields(known, todo[1..], trace)
  }

  // ---------------------------------------------------------------- scripts

  lemma Silent(known: set<Key>, cmd: Cmd, rest: seq<Cmd>, trace: seq<Cmd>)
    requires !Touches(cmd) && !cmd.CountThen?
    ensures Yields(known, [cmd] + rest, trace) <==> Yields(known, rest, trace)
  {
    assert ([cmd] + rest)[1..] == rest;
  }

  lemma Touching(known: set<Key>, cmd: Cmd, rest: seq<Cmd>, trace: seq<Cmd>)
    requires Touches(cmd) && !cmd.InsertNamed?
    ensures Yields(known, [cmd] + rest, trace) <==> trace != [] && trace[0] == cmd && Yields(known, rest, trace[1..])
  {
    assert ([cmd] + rest)[1..] == rest;
  }

  lemma EditYields(known: set<Key>, c: ContainerId, k: Key, body: seq<Cmd>, rest: seq<Cmd>, trace: seq<Cmd>)
    requires Yields(known, Edit(c, k, body) + rest, trace)
    ensures trace != [] && trace[0] == Find(c, k)
    ensures Yields(known, body + ([Clear(c, k), Unlock(c)] + rest), trace[1..])
  {
    hide Yields;
    var tail := body + ([Clear(c, k), Unlock(c)] + rest);
    assert Edit(c, k, body) + rest == [LockShared(c)] + ([Find(c, k)] + ([Spin(c, k)] + tail));
    Silent(known, LockShared(c), [Find(c, k)] + ([Spin(c, k)] + tail), trace);
    Touching(known, Find(c, k), [Spin(c, k)] + tail, trace);
    Silent(known, Spin(c, k), tail, trace[1..]);
  }

  lemma EndYields(known: set<Key>, c: ContainerId, k: Key, rest: seq<Cmd>, trace: seq<Cmd>)
    requires Yields(known, [Clear(c, k), Unlock(c)] + rest, trace)
    ensures Yields(known, rest, trace)
  {
    hide Yields;
    assert [Clear(c, k), Unlock(c)] + rest == [Clear(c, k)] + ([Unlock(c)] + rest);
    Silent(known, Clear(c, k), [Unlock(c)] + rest, trace);
    Silent(known, Unlock(c), rest, trace);
  }

  lemma InsertYields(known: set<Key>, c: ContainerId, rest: seq<Cmd>, trace: seq<Cmd>)
    requires Yields(known, Insert(c) + rest, trace)
    ensures trace != [] && trace[0] == InsertNext(c) && Yields(known, rest, trace[1..])
  {
    hide Yields;
    assert Insert(c) + rest == [LockUnique(c)] + ([InsertNext(c)] + ([Unlock(c)] + rest));
    Silent(known, LockUnique(c), [InsertNext(c)] + ([Unlock(c)] + rest), trace);
    Touching(known, InsertNext(c), [Unlock(c)] + rest, trace);
    Silent(known, Unlock(c), rest, trace[1..]);
  }

  lemma EraseYields(known: set<Key>, c: ContainerId, k: Key, rest: seq<Cmd>, trace: seq<Cmd>)
    requires Yields(known, EraseFrom(c, k) + rest, trace)
    ensures trace != [] && trace[0] == Erase(c, k) && Yields(known, rest, trace[1..])
  {
    hide Yields;
    assert EraseFrom(c, k) + rest == [LockUnique(c)] + ([Erase(c, k)] + ([Unlock(c)] + rest));
    Silent(known, LockUnique(c), [Erase(c, k)] + ([Unlock(c)] + rest), trace);
    Touching(known, Erase(c, k), [Unlock(c)] + rest, trace);
    Silent(known, Unlock(c), rest, trace[1..]);
  }

  /** n random bits. */
  function Tosses(n: nat): (t: seq<Cmd>)
    ensures |t| == n
  {
    seq(n, _ => LockRng)
  }

  lemma {:induction false} DrawsYield(known: set<Key>, n: nat, rest: seq<Cmd>, trace: seq<Cmd>)
    requires Yields(known, Draws(n) + rest, trace)
    ensures n <= |trace| && trace[..n] == Tosses(n) && Yields(known, rest, trace[n..])
  {
    hide Yields;
    if n == 0 {
      assert Draws(n) + rest == rest;
      assert trace[0..] == trace;
    } else {
      assert Draws(n) + rest == [LockRng] + ([UnlockRng] + (Draws(n - 1) + rest));
      Touching(known, LockRng, [UnlockRng] + (Draws(n - 1) + rest), trace);
      Silent(known, UnlockRng, Draws(n - 1) + rest, trace[1..]);
      DrawsYield(known, n - 1, rest, trace[1..]);
      assert trace[..n] == [trace[0]] + trace[1..][..n - 1];
      assert Tosses(n) == [LockRng] + Tosses(n - 1);
      assert trace[1..][n - 1..] == trace[n..];
    }
  }

  /** The trace begins with the registration of an interpreter that was not known, or goes on
      without. */
  ghost predicate Registers(known: set<Key>, d: Key, rest: seq<Cmd>, trace: seq<Cmd>)
  {
    || Yields(known + {d}, rest, trace)
    || (d !in known && trace != [] && trace[0] == InsertNamed(Interpreters, d) && Yields(known + {d}, rest, trace[1..]))
  }

  lemma InitializeYields(known: set<Key>, d: Key, rest: seq<Cmd>, trace: seq<Cmd>)
    requires Yields(known, InitializeInterpreter(d) + rest, trace)
    ensures Registers(known, d, rest, trace)
  {
    hide Yields;
    var c := Interpreters;
    var absent := [Work, LockUnique(c), InsertNamed(c, d), Unlock(c)];
    assert InitializeInterpreter(d) + rest == [LockShared(c)] + ([CountThen(c, d, absent)] + rest);
    Silent(known, LockShared(c), [CountThen(c, d, absent)] + rest, trace);
    CountYields(known, d, absent, rest, trace);
    if d !in known && Yields(known, [Unlock(c)] + absent + rest, trace) {
      AbsentYields(known, d, absent, rest, trace);
    } else {
      Silent(known + {d}, Unlock(c), rest, trace);
    }
  }

  lemma CountYields(known: set<Key>, d: Key, absent: seq<Cmd>, rest: seq<Cmd>, trace: seq<Cmd>)
    requires Yields(known, [CountThen(Interpreters, d, absent)] + rest, trace)
    ensures (d !in known && Yields(known, [Unlock(Interpreters)] + absent + rest, trace))
         || Yields(known + {d}, [Unlock(Interpreters)] + rest, trace)
  {
    assert ([CountThen(Interpreters, d, absent)] + rest)[1..] == rest;
  }

  lemma AbsentYields(known: set<Key>, d: Key, absent: seq<Cmd>, rest: seq<Cmd>, trace: seq<Cmd>)
    requires absent == [Work, LockUnique(Interpreters), InsertNamed(Interpreters, d), Unlock(Interpreters)]
    requires Yields(known, [Unlock(Interpreters)] + absent + rest, trace)
    ensures trace != [] && trace[0] == InsertNamed(Interpreters, d) && Yields(known + {d}, rest, trace[1..])
  {
    hide Yields;
    var c := Interpreters;
    var named := [InsertNamed(c, d)] + ([Unlock(c)] + rest);
    assert [Unlock(c)] + absent + rest == [Unlock(c)] + ([Work] + ([LockUnique(c)] + named));
    Silent(known, Unlock(c), [Work] + ([LockUnique(c)] + named), trace);
    Silent(known, Work, [LockUnique(c)] + named, trace);
    Silent(known, LockUnique(c), named, trace);
    NamedYields(known, d, [Unlock(c)] + rest, trace);
    Silent(known + {d}, Unlock(c), rest, trace[1..]);
  }

  lemma NamedYields(known: set<Key>, d: Key, rest: seq<Cmd>, trace: seq<Cmd>)
    requires Yields(known, [InsertNamed(Interpreters, d)] + rest, trace)
    ensures trace != [] && trace[0] == InsertNamed(Interpreters, d) && Yields(known + {d}, rest, trace[1..])
  {
    assert ([InsertNamed(Interpreters, d)] + rest)[1..] == rest;
  }

  /** What compiling touches: the interpreter, after registering it if it was not known. */
  lemma CompileYields(known: set<Key>, d: Key, rest: seq<Cmd>, trace: seq<Cmd>) returns (first: nat)
    requires Yields(known, Compile(d) + rest, trace)
    ensures first < |trace| && trace[first] == Find(Interpreters, d)
    ensures first == 0 || (first == 1 && d !in known && trace[0] == InsertNamed(Interpreters, d))
    ensures Yields(known + {d}, rest, trace[first + 1..])
  {
    hide Yields;
    var c := Interpreters;
    assert Compile(d) + rest == InitializeInterpreter(d) + (Edit(c, d, [Work]) + rest);
    InitializeYields(known, d, Edit(c, d, [Work]) + rest, trace);
    first := if Yields(known + {d}, Edit(c, d, [Work]) + rest, trace) then 0 else 1;
    assert trace[0..] == trace;
    var later := trace[first..];
    EditYields(known + {d}, c, d, [Work], rest, later);
    Silent(known + {d}, Work, [Clear(c, d), Unlock(c)] + rest, later[1..]);
    EndYields(known + {d}, c, d, rest, later[1..]);
    assert later[1..] == trace[first + 1..];
  }

  // ---------------------------------------------------------------- operations

  /** First a, then perhaps the registration of the dialect asked for, then b. */
  predicate Named(d: Key, a: seq<Cmd>, b: seq<Cmd>, trace: seq<Cmd>)
  {
    trace == a + b || trace == a + [InsertNamed(Interpreters, d)] + b
  }

  /** All that an operation touches when nothing throws, in order; n is the number of random
      bits that its program uses. */
  predicate Own(op: Operation, trace: seq<Cmd>)
  {
    match op
    case CompileProgram(d) => Named(d, [], [Find(Interpreters, d)], trace)
    case CompileMacro(k, d) =>
      Named(d, [], [Find(Kernels, k), Find(Interpreters, d), InsertNext(Macros(k))], trace)
    case CreateKernel => trace == [InsertNext(Kernels)]
    case DeleteKernel(k) => trace == [Erase(Kernels, k)]
    case CreateSystem => trace == [InsertNext(Systems)]
    case DeleteSystem(s) => trace == [Erase(Systems, s)]
    case CreateState(s, d, n) =>
      Named(d, [Find(Systems, s)], [Find(Interpreters, d)] + (Tosses(n) + [InsertNext(States(s))]), trace)
    case ModifyState(s, k, d, n) =>
      Named(d, [Find(Systems, s)],
            [Find(Interpreters, d)] + ([Find(States(s), k)] + Tosses(n) + [Store(States(s), k)]), trace)
    case MeasureState(s, k, d, n) =>
      Named(d, [Find(Systems, s)],
            [Find(Interpreters, d)] + ([Find(States(s), k)] + Tosses(n) + [Store(States(s), k)]), trace)
    case DeleteState(s, k) => trace == [Find(Systems, s), Erase(States(s), k)]
    case ComputeResult(s, d, n) => Named(d, [Find(Systems, s)], [Find(Interpreters, d)] + Tosses(n), trace)
  }

  lemma NilYields(known: set<Key>, trace: seq<Cmd>)
    requires Yields(known, [], trace)
    ensures trace == []
  {
  }

  /** The end of an edit that nothing follows. */
  lemma LastEdit(known: set<Key>, c: ContainerId, k: Key, trace: seq<Cmd>)
    requires Yields(known, [Clear(c, k), Unlock(c)] + [], trace)
    ensures trace == []
  {
    hide Yields;
    EndYields(known, c, k, [], trace);
    NilYields(known, trace);
  }

  /** An operation that edits a system, compiles, and goes on. */
  lemma CompilingYields(s: Key, d: Key, more: seq<Cmd>, trace: seq<Cmd>) returns (last: seq<Cmd>)
    requires Yields({}, Edit(Systems, s, Compile(d) + more), trace)
    ensures Yields({d}, more + ([Clear(Systems, s), Unlock(Systems)] + []), last)
    ensures Named(d, [Find(Systems, s)], [Find(Interpreters, d)] + last, trace)
  {
    hide Yields, Edit, Compile;
    var tail := [Clear(Systems, s), Unlock(Systems)] + [];
    assert Edit(Systems, s, Compile(d) + more) + [] == Edit(Systems, s, Compile(d) + more);
    EditYields({}, Systems, s, Compile(d) + more, [], trace);
    assert Compile(d) + more + tail == Compile(d) + (more + tail);
    var first := CompileYields({}, d, more + tail, trace[1..]);
    last := trace[1..][first + 1..];
    assert {} + {d} == {d};
    if first == 0 {
      assert trace == [Find(Systems, s)] + ([Find(Interpreters, d)] + last);
    } else {
      assert trace == [Find(Systems, s)] + [InsertNamed(Interpreters, d)] + ([Find(Interpreters, d)] + last);
    }
  }

  lemma CreateStateYields(s: Key, d: Key, n: nat, trace: seq<Cmd>)
    requires Yields({}, Script(CreateState(s, d, n)), trace)
    ensures Own(CreateState(s, d, n), trace)
  {
    hide Yields, Edit, Compile, Insert;
    var tail := [Clear(Systems, s), Unlock(Systems)] + [];
    assert Compile(d) + Draws(n) + Insert(States(s)) == Compile(d) + (Draws(n) + Insert(States(s)));
    var last := CompilingYields(s, d, Draws(n) + Insert(States(s)), trace);
    assert Draws(n) + Insert(States(s)) + tail == Draws(n) + (Insert(States(s)) + tail);
    DrawsYield({d}, n, Insert(States(s)) + tail, last);
    InsertYields({d}, States(s), tail, last[n..]);
    LastEdit({d}, Systems, s, last[n..][1..]);
    assert last == last[..n] + last[n..] && last[n..] == [InsertNext(States(s))];
  }

  lemma RunYields(op: Operation, s: Key, k: Key, d: Key, n: nat, trace: seq<Cmd>)
    requires op == ModifyState(s, k, d, n) || op == MeasureState(s, k, d, n)
    requires Yields({}, Script(op), trace)
    ensures Own(op, trace)
  {
    hide Yields, Edit, Compile;
    var c, tail := States(s), [Clear(Systems, s), Unlock(Systems)] + [];
    var body := [Load(c, k)] + Draws(n) + [Store(c, k)];
    var end := [Clear(c, k), Unlock(c)] + tail;
    var last := CompilingYields(s, d, RunOn(s, k, n), trace);
    EditYields({d}, c, k, body, tail, last);
    assert body + end == [Load(c, k)] + (Draws(n) + ([Store(c, k)] + end));
    Silent({d}, Load(c, k), Draws(n) + ([Store(c, k)] + end), last[1..]);
    DrawsYield({d}, n, [Store(c, k)] + end, last[1..]);
    var stored := last[1..][n..];
    Touching({d}, Store(c, k), end, stored);
    EndYields({d}, c, k, tail, stored[1..]);
    LastEdit({d}, Systems, s, stored[1..]);
    assert stored == [Store(c, k)] && last[1..] == last[1..][..n] + stored;
    assert last == [Find(c, k)] + Tosses(n) + [Store(c, k)];
  }

  lemma ComputeYields(s: Key, d: Key, n: nat, trace: seq<Cmd>)
    requires Yields({}, Script(ComputeResult(s, d, n)), trace)
    ensures Own(ComputeResult(s, d, n), trace)
  {
    hide Yields, Edit, Compile;
    var last := CompilingYields(s, d, Draws(n), trace);
    DrawsYield({d}, n, [Clear(Systems, s), Unlock(Systems)] + [], last);
    LastEdit({d}, Systems, s, last[n..]);
    assert last == last[..n] + last[n..] == Tosses(n);
  }

  lemma DeleteStateYields(s: Key, k: Key, trace: seq<Cmd>)
    requires Yields({}, Script(DeleteState(s, k)), trace)
    ensures Own(DeleteState(s, k), trace)
  {
    hide Yields, Edit, EraseFrom;
    var body := EraseFrom(States(s), k);
    assert Edit(Systems, s, body) + [] == Edit(Systems, s, body);
    EditYields({}, Systems, s, body, [], trace);
    EraseYields({}, States(s), k, [Clear(Systems, s), Unlock(Systems)] + [], trace[1..]);
    LastEdit({}, Systems, s, trace[1..][1..]);
    assert trace == [Find(Systems, s), Erase(States(s), k)];
  }

  lemma CompileMacroYields(k: Key, d: Key, trace: seq<Cmd>)
    requires Yields({}, Script(CompileMacro(k, d)), trace)
    ensures Own(CompileMacro(k, d), trace)
  {
    hide Yields, Edit, Compile, Insert, InitializeInterpreter;
    var body, tail := Compile(d) + Insert(Macros(k)), [Clear(Kernels, k), Unlock(Kernels)] + [];
    assert {} + {d} == {d};
    InitializeYields({}, d, Edit(Kernels, k, body), trace);
    var first := if Yields({d}, Edit(Kernels, k, body), trace) then 0 else 1;
    assert trace[0..] == trace;
    var later := trace[first..];
    assert Edit(Kernels, k, body) + [] == Edit(Kernels, k, body);
    EditYields({d}, Kernels, k, body, [], later);
    assert body + tail == Compile(d) + (Insert(Macros(k)) + tail);
    var second := CompileYields({d}, d, Insert(Macros(k)) + tail, later[1..]);
    var last := later[1..][second + 1..];
    assert {d} + {d} == {d};
    InsertYields({d}, Macros(k), tail, last);
    LastEdit({d}, Kernels, k, last[1..]);
    assert later == [Find(Kernels, k), Find(Interpreters, d), InsertNext(Macros(k))];
    if first == 1 { assert trace == [] + [InsertNamed(Interpreters, d)] + later; }
    assert [] + later == later;
  }

  lemma SimpleYields(op: Operation, trace: seq<Cmd>)
    requires op.CompileProgram? || op.CreateKernel? || op.DeleteKernel? || op.CreateSystem? || op.DeleteSystem?
    requires Yields({}, Script(op), trace)
    ensures Own(op, trace)
  {
    hide Yields, Compile, Insert, EraseFrom;
    match op
    case CompileProgram(d) =>
      assert Compile(d) + [] == Compile(d);
      var first := CompileYields({}, d, [], trace);
      NilYields({} + {d}, trace[first + 1..]);
      assert trace == if first == 0 then [] + [Find(Interpreters, d)]
                      else [] + [InsertNamed(Interpreters, d)] + [Find(Interpreters, d)];
    case CreateKernel =>
      assert Insert(Kernels) + [] == Insert(Kernels);
      InsertYields({}, Kernels, [], trace);
      NilYields({}, trace[1..]);
    case DeleteKernel(k) =>
      assert EraseFrom(Kernels, k) + [] == EraseFrom(Kernels, k);
      EraseYields({}, Kernels, k, [], trace);
      NilYields({}, trace[1..]);
    case CreateSystem =>
      assert Insert(Systems) + [] == Insert(Systems);
      InsertYields({}, Systems, [], trace);
      NilYields({}, trace[1..]);
    case DeleteSystem(s) =>
      assert EraseFrom(Systems, s) + [] == EraseFrom(Systems, s);
      EraseYields({}, Systems, s, [], trace);
      NilYields({}, trace[1..]);
  }

  /** Every operation touches exactly what is its own. */
  lemma ScriptYields(op: Operation, trace: seq<Cmd>)
    requires Yields({}, Script(op), trace)
    ensures Own(op, trace)
  {
    hide Yields, Script, Own;
    match op
    case CompileMacro(k, d) => CompileMacroYields(k, d, trace);
    case CreateState(s, d, n) => CreateStateYields(s, d, n, trace);
    case ModifyState(s, k, d, n) => RunYields(op, s, k, d, n, trace);
    case MeasureState(s, k, d, n) => RunYields(op, s, k, d, n, trace);
    case DeleteState(s, k) => DeleteStateYields(s, k, trace);
    case ComputeResult(s, d, n) => ComputeYields(s, d, n, trace);
    case _ => SimpleYields(op, trace);
  }

  // ---------------------------------------------------------------- runs

  /** Step m is thread t touching a container. */
  predicate TouchesAt(ss: seq<State>, es: seq<Event>, t: Tid, m: nat)
    requires m < |es| <= |ss|
  {
    es[m].Go? && es[m].t == t && Unfinished(ss[m], t) && Touches(ss[m].threads[t].todo[0])
  }

  /** What thread t touches from state i to state j, in order. */
  function Trace(ss: seq<State>, es: seq<Event>, t: Tid, i: nat, j: nat): seq<Cmd>
    requires i <= j <= |es| <= |ss|
    decreases j - i
  {
    if i == j then []
    else (if TouchesAt(ss, es, t, i) then [ss[i].threads[t].todo[0]] else []) + Trace(ss, es, t, i + 1, j)
  }

  /** Thread t begins nothing and throws nothing between states i and j. */
  predicate Smooth(ss: seq<State>, es: seq<Event>, t: Tid, i: nat, j: nat)
    requires i <= j <= |es| <= |ss|
  {
    forall m :: i <= m < j && es[m].t == t ==> es[m].Go? && !Throws(ss[m], t, es[m].throws)
  }

  /** A step that does not throw goes on to the next command. */
  lemma GoesOn(s: State, t: Tid, throws: bool)
    requires Unfinished(s, t) && !Throws(s, t, throws) && !s.threads[t].todo[0].CountThen?
    ensures t in Exec(s, t, throws).threads
    ensures var th, th' := s.threads[t], Exec(s, t, throws).threads[t];
            th'.view == After(th.view, th.todo[0]) && th'.todo == th.todo[1..]
  {
    hide WithItem, Unwinding, WithoutFlags, Present, After;
  }

  lemma KnownAfter(v: View, cmd: Cmd)
    ensures After(v, cmd).known == if cmd.InsertNamed? && cmd.c == Interpreters then v.known + {cmd.key} else v.known
  {
  }

  /** If what is left after a step yields a trace, what was there before yields the trace with
      the step in front. */
  lemma StepYields(s: State, t: Tid, throws: bool, trace: seq<Cmd>)
    requires Unfinished(s, t) && !Throws(s, t, throws) && FoundPresent(s)
    requires t in Exec(s, t, throws).threads
    requires var th := Exec(s, t, throws).threads[t]; Yields(th.view.known, th.todo, trace)
    ensures var th := s.threads[t];
            Yields(th.view.known, th.todo, (if Touches(th.todo[0]) then [th.todo[0]] else []) + trace)
  {
    hide Exec, After, Throws, Present;
    var th := s.threads[t];
    var front := if Touches(th.todo[0]) then [th.todo[0]] else [];
    assert [] + trace == trace && (front != [] ==> (front + trace)[1..] == trace);
    match th.todo[0]
    case CountThen(c, k, absent) => CountGoes(s, t, throws, c, k, absent);
    case cmd =>
      GoesOn(s, t, throws);
      KnownAfter(th.view, cmd);
  }

  lemma {:induction false} SmoothYields(ss: seq<State>, es: seq<Event>, t: Tid, i: nat, j: nat)
    requires IsRun(ss, es) && i <= j <= |es| < |ss| && t in ss[i].threads && Smooth(ss, es, t, i, j)
    requires t in ss[j].threads && ss[j].threads[t].todo == []
    ensures Yields(ss[i].threads[t].view.known, ss[i].threads[t].todo, Trace(ss, es, t, i, j))
    decreases j - i
  {
    hide IsRun, Exec, Enabled, Script, Exclusive, LeaksUnheld, ContainersExist, LoadedCurrent, KeysIssued,
         BirthsDistinct, ThreadsOrderly, FoundPresent, Initial, Yields, Throws, Touches;
    if i == j {
      YieldsNothing(ss[i].threads[t].view.known);
    } else {
      AtStep(ss, es, i);
      match es[i]
      case Begin(u, op) =>
        SmoothYields(ss, es, t, i + 1, j);
        assert [] + Trace(ss, es, t, i + 1, j) == Trace(ss, es, t, i + 1, j);
      case Go(u, throws) =>
        EnabledThread(ss[i], u);
        ExecOthers(ss[i], u, throws);
        SmoothYields(ss, es, t, i + 1, j);
        if u == t {
          StepYields(ss[i], t, throws, Trace(ss, es, t, i + 1, j));
        } else {
          assert [] + Trace(ss, es, t, i + 1, j) == Trace(ss, es, t, i + 1, j);
        }
    }
  }

  lemma YieldsNothing(known: set<Key>)
    ensures Yields(known, [], [])
  {
  }

  /** In every run: from its beginning to its end, an operation that nothing in it throws
      touches exactly what is its own, in this order. */
  lemma OperationTouches(ss: seq<State>, es: seq<Event>, t: Tid, op: Operation, i: nat, j: nat)
    requires IsRun(ss, es) && i < j <= |es| < |ss| && es[i] == Begin(t, op) && Smooth(ss, es, t, i + 1, j)
    requires t in ss[j].threads && ss[j].threads[t].todo == []
    ensures Own(op, Trace(ss, es, t, i + 1, j))
  {
    hide IsRun, Script, Own, Yields, Exclusive, LeaksUnheld, ContainersExist, LoadedCurrent, KeysIssued,
         BirthsDistinct, ThreadsOrderly, FoundPresent, Initial, Exec, Enabled;
    AtStep(ss, es, i);
    SmoothYields(ss, es, t, i + 1, j);
    ScriptYields(op, Trace(ss, es, t, i + 1, j));
  }

  /** Steps that do not touch a container leave all containers as they are. */
  lemma UntouchedStays(ss: seq<State>, es: seq<Event>, m: nat)
    requires IsRun(ss, es) && m < |es| < |ss| && !TouchesAt(ss, es, es[m].t, m)
    ensures ss[m + 1].containers == ss[m].containers
  {
    hide IsRun, Script, Exclusive, LeaksUnheld, ContainersExist, LoadedCurrent, KeysIssued,
         BirthsDistinct, ThreadsOrderly, FoundPresent, Initial, Exec, Enabled;
    AtStep(ss, es, m);
    if es[m].Go? {
      EnabledThread(ss[m], es[m].t);
      SameContainers(ss[m], es[m].t, es[m].throws);
    }
  }

  // ---------------------------------------------------------------- what is there afterwards

  lemma {:induction false} InTrace(ss: seq<State>, es: seq<Event>, t: Tid, i: nat, j: nat, cmd: Cmd) returns (m: nat)
    requires i <= j <= |es| <= |ss| && cmd in Trace(ss, es, t, i, j)
    ensures i <= m < j && es[m].t == t && Doing(ss[m], es[m], cmd)
    decreases j - i
  {
    if TouchesAt(ss, es, t, i) && ss[i].threads[t].todo[0] == cmd {
      m := i;
    } else {
      m := InTrace(ss, es, t, i + 1, j, cmd);
    }
  }

  /** An erasure that an operation makes removes the item, if it is there, with all that is
      inside it, and nothing else. */
  lemma ErasureDone(ss: seq<State>, es: seq<Event>, t: Tid, i: nat, j: nat, c: ContainerId, k: Key) returns (m: nat)
    requires IsRun(ss, es) && i <= j <= |es| < |ss| && Erase(c, k) in Trace(ss, es, t, i, j)
    ensures i <= m < j && es[m].t == t && Doing(ss[m], es[m], Erase(c, k))
    ensures Present(ss[m], c, k) ==>
              forall d, l :: Present(ss[m + 1], d, l) <==> Present(ss[m], d, l) && !GoesWith(d, l, c, k)
  {
    hide IsRun, Trace, Present, GoesWith;
    m := InTrace(ss, es, t, i, j, Erase(c, k));
    if Present(ss[m], c, k) {
      forall d, l ensures Present(ss[m + 1], d, l) <==> Present(ss[m], d, l) && !GoesWith(d, l, c, k) {
        EraseIsSafe(ss, es, m, c, k, d, l, t);
      }
    }
  }

  /** An insertion that an operation makes adds one new item, under the next key, and no other
      to its container. */
  lemma InsertionDone(ss: seq<State>, es: seq<Event>, t: Tid, i: nat, j: nat, c: ContainerId) returns (m: nat)
    requires IsRun(ss, es) && i <= j <= |es| < |ss| && Smooth(ss, es, t, i, j) && InsertNext(c) in Trace(ss, es, t, i, j)
    ensures i <= m < j && es[m].t == t && Doing(ss[m], es[m], InsertNext(c))
    ensures c in ss[m].containers && ss[m].containers[c].next < KEY_RANGE ==>
              forall k :: Present(ss[m + 1], c, k) <==> Present(ss[m], c, k) || k == NextKey(ss[m].containers[c])
  {
    hide IsRun, Trace, Present, NextKey;
    m := InTrace(ss, es, t, i, j, InsertNext(c));
    if c in ss[m].containers && ss[m].containers[c].next < KEY_RANGE {
      forall k ensures Present(ss[m + 1], c, k) <==> Present(ss[m], c, k) || k == NextKey(ss[m].containers[c]) {
        FreshKey(ss, es, m, c, k);
      }
    }
  }

  /** delete_system erases that system, and nothing else, from the systems. */
  lemma DeleteSystemDone(ss: seq<State>, es: seq<Event>, t: Tid, s: Key, i: nat, j: nat) returns (m: nat)
    requires IsRun(ss, es) && i < j <= |es| < |ss| && es[i] == Begin(t, DeleteSystem(s))
    requires Smooth(ss, es, t, i + 1, j) && t in ss[j].threads && ss[j].threads[t].todo == []
    ensures Trace(ss, es, t, i + 1, j) == [Erase(Systems, s)] && i < m < j && es[m].t == t
    ensures Present(ss[m], Systems, s) ==>
              forall d, l :: Present(ss[m + 1], d, l) <==> Present(ss[m], d, l) && !GoesWith(d, l, Systems, s)
  {
    hide IsRun, Smooth, Present, GoesWith, Trace;
    OperationTouches(ss, es, t, DeleteSystem(s), i, j);
    m := ErasureDone(ss, es, t, i + 1, j, Systems, s);
  }

  /** create_system adds one system, under a new key. */
  lemma CreateSystemDone(ss: seq<State>, es: seq<Event>, t: Tid, i: nat, j: nat) returns (m: nat)
    requires IsRun(ss, es) && i < j <= |es| < |ss| && es[i] == Begin(t, CreateSystem)
    requires Smooth(ss, es, t, i + 1, j) && t in ss[j].threads && ss[j].threads[t].todo == []
    ensures Trace(ss, es, t, i + 1, j) == [InsertNext(Systems)] && i < m < j && es[m].t == t
    ensures Systems in ss[m].containers && ss[m].containers[Systems].next < KEY_RANGE ==>
              forall k :: Present(ss[m + 1], Systems, k) <==>
                            Present(ss[m], Systems, k) || k == NextKey(ss[m].containers[Systems])
  {
    hide IsRun, Present, Trace, NextKey;
    OperationTouches(ss, es, t, CreateSystem, i, j);
    m := InsertionDone(ss, es, t, i + 1, j, Systems);
  }

  /** create_state adds one state to that system, under a new key. */
  lemma CreateStateDone(ss: seq<State>, es: seq<Event>, t: Tid, s: Key, d: Key, n: nat, i: nat, j: nat) returns (m: nat)
    requires IsRun(ss, es) && i < j <= |es| < |ss| && es[i] == Begin(t, CreateState(s, d, n))
    requires Smooth(ss, es, t, i + 1, j) && t in ss[j].threads && ss[j].threads[t].todo == []
    ensures i < m < j && es[m].t == t && Doing(ss[m], es[m], InsertNext(States(s)))
    ensures States(s) in ss[m].containers && ss[m].containers[States(s)].next < KEY_RANGE ==>
              forall k :: Present(ss[m + 1], States(s), k) <==>
                            Present(ss[m], States(s), k) || k == NextKey(ss[m].containers[States(s)])
  {
    hide IsRun, Present, Trace, NextKey;
    OperationTouches(ss, es, t, CreateState(s, d, n), i, j);
    var trace := Trace(ss, es, t, i + 1, j);
    assert trace[|trace| - 1] == InsertNext(States(s));
    m := InsertionDone(ss, es, t, i + 1, j, States(s));
  }

  /** delete_state erases that state of that system, and nothing else. */
  lemma DeleteStateDone(ss: seq<State>, es: seq<Event>, t: Tid, s: Key, k: Key, i: nat, j: nat) returns (m: nat)
    requires IsRun(ss, es) && i < j <= |es| < |ss| && es[i] == Begin(t, DeleteState(s, k))
    requires Smooth(ss, es, t, i + 1, j) && t in ss[j].threads && ss[j].threads[t].todo == []
    ensures i < m < j && es[m].t == t && Doing(ss[m], es[m], Erase(States(s), k))
    ensures Present(ss[m], States(s), k) ==>
              forall d, l :: Present(ss[m + 1], d, l) <==> Present(ss[m], d, l) && !(d == States(s) && l == k)
  {
    hide IsRun, Smooth, Present, Trace;
    OperationTouches(ss, es, t, DeleteState(s, k), i, j);
    assert Trace(ss, es, t, i + 1, j)[1] == Erase(States(s), k);
    m := ErasureDone(ss, es, t, i + 1, j, States(s), k);
  }

  /** modify_state and measure_state edit that state of that system, once. */
  lemma EditDone(ss: seq<State>, es: seq<Event>, t: Tid, op: Operation, s: Key, k: Key, d: Key, n: nat, i: nat, j: nat)
    returns (m: nat)
    requires op == ModifyState(s, k, d, n) || op == MeasureState(s, k, d, n)
    requires IsRun(ss, es) && i < j <= |es| < |ss| && es[i] == Begin(t, op)
    requires Smooth(ss, es, t, i + 1, j) && t in ss[j].threads && ss[j].threads[t].todo == []
    ensures i < m < j && es[m].t == t && Doing(ss[m], es[m], Store(States(s), k))
    ensures Present(ss[m], States(s), k) && Present(ss[m + 1], States(s), k)
    ensures ss[m + 1].containers[States(s)].items[k].value == ss[m].containers[States(s)].items[k].value + [t]
  {
    hide IsRun, Present, Trace, Exec, Enabled, Script, Exclusive, LeaksUnheld, FoundPresent, KeysIssued, BirthsDistinct,
         ThreadsOrderly, Initial, ContainersExist;
    OperationTouches(ss, es, t, op, i, j);
    var trace, c := Trace(ss, es, t, i + 1, j), States(s);
    assert trace[|trace| - 1] == Store(c, k);
    m := InTrace(ss, es, t, i + 1, j, Store(c, k));
    AtStep(ss, es, m);
    AllowedNow(ss[m], t);
    assert Present(ss[m], (c, k).0, (c, k).1);
    ItemKept(ss[m], t, es[m].throws, c, k);
    ValueStep(ss, es, c, k, m);
  }
}
