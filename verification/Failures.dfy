/** Which operations can throw inside a body, where, and what that does to an item. */
module Failures {
  import opened Options
  import opened Containers
  import opened LockOrder
  import opened Universe
  import opened Interleaving
  import opened Safety
  import opened Guarantees
  import opened Progress

  /** The commands that an operation may fail at while it holds these flags: the dialect or
      the text inside an edit, a state that is absent, an insertion into an item. */
  predicate MayFail(op: Operation, cmd: Cmd, flags: set<Lock>)
  {
    match op
    case CompileProgram(d) => cmd == Work && flags == {Flag(Interpreters, d)}
    case CompileMacro(k, d) =>
      || (cmd == Work && flags == {Flag(Kernels, k), Flag(Interpreters, d)})
      || (cmd == InsertNext(Macros(k)) && flags == {Flag(Kernels, k)})
    case CreateState(s, d, _) =>
      FailsToCompile(s, d, cmd, flags) || (cmd == InsertNext(States(s)) && flags == {Flag(Systems, s)})
    case ModifyState(s, k, d, _) =>
      FailsToCompile(s, d, cmd, flags) || (cmd == Find(States(s), k) && flags == {Flag(Systems, s)})
    case MeasureState(s, k, d, _) =>
      FailsToCompile(s, d, cmd, flags) || (cmd == Find(States(s), k) && flags == {Flag(Systems, s)})
    case ComputeResult(s, d, _) => FailsToCompile(s, d, cmd, flags)
    case _ => false
  }

  /** The dialect is unknown, or the text does not parse. */
  predicate FailsToCompile(s: Key, d: Key, cmd: Cmd, flags: set<Lock>)
  {
    cmd == Work && (flags == {Flag(Systems, s)} || flags == {Flag(Systems, s), Flag(Interpreters, d)})
  }

  /** The commands that can throw. */
  predicate Fallible(cmd: Cmd)
  {
    cmd.Work? || cmd.InsertNext? || (cmd.Find? && cmd.c != Interpreters)
  }

  predicate CmdListed(op: Operation, v: View, cmd: Cmd)
  {
    Fallible(cmd) && Flags(v.held) != {} ==> MayFail(op, cmd, Flags(v.held))
  }

  /** From here on the operation fails inside a body only as listed. A count does not miss
      an interpreter that is known to be there. */
  ghost predicate Listed(op: Operation, v: View, todo: seq<Cmd>)
    decreases Weight(todo)
  {
    if todo == [] then true
    else
      && CmdListed(op, v, todo[0])
      && match todo[0]
         case CountThen(c, k, absent) =>
           WeightSum([Unlock(c)] + absent, todo[1..]);
           WeightSum([Unlock(c)], absent);
           WeightSum([Unlock(c)], todo[1..]);
           && ((c == Interpreters && k in v.known) || Listed(op, v, [Unlock(c)] + absent + todo[1..]))
           && Listed(op, Counted(v, c, k), [Unlock(c)] + todo[1..])
         case cmd => Listed(op, After(v, cmd), todo[1..])
  }

  // ---------------------------------------------------------------- scripts

  lemma FlagsMore(held: seq<Hold>, h: Hold)
    ensures Flags(held + [h]) == Flags(held) + if h.lock.Flag? then {h.lock} else {}
  {
    assert forall g :: g in held + [h] <==> g in held || g == h;
  }

  lemma ListedNext(op: Operation, v: View, cmd: Cmd, rest: seq<Cmd>)
    requires !cmd.CountThen? && CmdListed(op, v, cmd) && Listed(op, After(v, cmd), rest)
    ensures Listed(op, v, [cmd] + rest)
  {
    hide CmdListed, After;
    assert ([cmd] + rest)[1..] == rest;
  }

  lemma ListedEdit(op: Operation, v: View, c: ContainerId, k: Key, body: seq<Cmd>, rest: seq<Cmd>)
    requires Fresh(v, c) && (c == Interpreters ==> k in v.known)
    requires CmdListed(op, v, Find(c, k))
    requires Listed(op, Entered(v, c, k), body + ([Clear(c, k), Unlock(c)] + rest))
    ensures Listed(op, v, Edit(c, k, body) + rest)
  {
    hide Listed, Fresh, After, Entered, MayFail, Flags;
    var tail := body + ([Clear(c, k), Unlock(c)] + rest);
    var v1 := After(v, LockShared(c));
    var v2 := After(v1, Find(c, k));
    Enters(v, c, k);
    LockedFlags(v, c);
    ListedNext(op, v2, Spin(c, k), tail);
    ListedNext(op, v1, Find(c, k), [Spin(c, k)] + tail);
    ListedNext(op, v, LockShared(c), [Find(c, k)] + ([Spin(c, k)] + tail));
    assert Edit(c, k, body) + rest == [LockShared(c)] + ([Find(c, k)] + ([Spin(c, k)] + tail));
  }

  lemma LockedFlags(v: View, c: ContainerId)
    ensures Flags(After(v, LockShared(c)).held) == Flags(v.held) == Flags(After(v, LockUnique(c)).held)
  {
    hide Flags;
    FlagsMore(v.held, Hold(List(c), false));
    FlagsMore(v.held, Hold(List(c), true));
  }

  lemma EnteredFlags(v: View, c: ContainerId, k: Key)
    ensures Flags(Entered(v, c, k).held) == Flags(v.held) + {Flag(c, k)}
  {
    hide Flags;
    FlagsMore(v.held, Hold(List(c), false));
    FlagsMore(v.held + [Hold(List(c), false)], Hold(Flag(c, k), true));
    assert v.held + [Hold(List(c), false), Hold(Flag(c, k), true)]
        == v.held + [Hold(List(c), false)] + [Hold(Flag(c, k), true)];
  }

  lemma ListedEnds(op: Operation, v: View, c: ContainerId, k: Key, known: set<Key>, rest: seq<Cmd>)
    requires Fresh(v, c) && Listed(op, v.(known := known), rest)
    ensures Listed(op, Entered(v, c, k).(known := known), [Clear(c, k), Unlock(c)] + rest)
  {
    hide Listed, Above, Owned, Inside;
    var w := Entered(v, c, k).(known := known);
    var w1 := After(w, Clear(c, k));
    assert w1.held == v.held + [Hold(List(c), false)];
    assert After(w1, Unlock(c)).held == v.held && After(w1, Unlock(c)).found == v.found;
    ListedNext(op, w1, Unlock(c), rest);
    ListedNext(op, w, Clear(c, k), [Unlock(c)] + rest);
    assert [Clear(c, k), Unlock(c)] + rest == [Clear(c, k)] + ([Unlock(c)] + rest);
  }

  lemma ListedInsert(op: Operation, v: View, c: ContainerId, rest: seq<Cmd>)
    requires Fresh(v, c) && CmdListed(op, v, InsertNext(c)) && Listed(op, v, rest)
    ensures Listed(op, v, Insert(c) + rest)
  {
    hide Listed, Fresh, MayFail, Flags, HoldsAs, Newest, Above, Owned, Inside;
    var w := After(v, LockUnique(c));
    LockUnlock(v, c, true, w);
    LockedFlags(v, c);
    ListedNext(op, w, Unlock(c), rest);
    ListedNext(op, w, InsertNext(c), [Unlock(c)] + rest);
    ListedNext(op, v, LockUnique(c), [InsertNext(c)] + ([Unlock(c)] + rest));
    assert Insert(c) + rest == [LockUnique(c)] + ([InsertNext(c)] + ([Unlock(c)] + rest));
  }

  lemma ListedErase(op: Operation, v: View, c: ContainerId, k: Key, rest: seq<Cmd>)
    requires Fresh(v, c) && Listed(op, v, rest)
    ensures Listed(op, v, EraseFrom(c, k) + rest)
  {
    hide Listed, Fresh, MayFail, Flags, HoldsAs, Newest, Above, Owned, Inside;
    var w := After(v, LockUnique(c));
    LockUnlock(v, c, true, w);
    ListedNext(op, w, Unlock(c), rest);
    ListedNext(op, w, Erase(c, k), [Unlock(c)] + rest);
    ListedNext(op, v, LockUnique(c), [Erase(c, k)] + ([Unlock(c)] + rest));
    assert EraseFrom(c, k) + rest == [LockUnique(c)] + ([Erase(c, k)] + ([Unlock(c)] + rest));
  }

  lemma {:induction false} ListedDraws(op: Operation, v: View, n: nat, rest: seq<Cmd>)
    requires Listed(op, v, rest)
    ensures Listed(op, v, Draws(n) + rest)
  {
    hide Listed;
    if n == 0 {
      assert Draws(n) + rest == rest;
    } else {
      ListedDraws(op, v, n - 1, rest);
      var w := After(v, LockRng);
      assert Popped(w.held) == v.held;
      assert After(w, UnlockRng) == v;
      ListedNext(op, w, UnlockRng, Draws(n - 1) + rest);
      ListedNext(op, v, LockRng, [UnlockRng] + (Draws(n - 1) + rest));
      assert Draws(n) + rest == [LockRng] + ([UnlockRng] + (Draws(n - 1) + rest));
    }
  }

  lemma ListedCount(op: Operation, v: View, c: ContainerId, k: Key, absent: seq<Cmd>, rest: seq<Cmd>)
    requires (c == Interpreters && k in v.known) || Listed(op, v, [Unlock(c)] + absent + rest)
    requires Listed(op, Counted(v, c, k), [Unlock(c)] + rest)
    ensures Listed(op, v, [CountThen(c, k, absent)] + rest)
  {
    assert ([CountThen(c, k, absent)] + rest)[1..] == rest;
  }

  lemma ListedInitialize(op: Operation, v: View, d: Key, rest: seq<Cmd>)
    requires Fresh(v, Interpreters) && (d in v.known || CmdListed(op, v, Work)) && Listed(op, Knowing(v, d), rest)
    ensures Listed(op, v, InitializeInterpreter(d) + rest)
  {
    hide Listed, Fresh, MayFail, Flags, HoldsAs, Newest, Above, Owned, Inside;
    var c := Interpreters;
    var absent := [Work, LockUnique(c), InsertNamed(c, d), Unlock(c)];
    var v1 := After(v, LockShared(c));
    LockUnlock(v, c, false, v1);
    if d !in v.known { ListedAbsent(op, v, v1, d, absent, rest); }
    assert After(Counted(v1, c, d), Unlock(c)) == Knowing(v, d);
    ListedNext(op, Counted(v1, c, d), Unlock(c), rest);
    ListedCount(op, v1, c, d, absent, rest);
    ListedNext(op, v, LockShared(c), [CountThen(c, d, absent)] + rest);
    assert InitializeInterpreter(d) + rest == [LockShared(c)] + ([CountThen(c, d, absent)] + rest);
  }

  lemma ListedAbsent(op: Operation, v: View, v1: View, d: Key, absent: seq<Cmd>, rest: seq<Cmd>)
    requires Fresh(v, Interpreters) && CmdListed(op, v, Work) && v1 == After(v, LockShared(Interpreters))
    requires Listed(op, Knowing(v, d), rest)
    requires absent == [Work, LockUnique(Interpreters), InsertNamed(Interpreters, d), Unlock(Interpreters)]
    ensures Listed(op, v1, [Unlock(Interpreters)] + absent + rest)
  {
    hide Listed, Fresh, MayFail, Flags, HoldsAs, Newest, Above, Owned, Inside;
    var c := Interpreters;
    LockUnlock(v, c, false, v1);
    var v3 := After(v, LockUnique(c));
    LockUnlock(v, c, true, v3);
    var v4 := After(v3, InsertNamed(c, d));
    StillUnlocks(v3, v4, c, d, v);
    ListedNext(op, v4, Unlock(c), rest);
    ListedNext(op, v3, InsertNamed(c, d), [Unlock(c)] + rest);
    ListedNext(op, v, LockUnique(c), [InsertNamed(c, d)] + ([Unlock(c)] + rest));
    ListedNext(op, v, Work, [LockUnique(c)] + ([InsertNamed(c, d)] + ([Unlock(c)] + rest)));
    ListedNext(op, v1, Unlock(c), [Work] + ([LockUnique(c)] + ([InsertNamed(c, d)] + ([Unlock(c)] + rest))));
    assert [Unlock(c)] + absent + rest
        == [Unlock(c)] + ([Work] + ([LockUnique(c)] + ([InsertNamed(c, d)] + ([Unlock(c)] + rest))));
  }

  lemma ListedCompile(op: Operation, v: View, d: Key, rest: seq<Cmd>)
    requires Fresh(v, Interpreters) && (d in v.known || CmdListed(op, v, Work))
    requires MayFail(op, Work, Flags(v.held) + {Flag(Interpreters, d)}) && Listed(op, Knowing(v, d), rest)
    ensures Listed(op, v, Compile(d) + rest)
  {
    hide Listed, InitializeInterpreter, Edit, MayFail, Flags;
    var w := Knowing(v, d);
    var tail := [Clear(Interpreters, d), Unlock(Interpreters)] + rest;
    ListedEnds(op, w, Interpreters, d, w.known, rest);
    assert Listed(op, Entered(w, Interpreters, d), tail) by {
      assert Entered(w, Interpreters, d).(known := w.known) == Entered(w, Interpreters, d);
    }
    EnteredFlags(w, Interpreters, d);
    assert After(Entered(w, Interpreters, d), Work) == Entered(w, Interpreters, d);
    ListedNext(op, Entered(w, Interpreters, d), Work, tail);
    ListedEdit(op, w, Interpreters, d, [Work], rest);
    ListedInitialize(op, v, d, Edit(Interpreters, d, [Work]) + rest);
    assert Compile(d) + rest == InitializeInterpreter(d) + (Edit(Interpreters, d, [Work]) + rest);
  }

  lemma ListedRunOn(op: Operation, v: View, s: Key, k: Key, n: nat, rest: seq<Cmd>)
    requires Fresh(v, States(s)) && CmdListed(op, v, Find(States(s), k)) && Listed(op, v, rest)
    ensures Listed(op, v, RunOn(s, k, n) + rest)
  {
    hide Listed, Fresh, MayFail, Flags, Edit;
    var c := States(s);
    var w := Entered(v, c, k);
    var w1 := After(w, Load(c, k));
    var tail := [Clear(c, k), Unlock(c)] + rest;
    assert v.(known := v.known) == v && w.(known := v.known) == w;
    ListedEnds(op, v, c, k, v.known, rest);
    assert After(w1, Store(c, k)) == w by { FreshLoadsNothing(v, c); }
    ListedNext(op, w1, Store(c, k), tail);
    ListedDraws(op, w1, n, [Store(c, k)] + tail);
    ListedNext(op, w, Load(c, k), Draws(n) + ([Store(c, k)] + tail));
    var body := [Load(c, k)] + Draws(n) + [Store(c, k)];
    assert body + tail == [Load(c, k)] + (Draws(n) + ([Store(c, k)] + tail));
    ListedEdit(op, v, c, k, body, rest);
  }

  lemma FreshLoadsNothing(v: View, c: ContainerId)
    requires Fresh(v, c)
    ensures v.loaded.None?
  {
  }

  // ---------------------------------------------------------------- operations

  lemma NoFlags()
    ensures Flags(NOTHING.held) == {}
  {
  }

  /** The body of an edit of a system is as listed, and so is the operation. */
  lemma ListedOnSystem(op: Operation, s: Key, body: seq<Cmd>)
    requires Listed(op, Entered(NOTHING, Systems, s), body + ([Clear(Systems, s), Unlock(Systems)] + []))
    ensures Listed(op, NOTHING, Edit(Systems, s, body))
  {
    hide Listed, Fresh, Edit, Flags, Above;
    NoFlags();
    InsideIsFresh(Systems, s, s);
    ListedEdit(op, NOTHING, Systems, s, body, []);
    assert Edit(Systems, s, body) + [] == Edit(Systems, s, body);
  }

  /** An operation that compiles inside an edit of a system and then goes on. */
  lemma ListedCompiling(op: Operation, s: Key, d: Key, more: seq<Cmd>)
    requires MayFail(op, Work, {Flag(Systems, s)}) && MayFail(op, Work, {Flag(Systems, s), Flag(Interpreters, d)})
    requires Listed(op, Knowing(Entered(NOTHING, Systems, s), d), more + ([Clear(Systems, s), Unlock(Systems)] + []))
    ensures Listed(op, NOTHING, Edit(Systems, s, Compile(d) + more))
  {
    hide Listed, Fresh, Edit, Flags, Above, MayFail, Compile;
    var v := Entered(NOTHING, Systems, s);
    var tail := [Clear(Systems, s), Unlock(Systems)] + [];
    NoFlags();
    EnteredFlags(NOTHING, Systems, s);
    InsideIsFresh(Systems, s, d);
    assert Flags(v.held) == {Flag(Systems, s)};
    assert {Flag(Systems, s)} + {Flag(Interpreters, d)} == {Flag(Systems, s), Flag(Interpreters, d)};
    ListedCompile(op, v, d, more + tail);
    assert Compile(d) + more + tail == Compile(d) + (more + tail);
    ListedOnSystem(op, s, Compile(d) + more);
  }

  /** The end of an edit of a system, after compiling. */
  lemma ListedTail(op: Operation, c: ContainerId, s: Key, known: set<Key>)
    requires c == Systems
    ensures Listed(op, Entered(NOTHING, c, s).(known := known), [Clear(c, s), Unlock(c)] + [])
  {
    hide Listed, Fresh;
    InsideIsFresh(c, s, s);
    ListedNil(op, NOTHING.(known := known));
    ListedEnds(op, NOTHING, c, s, known, []);
  }

  lemma ListedNil(op: Operation, v: View)
    ensures Listed(op, v, [])
  {
  }

  lemma CreateStateListed(s: Key, d: Key, n: nat)
    ensures var op := CreateState(s, d, n); Listed(op, NOTHING, Script(op))
  {
    hide Listed, Fresh, Edit, Flags, Above, Compile, Insert;
    var op := CreateState(s, d, n);
    var w := Knowing(Entered(NOTHING, Systems, s), d);
    var tail := [Clear(Systems, s), Unlock(Systems)] + [];
    InsideIsFresh(Systems, s, d);
    NoFlags();
    EnteredFlags(NOTHING, Systems, s);
    ListedTail(op, Systems, s, w.known);
    ListedInsert(op, w, States(s), tail);
    ListedDraws(op, w, n, Insert(States(s)) + tail);
    assert Draws(n) + Insert(States(s)) + tail == Draws(n) + (Insert(States(s)) + tail);
    ListedCompiling(op, s, d, Draws(n) + Insert(States(s)));
    assert Compile(d) + Draws(n) + Insert(States(s)) == Compile(d) + (Draws(n) + Insert(States(s)));
  }

  lemma RunListed(op: Operation, s: Key, k: Key, d: Key, n: nat)
    requires op == ModifyState(s, k, d, n) || op == MeasureState(s, k, d, n)
    ensures Listed(op, NOTHING, Script(op))
  {
    hide Listed, Fresh, Edit, Flags, Above, Compile, RunOn;
    var w := Knowing(Entered(NOTHING, Systems, s), d);
    InsideIsFresh(Systems, s, d);
    NoFlags();
    EnteredFlags(NOTHING, Systems, s);
    ListedTail(op, Systems, s, w.known);
    ListedRunOn(op, w, s, k, n, [Clear(Systems, s), Unlock(Systems)] + []);
    ListedCompiling(op, s, d, RunOn(s, k, n));
  }

  lemma ComputeListed(s: Key, d: Key, n: nat)
    ensures var op := ComputeResult(s, d, n); Listed(op, NOTHING, Script(op))
  {
    hide Listed, Fresh, Edit, Flags, Above, Compile;
    var op := ComputeResult(s, d, n);
    var w := Knowing(Entered(NOTHING, Systems, s), d);
    ListedTail(op, Systems, s, w.known);
    ListedDraws(op, w, n, [Clear(Systems, s), Unlock(Systems)] + []);
    ListedCompiling(op, s, d, Draws(n));
  }

  lemma DeleteStateListed(s: Key, k: Key)
    ensures var op := DeleteState(s, k); Listed(op, NOTHING, Script(op))
  {
    hide Listed, Fresh, Edit, Above, EraseFrom;
    var op := DeleteState(s, k);
    var v := Entered(NOTHING, Systems, s);
    InsideIsFresh(Systems, s, k);
    ListedTail(op, Systems, s, {});
    assert v.(known := {}) == v;
    ListedErase(op, v, States(s), k, [Clear(Systems, s), Unlock(Systems)] + []);
    ListedOnSystem(op, s, EraseFrom(States(s), k));
  }

  lemma CompileMacroListed(k: Key, d: Key)
    ensures var op := CompileMacro(k, d); Listed(op, NOTHING, Script(op))
  {
    hide Listed, Fresh, Edit, Flags, Above, Compile, Insert, InitializeInterpreter;
    var op := CompileMacro(k, d);
    var u := Knowing(NOTHING, d);
    var v := Entered(u, Kernels, k);
    var tail := [Clear(Kernels, k), Unlock(Kernels)] + [];
    KernelIsFresh(k, d);
    NoFlags();
    EnteredFlags(u, Kernels, k);
    assert NOTHING.known + {d} == {d} && {Flag(Kernels, k)} + {Flag(Interpreters, d)} == {Flag(Kernels, k), Flag(Interpreters, d)};
    assert u.(known := {d}) == u && v.(known := {d}) == v && Knowing(v, d) == v;
    ListedNil(op, u);
    ListedEnds(op, u, Kernels, k, {d}, []);
    ListedInsert(op, v, Macros(k), tail);
    ListedCompile(op, v, d, Insert(Macros(k)) + tail);
    var body := Compile(d) + Insert(Macros(k));
    assert body + tail == Compile(d) + (Insert(Macros(k)) + tail);
    ListedEdit(op, u, Kernels, k, body, []);
    assert Edit(Kernels, k, body) + [] == Edit(Kernels, k, body);
    ListedInitialize(op, NOTHING, d, Edit(Kernels, k, body));
  }

  lemma SimpleListed(op: Operation)
    requires op.CompileProgram? || op.CreateKernel? || op.DeleteKernel? || op.CreateSystem? || op.DeleteSystem?
    ensures Listed(op, NOTHING, Script(op))
  {
    hide Listed, Fresh, Edit, Flags, Above, Compile, Insert, EraseFrom;
    NoFlags();
    ListedNil(op, NOTHING);
    InsideIsFresh(Systems, Id(0), Id(0));
    InsideIsFresh(Kernels, Id(0), Id(0));
    match op
    case CompileProgram(d) =>
      ListedNil(op, Knowing(NOTHING, d));
      assert {} + {Flag(Interpreters, d)} == {Flag(Interpreters, d)};
      ListedCompile(op, NOTHING, d, []);
      assert Compile(d) + [] == Compile(d);
    case CreateKernel =>
      ListedInsert(op, NOTHING, Kernels, []);
      assert Insert(Kernels) + [] == Insert(Kernels);
    case DeleteKernel(k) =>
      ListedErase(op, NOTHING, Kernels, k, []);
      assert EraseFrom(Kernels, k) + [] == EraseFrom(Kernels, k);
    case CreateSystem =>
      ListedInsert(op, NOTHING, Systems, []);
      assert Insert(Systems) + [] == Insert(Systems);
    case DeleteSystem(s) =>
      ListedErase(op, NOTHING, Systems, s, []);
      assert EraseFrom(Systems, s) + [] == EraseFrom(Systems, s);
  }

  /** Every operation of the server, from its beginning, fails inside a body only as listed. */
  lemma ScriptListed(op: Operation)
    ensures Listed(op, NOTHING, Script(op))
  {
    hide Listed, Script;
    match op
    case CompileMacro(k, d) => CompileMacroListed(k, d);
    case CreateState(s, d, n) => CreateStateListed(s, d, n);
    case ModifyState(s, k, d, n) => RunListed(op, s, k, d, n);
    case MeasureState(s, k, d, n) => RunListed(op, s, k, d, n);
    case DeleteState(s, k) => DeleteStateListed(s, k);
    case ComputeResult(s, d, n) => ComputeListed(s, d, n);
    case _ => SimpleListed(op);
  }

  // ---------------------------------------------------------------- runs

  /** Unwinding does not fail. */
  lemma {:induction false} ListedUnwinding(op: Operation, v: View, held: seq<Hold>)
    ensures Listed(op, v, Unwinding(held))
    decreases |held|
  {
    if held != [] {
      var front := held[..|held| - 1];
      match held[|held| - 1].lock
      case List(c) =>
        ListedUnwinding(op, After(v, Unlock(c)), front);
        ListedNext(op, v, Unlock(c), Unwinding(front));
      case Rng =>
        ListedUnwinding(op, After(v, UnlockRng), front);
        ListedNext(op, v, UnlockRng, Unwinding(front));
      case Flag(_, _) => ListedUnwinding(op, v, front);
    }
  }

  /** What a thread fails at stays as listed, whatever step it takes. */
  lemma ListedStep(op: Operation, s: State, t: Tid, throws: bool)
    requires Unfinished(s, t) && Listed(op, s.threads[t].view, s.threads[t].todo) && FoundPresent(s)
    ensures t in Exec(s, t, throws).threads
    ensures var th := Exec(s, t, throws).threads[t]; Listed(op, th.view, th.todo)
  {
    hide Exec, After, Unwinding, WithoutFlags, CmdListed, Present;
    ExecThread(s, t, throws);
    var th := s.threads[t];
    ListedUnwinding(op, Thrown(th).view, th.view.held);
    match th.todo[0]
    case CountThen(c, k, absent) => CountGoes(s, t, throws, c, k, absent);
    case cmd =>
  }

  /** The operation that a thread has begun last. */
  function Current(es: seq<Event>, t: Tid, i: nat): Option<Operation>
    requires i <= |es|
  {
    if i == 0 then None
    else if es[i - 1].Begin? && es[i - 1].t == t then Some(es[i - 1].op)
    else Current(es, t, i - 1)
  }

  lemma {:induction false} RunListedAt(ss: seq<State>, es: seq<Event>, i: nat, t: Tid)
    requires IsRun(ss, es) && i <= |es| < |ss| && t in ss[i].threads
    ensures Current(es, t, i).Some?
    ensures Listed(Current(es, t, i).value, ss[i].threads[t].view, ss[i].threads[t].todo)
  {
    hide IsRun, Exec, Enabled, Listed, Script, Exclusive, LeaksUnheld, ContainersExist, LoadedCurrent, KeysIssued,
         BirthsDistinct, ThreadsOrderly, FoundPresent, Initial;
    if i == 0 {
      NoThreadsYet(ss, es);
    } else {
      AtStep(ss, es, i - 1);
      match es[i - 1]
      case Begin(u, op) =>
        ScriptListed(op);
        if u != t { RunListedAt(ss, es, i - 1, t); }
      case Go(u, throws) =>
        EnabledThread(ss[i - 1], u);
        ExecOthers(ss[i - 1], u, throws);
        RunListedAt(ss, es, i - 1, t);
        if u == t { ListedStep(Current(es, t, i - 1).value, ss[i - 1], t, throws); }
    }
  }

  lemma NoThreadsYet(ss: seq<State>, es: seq<Event>)
    requires IsRun(ss, es)
    ensures |ss| > 0 && ss[0].threads == map[]
  {
  }

  /** In every run, a throw inside a body is one of those listed for the operation: the
      dialect or the text inside an edit, a state that is absent, an insertion into an item.
      It leaves behind exactly the flags that the operation held. */
  lemma FailuresByOperation(ss: seq<State>, es: seq<Event>, i: nat)
    requires IsRun(ss, es) && i < |es| && ThrowsInBody(ss[i], es[i])
    ensures |ss| == |es| + 1
    ensures var th := ss[i].threads[es[i].t];
            && Current(es, es[i].t, i).Some?
            && MayFail(Current(es, es[i].t, i).value, th.todo[0], Flags(th.view.held))
            && ss[i + 1].leaked == ss[i].leaked + Flags(th.view.held)
  {
    hide IsRun, Exec, Enabled, Script, Exclusive, LeaksUnheld, ContainersExist, LoadedCurrent, KeysIssued,
         BirthsDistinct, ThreadsOrderly, FoundPresent, Initial, MayFail, Flags, Present;
    AtStep(ss, es, i);
    var e := es[i];
    var th := ss[i].threads[e.t];
    RunListedAt(ss, es, i, e.t);
    if th.todo[0].Find? && th.todo[0].c == Interpreters { InterpreterFound(ss, es, i, th.todo[0].key); }
    ThrowLeaks(ss[i], e.t, e.throws);
  }

  lemma ThrowLeaks(s: State, t: Tid, throws: bool)
    requires Throws(s, t, throws)
    ensures Exec(s, t, throws).leaked == s.leaked + Flags(s.threads[t].view.held)
  {
    hide After, WithItem, Unwinding, WithoutFlags, Flags;
  }

  // ---------------------------------------------------------------- absent states

  /** Looking up a state that is not there leaves the flag of the system set. */
  lemma AbsentStateLeaks(ss: seq<State>, es: seq<Event>, i: nat, s: Key, k: Key)
    requires IsRun(ss, es) && i < |es|
    requires Doing(ss[i], es[i], Find(States(s), k)) && !Present(ss[i], States(s), k)
    ensures |ss| == |es| + 1 && ThrowsInBody(ss[i], es[i]) && Flag(Systems, s) in ss[i + 1].leaked
  {
    hide IsRun, Exec, Enabled, Script, Exclusive, LeaksUnheld, ContainersExist, LoadedCurrent, KeysIssued,
         BirthsDistinct, ThreadsOrderly, FoundPresent, Initial, Flags, Present;
    AtStep(ss, es, i);
    AllowedNow(ss[i], es[i].t);
    HeldFlags(ss[i].threads[es[i].t].view.held, Flag(Systems, s));
    ThrowLeaks(ss[i], es[i].t, es[i].throws);
  }

  /** Looking up a system or a kernel that is not there throws too, but outside of any body:
      nothing is left behind. */
  lemma AbsentSystemHarmless(ss: seq<State>, es: seq<Event>, i: nat, c: ContainerId, k: Key)
    requires IsRun(ss, es) && i < |es| && (c == Systems || c == Kernels)
    requires Doing(ss[i], es[i], Find(c, k)) && !Present(ss[i], c, k)
    ensures |ss| == |es| + 1 && Throws(ss[i], es[i].t, es[i].throws) && ss[i + 1].leaked == ss[i].leaked
  {
    hide IsRun, Exec, Enabled, Script, Exclusive, LeaksUnheld, ContainersExist, LoadedCurrent, KeysIssued,
         BirthsDistinct, ThreadsOrderly, FoundPresent, Initial, Flags, Present;
    AtStep(ss, es, i);
    ThrowLeaks(ss[i], es[i].t, es[i].throws);
    if ThrowsInBody(ss[i], es[i]) { FailuresByOperation(ss, es, i); }
  }

  /** Erasing an item takes its flag along. */
  lemma EraseTakesFlag(ss: seq<State>, es: seq<Event>, i: nat, c: ContainerId, k: Key, d: ContainerId, l: Key)
    requires IsRun(ss, es) && i < |es| < |ss| && Doing(ss[i], es[i], Erase(c, k)) && Present(ss[i], c, k)
    requires GoesWith(d, l, c, k)
    ensures Flag(d, l) !in ss[i + 1].leaked
  {
    hide IsRun, Enabled, Script, Exclusive, LeaksUnheld, ContainersExist, LoadedCurrent, KeysIssued,
         BirthsDistinct, ThreadsOrderly, FoundPresent, Initial, After, Unwinding, WithoutFlags, WithItem;
    AtStep(ss, es, i);
  }

  /** The item is not erased between states i and j. */
  predicate NotErased(ss: seq<State>, es: seq<Event>, c: ContainerId, k: Key, i: nat, j: nat)
    requires i <= j <= |es| <= |ss|
  {
    forall m :: i <= m < j ==> !Doing(ss[m], es[m], Erase(c, k))
  }

  /** A flag that was left behind on a system, a kernel or an interpreter shuts the item to
      everyone, for as long as it is not erased. */
  lemma {:induction false} ShutForAll(ss: seq<State>, es: seq<Event>, c: ContainerId, k: Key, i: nat, j: nat, t: Tid)
    requires IsRun(ss, es) && i <= j <= |es| < |ss| && Flag(c, k) in ss[i].leaked
    requires !c.States? && !c.Macros? && NotErased(ss, es, c, k, i, j)
    ensures Flag(c, k) in ss[j].leaked && !InBody(ss[j], t, c, k)
  {
    hide IsRun, Exec, Enabled, Script, Exclusive, LeaksUnheld, ContainersExist, LoadedCurrent, KeysIssued,
         BirthsDistinct, ThreadsOrderly, FoundPresent, Initial;
    if i < j {
      ShutForAll(ss, es, c, k, i, j - 1, t);
      AtStep(ss, es, j - 1);
      if es[j - 1].Go? && Flag(c, k) !in ss[j].leaked {
        EnabledThread(ss[j - 1], es[j - 1].t);
        LeakStays(ss[j - 1], es[j - 1].t, es[j - 1].throws, Flag(c, k));
      }
    }
    if InBody(ss[j], t, c, k) { OneBody(ss, es, j, t, t, c, k); }
  }
}
