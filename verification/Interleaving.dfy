/** Everything that can happen when many threads run operations at once. */
module Interleaving {
  import opened Options
  import opened Containers
  import opened LockOrder
  import opened Universe

  /** A thread begins an operation, or takes a step of the one it is in. */
  datatype Event = Begin(t: Tid, op: Operation) | Go(t: Tid, throws: bool)

  function Initial(): State
  {
    State(map[], map[Systems := NO_ITEMS, Kernels := NO_ITEMS, Interpreters := NO_ITEMS], {}, false, 0)
  }

  ghost predicate Step(s: State, e: Event, s': State)
  {
    match e
    case Begin(t, op) =>
      (t in s.threads ==> s.threads[t].todo == []) && s' == Update(s, t, Thread(NOTHING, [], Script(op)))
    case Go(t, throws) =>
      Enabled(s, t) && s' == Exec(s, t, throws)
  }

  ghost predicate IsRun(ss: seq<State>, es: seq<Event>)
  {
    && |ss| == |es| + 1 && ss[0] == Initial()
    && forall i :: 0 <= i < |es| ==> Step(ss[i], es[i], ss[i + 1])
  }

  // ---------------------------------------------------------------- the invariant

  ghost predicate ThreadsOrderly(s: State)
  {
    forall t :: t in s.threads ==> WellView(s.threads[t].view) && Disciplined(s.threads[t].view, s.threads[t].todo)
  }

  /** Two threads share a lock only if both are readers. */
  ghost predicate Exclusive(s: State)
  {
    forall t, u, h, g ::
      (t in s.threads && u in s.threads && t != u && h in s.threads[t].view.held && g in s.threads[u].view.held
       && h.lock == g.lock) ==> !h.exclusive && !g.exclusive
  }

  ghost predicate LeaksUnheld(s: State)
  {
    && (forall t, h :: t in s.threads && h in s.threads[t].view.held ==> h.lock !in s.leaked)
    && (forall l :: l in s.leaked ==> l.Flag?)
    && (!s.fault ==> s.leaked == {})
  }

  /** What a thread has looked up is still there. */
  ghost predicate FoundPresent(s: State)
  {
    && (forall t, p :: t in s.threads && p in s.threads[t].view.found ==> Present(s, p.0, p.1))
    && (forall t, k :: t in s.threads && k in s.threads[t].view.known ==> Present(s, Interpreters, k))
  }

  /** Containers exist exactly as long as the items they belong to. */
  ghost predicate ContainersExist(s: State)
  {
    && Systems in s.containers && Kernels in s.containers && Interpreters in s.containers
    && (forall k :: States(k) in s.containers <==> Present(s, Systems, k))
    && (forall k :: Macros(k) in s.containers <==> Present(s, Kernels, k))
  }

  /** The value a body is working on is the item's value. */
  ghost predicate LoadedCurrent(s: State)
  {
    forall t :: t in s.threads && s.threads[t].view.loaded.Some? ==>
      var p := s.threads[t].view.loaded.value;
      Present(s, p.0, p.1) && s.containers[p.0].items[p.1].value == s.threads[t].local
  }

  /** Integer keys have been handed out by the generator. */
  ghost predicate KeysIssued(s: State)
  {
    forall c, k :: c != Interpreters && Present(s, c, k) ==>
      k.Id? && (s.containers[c].next <= KEY_RANGE ==> k.id < s.containers[c].next)
  }

  /** Items are distinct objects. */
  ghost predicate BirthsDistinct(s: State)
  {
    && (forall c, k :: Present(s, c, k) ==> s.containers[c].items[k].born < s.births)
    && (forall c, k, d, l ::
          (Present(s, c, k) && Present(s, d, l) && s.containers[c].items[k].born == s.containers[d].items[l].born) ==>
            c == d && k == l)
  }

  ghost predicate Inv(s: State)
  {
    && ThreadsOrderly(s) && Exclusive(s) && LeaksUnheld(s) && FoundPresent(s) && ContainersExist(s)
    && LoadedCurrent(s) && KeysIssued(s) && BirthsDistinct(s)
  }

  // ---------------------------------------------------------------- unwinding

  lemma {:induction false} UnwindDisciplined(v: View, held: seq<Hold>)
    requires v.held == WithoutFlags(held)
    ensures Disciplined(v, Unwinding(held))
    decreases held
  {
    if held != [] {
      var front, last := held[..|held| - 1], held[|held| - 1];
      match last.lock
      case List(c) =>
        var w := After(v, Unlock(c));
        assert w.held == WithoutFlags(front);
        UnwindDisciplined(w, front);
        Next(v, Unlock(c), Unwinding(front));
      case Rng =>
        var w := After(v, UnlockRng);
        assert w.held == WithoutFlags(front);
        UnwindDisciplined(w, front);
        Next(v, UnlockRng, Unwinding(front));
      case Flag(_, _) =>
        UnwindDisciplined(v, front);
    }
  }

  lemma {:induction false} WithoutFlagsKeeps(held: seq<Hold>, h: Hold)
    ensures h in WithoutFlags(held) <==> h in held && !h.lock.Flag?
  {
    if held != [] {
      var front := held[..|held| - 1];
      WithoutFlagsKeeps(front, h);
      assert held == front + [held[|held| - 1]];
    }
  }

  lemma {:induction false} WithoutFlagsOrdered(held: seq<Hold>)
    requires forall i, j :: 0 <= i < j < |held| ==> Rank(held[i].lock) < Rank(held[j].lock)
    ensures var w := WithoutFlags(held); forall i, j :: 0 <= i < j < |w| ==> Rank(w[i].lock) < Rank(w[j].lock)
  {
    if held != [] {
      var front, last := held[..|held| - 1], held[|held| - 1];
      WithoutFlagsOrdered(front);
      var w := WithoutFlags(front);
      forall i | 0 <= i < |w| ensures Rank(w[i].lock) < Rank(last.lock) {
        WithoutFlagsKeeps(front, w[i]);
        var k :| 0 <= k < |front| && front[k] == w[i];
      }
    }
  }

  lemma ThrownWell(v: View)
    requires WellView(v)
    ensures WellView(v.(held := WithoutFlags(v.held), loaded := None))
  {
    hide Rank;
    var w := WithoutFlags(v.held);
    WithoutFlagsOrdered(v.held);
    forall i | 0 <= i < |w|
      ensures (w[i].lock.List? || w[i].exclusive) && !w[i].lock.Flag? && w[i] in v.held
    {
      WithoutFlagsKeeps(v.held, w[i]);
    }
    forall p | p in v.found ensures HoldsAs(w, List(p.0), false) {
      assert HoldsAs(v.held, List(p.0), false);
      WithoutFlagsKeeps(v.held, Hold(List(p.0), false));
    }
  }
}
