/** What the containers guarantee to their users, in every run. */
module Guarantees {
  import opened Containers
  import opened LockOrder
  import opened Universe
  import opened Interleaving
  import opened Safety

  /** Thread t may run a body on the item: it has set the item's flag. */
  predicate InBody(s: State, t: Tid, c: ContainerId, k: Key)
  {
    t in s.threads && HoldsAs(s.threads[t].view.held, Flag(c, k), true)
  }

  predicate Doing(s: State, e: Event, cmd: Cmd)
  {
    e.Go? && e.t in s.threads && s.threads[e.t].todo != [] && s.threads[e.t].todo[0] == cmd
  }

  /** The step number i of a run, and the states around it. */
  lemma AtStep(ss: seq<State>, es: seq<Event>, i: nat)
    requires IsRun(ss, es) && i < |es|
    ensures |ss| == |es| + 1 && Step(ss[i], es[i], ss[i + 1])
    ensures Inv(ss[i]) && Inv(ss[i + 1])
  {
    hide Inv, Step;
    RunStep(ss, es, i + 1);
    RunInvariant(ss, es, i);
    RunInvariant(ss, es, i + 1);
  }

  /** At most one thread runs a body on an item, and no thread one on an item whose flag was
      left behind. */
  lemma OneBody(ss: seq<State>, es: seq<Event>, i: nat, t: Tid, u: Tid, c: ContainerId, k: Key)
    requires IsRun(ss, es) && i < |ss|
    requires InBody(ss[i], t, c, k)
    ensures InBody(ss[i], u, c, k) ==> t == u
    ensures Flag(c, k) !in ss[i].leaked
    ensures Present(ss[i], c, k)
  {
    hide IsRun, ThreadsOrderly, Present;
    RunInvariant(ss, es, i);
    var s := ss[i];
    assert Hold(Flag(c, k), true).lock !in s.leaked;
    assert WellView(s.threads[t].view) by { OrderlyThread(s, t); }
    FlagFound(s.threads[t].view, c, k);
    assert Present(s, (c, k).0, (c, k).1);
  }

  lemma OrderlyThread(s: State, t: Tid)
    requires ThreadsOrderly(s) && t in s.threads
    ensures WellView(s.threads[t].view) && Disciplined(s.threads[t].view, s.threads[t].todo)
  {
    hide WellView, Disciplined;
  }

  lemma FlagFound(v: View, c: ContainerId, k: Key)
    requires WellView(v) && Holds(v.held, Flag(c, k))
    ensures (c, k) in v.found && HoldsAs(v.held, List(c), false)
  {
    hide Rank;
    var i :| 0 <= i < |v.held| && v.held[i].lock == Flag(c, k);
    assert (v.held[i].lock.c, v.held[i].lock.key) in v.found;
    assert HoldsAs(v.held, List((c, k).0), false);
  }

  /** While a writer holds a list no flag of its items is set by a thread: an item is not
      erased, nor the list resized, while a body runs on any of its items or on anything
      inside them. */
  lemma WriterExcludesBodies(ss: seq<State>, es: seq<Event>, i: nat, t: Tid, c: ContainerId, u: Tid, k: Key,
                             d: ContainerId, l: Key)
    requires IsRun(ss, es) && i < |ss|
    requires t in ss[i].threads && HoldsAs(ss[i].threads[t].view.held, List(c), true)
    requires GoesWith(d, l, c, k)
    ensures !InBody(ss[i], u, d, l)
  {
    hide IsRun, WellView, ThreadsOrderly, GoesWith;
    RunInvariant(ss, es, i);
    var s := ss[i];
    if InBody(s, u, d, l) {
      OrderlyThread(s, t);
      OrderlyThread(s, u);
      FlagFound(s.threads[u].view, d, l);
      ErasedUnused(s, t, c, k, u, d, l);
    }
  }

  /** Erasing an item that is there removes it and what is inside it, and nothing else,
      and none of that is in use. */
  lemma EraseIsSafe(ss: seq<State>, es: seq<Event>, i: nat, c: ContainerId, k: Key, d: ContainerId, l: Key, u: Tid)
    requires IsRun(ss, es) && i < |es|
    requires Doing(ss[i], es[i], Erase(c, k)) && Present(ss[i], c, k)
    ensures GoesWith(d, l, c, k) ==> !InBody(ss[i], u, d, l)
    ensures Present(ss[i + 1], d, l) <==> Present(ss[i], d, l) && !GoesWith(d, l, c, k)
    ensures Present(ss[i + 1], d, l) ==> ss[i + 1].containers[d].items[l] == ss[i].containers[d].items[l]
  {
    hide IsRun, WellView, ThreadsOrderly, GoesWith, Exec, Enabled, Exclusive, Disciplined, LeaksUnheld, FoundPresent,
         ContainersExist, LoadedCurrent, KeysIssued, BirthsDistinct;
    AtStep(ss, es, i);
    var s, e := ss[i], es[i];
    AllowedNow(s, e.t);
    if GoesWith(d, l, c, k) { WriterExcludesBodies(ss, es, i, e.t, c, u, k, d, l); }
    if Present(s, d, l) {
      ItemKept(s, e.t, e.throws, d, l);
    } else if Present(ss[i + 1], d, l) {
      ItemAdded(s, e.t, e.throws, d, l);
    }
  }

  // ---------------------------------------------------------------- keys

  /** Until its generator wraps, a container gives out a key that is larger than every key
      in use, and so not in use; a new item gets it, unless its constructor throws. */
  lemma FreshKey(ss: seq<State>, es: seq<Event>, i: nat, c: ContainerId, k: Key)
    requires IsRun(ss, es) && i < |es|
    requires Doing(ss[i], es[i], InsertNext(c)) && c in ss[i].containers && ss[i].containers[c].next < KEY_RANGE
    ensures Present(ss[i], c, k) ==> k.Id? && k.id < NextKey(ss[i].containers[c]).id
    ensures Present(ss[i + 1], c, k) <==>
              Present(ss[i], c, k) || (!es[i].throws && k == NextKey(ss[i].containers[c]))
    ensures Present(ss[i + 1], c, k) && !Present(ss[i], c, k) ==>
              ss[i + 1].containers[c].items[k] == Item(ss[i].births, [])
  {
    hide IsRun, WellView, ThreadsOrderly, Enabled, Exclusive, Disciplined, LeaksUnheld, FoundPresent,
         ContainersExist, LoadedCurrent, BirthsDistinct, Unwinding, WithoutFlags, Flags;
    AtStep(ss, es, i);
    var s, e := ss[i], es[i];
    AllowedNow(s, e.t);
  }

  /** The container is there throughout. */
  predicate Lasts(ss: seq<State>, c: ContainerId, i: nat, j: nat)
    requires i <= j < |ss|
  {
    forall m :: i <= m <= j ==> c in ss[m].containers
  }

  lemma GeneratorStep(ss: seq<State>, es: seq<Event>, i: nat, c: ContainerId)
    requires IsRun(ss, es) && i < |es|
    requires c in ss[i].containers && c in ss[i + 1].containers
    ensures ss[i + 1].containers[c].next == ss[i].containers[c].next + if Doing(ss[i], es[i], InsertNext(c)) then 1 else 0
  {
    hide IsRun, Exec, ThreadsOrderly, Exclusive, LeaksUnheld, FoundPresent, ContainersExist, LoadedCurrent, KeysIssued,
         BirthsDistinct, Enabled, Script;
    AtStep(ss, es, i);
    if es[i].Go? {
      EnabledThread(ss[i], es[i].t);
      NextAfter(ss[i], ss[i + 1], es[i].t, es[i].throws, c);
    }
  }

  lemma {:induction false} GeneratorGrows(ss: seq<State>, es: seq<Event>, c: ContainerId, i: nat, j: nat)
    requires IsRun(ss, es) && i <= j < |ss| && Lasts(ss, c, i, j)
    ensures ss[i].containers[c].next <= ss[j].containers[c].next
  {
    hide IsRun;
    if i < j {
      assert |ss| == |es| + 1 by { RunLength(ss, es); }
      GeneratorGrows(ss, es, c, i, j - 1);
      GeneratorStep(ss, es, j - 1, c);
    }
  }

  lemma RunLength(ss: seq<State>, es: seq<Event>)
    requires IsRun(ss, es)
    ensures |ss| == |es| + 1
  {
  }

  /** Keys increase from one insertion to the next, whatever is erased between, until the
      generator wraps. */
  lemma KeysIncrease(ss: seq<State>, es: seq<Event>, c: ContainerId, i: nat, j: nat)
    requires IsRun(ss, es) && i < j < |es| < |ss| && Lasts(ss, c, i, j)
    requires Doing(ss[i], es[i], InsertNext(c)) && Doing(ss[j], es[j], InsertNext(c))
    requires ss[j].containers[c].next < KEY_RANGE
    ensures NextKey(ss[i].containers[c]).id < NextKey(ss[j].containers[c]).id
  {
    hide IsRun;
    GeneratorStep(ss, es, i, c);
    GeneratorGrows(ss, es, c, i + 1, j);
  }

  // ---------------------------------------------------------------- interpreters

  /** A registered name stays registered, for the same object: of two threads that both
      found the name missing, the second one's insertion has no effect. */
  lemma {:induction false} NameNeverRebound(ss: seq<State>, es: seq<Event>, k: Key, i: nat, j: nat)
    requires IsRun(ss, es) && i <= j < |ss|
    requires Present(ss[i], Interpreters, k)
    ensures Present(ss[j], Interpreters, k)
    ensures ss[j].containers[Interpreters].items[k].born == ss[i].containers[Interpreters].items[k].born
  {
    hide IsRun, Exec, ThreadsOrderly, Exclusive, LeaksUnheld, FoundPresent, ContainersExist, LoadedCurrent, KeysIssued,
         BirthsDistinct, Enabled, Script;
    if i < j {
      RunLength(ss, es);
      NameNeverRebound(ss, es, k, i, j - 1);
      AtStep(ss, es, j - 1);
      if es[j - 1].Go? {
        EnabledThread(ss[j - 1], es[j - 1].t);
        InterpreterStays(ss[j - 1], ss[j], es[j - 1].t, es[j - 1].throws, k);
      }
    }
  }

  /** A thread that compiles always finds the interpreter it asked for, although the check
      and the registration are separate operations. */
  lemma InterpreterFound(ss: seq<State>, es: seq<Event>, i: nat, k: Key)
    requires IsRun(ss, es) && i < |es| && Doing(ss[i], es[i], Find(Interpreters, k))
    ensures Present(ss[i], Interpreters, k)
  {
    hide IsRun, Exec, ThreadsOrderly, Exclusive, LeaksUnheld, ContainersExist, LoadedCurrent, KeysIssued,
         BirthsDistinct, Enabled, Script;
    AtStep(ss, es, i);
    AllowedNow(ss[i], es[i].t);
  }

  // ---------------------------------------------------------------- edits

  /** The threads that edited item (c, k) from state i to state j, in the order in which
      they finished. */
  function Editors(ss: seq<State>, es: seq<Event>, c: ContainerId, k: Key, i: nat, j: nat): seq<Tid>
    requires i <= j <= |es| <= |ss|
  {
    if i == j then []
    else Editors(ss, es, c, k, i, j - 1) + if Doing(ss[j - 1], es[j - 1], Store(c, k)) then [es[j - 1].t] else []
  }

  lemma ValueStep(ss: seq<State>, es: seq<Event>, c: ContainerId, k: Key, i: nat)
    requires IsRun(ss, es) && i < |es|
    requires Present(ss[i], c, k) && Present(ss[i + 1], c, k)
    ensures ss[i + 1].containers[c].items[k].value ==
              ss[i].containers[c].items[k].value + if Doing(ss[i], es[i], Store(c, k)) then [es[i].t] else []
  {
    hide IsRun, Exec, ThreadsOrderly, Exclusive, LeaksUnheld, FoundPresent, ContainersExist, KeysIssued,
         BirthsDistinct, Enabled, Script;
    AtStep(ss, es, i);
    if es[i].Go? {
      EnabledThread(ss[i], es[i].t);
      AllowedNow(ss[i], es[i].t);
      ItemKept(ss[i], es[i].t, es[i].throws, c, k);
    }
  }

  predicate StaysPresent(ss: seq<State>, c: ContainerId, k: Key, i: nat, j: nat)
    requires i <= j < |ss|
  {
    forall m :: i <= m <= j ==> Present(ss[m], c, k)
  }

  /** The edits of an item are serial: what a body leaves behind is its edit of everything
      done before it, so no edit is lost or done on a stale value. */
  lemma {:induction false} EditsAreSerial(ss: seq<State>, es: seq<Event>, c: ContainerId, k: Key, i: nat, j: nat)
    requires IsRun(ss, es) && i <= j <= |es| < |ss| && StaysPresent(ss, c, k, i, j)
    ensures ss[j].containers[c].items[k].value == ss[i].containers[c].items[k].value + Editors(ss, es, c, k, i, j)
  {
    hide IsRun, Present;
    if i < j {
      EditsAreSerial(ss, es, c, k, i, j - 1);
      ValueStep(ss, es, c, k, j - 1);
    }
  }
}
