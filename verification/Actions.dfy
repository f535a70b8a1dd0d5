/** The registry of calls (actions.cpp) and its packed look-up. */
module Actions {
  import opened Options

  const ACTIONS_MAXIMUM := 16
  const ACTIONS_METHOD_MAXIMUM := 30

  newtype Byte = b: int | 0 <= b < 256

  /** A call to be registered; functions are told apart by number. */
  datatype Call = Call(method_: seq<Byte>, methodSize: Byte, parameterCount: Byte, function_: nat)

  datatype Outcome = Registered | Refused(why: string)

  /** A registered call. */
  datatype Entry = Entry(name: seq<Byte>, parameters: nat, function_: nat)

  /** What is kept of a call: the name without what follows it, and three bits of the number of
      parameters. */
  function EntryOf(item: Call): Entry
    requires item.methodSize as nat <= |item.method_|
  {
    Entry(item.method_[..item.methodSize as nat], item.parameterCount as nat % 8, item.function_)
  }

  datatype Request = Request(name: seq<Byte>, parameters: nat)

  // ---------------------------------------------------------------- packing

  /** The bytes of a word in memory, the least significant one first. */
  function LittleEndian(bytes: seq<Byte>): nat
  {
    if bytes == [] then 0 else bytes[0] as nat + 256 * LittleEndian(bytes[1..])
  }

  /** word >> 8 * k. */
  function ShiftRight(word: nat, k: nat): nat
  {
    if k == 0 then word else ShiftRight(word / 256, k - 1)
  }

  lemma {:induction false} ShiftDrops(bytes: seq<Byte>, k: nat)
    requires k <= |bytes|
    ensures ShiftRight(LittleEndian(bytes), k) == LittleEndian(bytes[k..])
  {
    if k == 0 {
      assert bytes[0..] == bytes;
    } else {
      ShiftDrops(bytes[1..], k - 1);
      assert bytes[1..][k - 1..] == bytes[k..];
    }
  }

  lemma {:induction false} LittleZero(bytes: seq<Byte>)
    ensures LittleEndian(bytes) == 0 <==> forall i :: 0 <= i < |bytes| ==> bytes[i] == 0
  {
    if bytes != [] {
      LittleZero(bytes[1..]);
      assert forall i :: 0 < i < |bytes| ==> bytes[i] == bytes[1..][i - 1];
    }
  }

  /** A word shifted right by k bytes is 0 if nothing is left in it, and its low byte is
      byte k. */
  lemma ShiftedWord(bytes: seq<Byte>, k: nat)
    requires k < |bytes|
    ensures ShiftRight(LittleEndian(bytes), k) == 0 <==> forall i :: k <= i < |bytes| ==> bytes[i] == 0
    ensures ShiftRight(LittleEndian(bytes), k) % 256 == bytes[k] as nat
  {
    hide LittleEndian, ShiftRight;
    var rest := bytes[k..];
    ShiftDrops(bytes, k);
    LittleZero(rest);
    LowByte(rest);
    assert rest[0] == bytes[k];
    if forall i :: k <= i < |bytes| ==> bytes[i] == 0 {
      assert forall i :: 0 <= i < |rest| ==> rest[i] == bytes[k + i];
    } else {
      var i :| k <= i < |bytes| && bytes[i] != 0;
      assert rest[i - k] != 0;
    }
  }

  lemma LowByte(bytes: seq<Byte>)
    requires bytes != []
    ensures LittleEndian(bytes) % 256 == bytes[0] as nat
  {
    RemainderUnique(LittleEndian(bytes), LittleEndian(bytes[1..]), bytes[0] as nat);
  }

  lemma RemainderUnique(w: nat, q: nat, r: nat)
    requires w == r + 256 * q && r < 256
    ensures w % 256 == r && w / 256 == q
  {
  }

  // ---------------------------------------------------------------- linear search

  /** The size in five bits, the number of parameters in three; what does not fit in a byte
      is lost. */
  function Attributes(size: nat, parameters: nat): Byte
  {
    ((size + parameters * 32) % 256) as Byte
  }

  predicate Answers(e: Entry, q: Request)
  {
    e.name == q.name && e.parameters == q.parameters
  }

  /** The first entry with the request's name and number of parameters. */
  function First(table: seq<Entry>, q: Request): Option<nat>
  {
    if table == [] then None
    else if Answers(table[0], q) then Some(table[0].function_)
    else First(table[1..], q)
  }

  predicate Storable(e: Entry)
  {
    0 < |e.name| <= ACTIONS_METHOD_MAXIMUM && e.parameters < 8
  }

  /** A name that begins with a zero byte leaves its slot looking free. */
  predicate LooksFree(e: Entry)
  {
    |e.name| > 0 && e.name[0] == 0
  }

  /** The entries whose slots look used: an entry that looks free can only be the last, since
      the next registration takes its slot. */
  function Lasting(table: seq<Entry>): seq<Entry>
  {
    if table != [] && LooksFree(table[|table| - 1]) then table[..|table| - 1] else table
  }

  predicate IsTable(table: seq<Entry>)
  {
    && |table| <= ACTIONS_MAXIMUM
    && (forall i :: 0 <= i < |table| ==> Storable(table[i]))
    && (forall i :: 0 <= i < |table| - 1 ==> !LooksFree(table[i]))
  }

  /** The request as its byte of attributes shows it. */
  function Seen(q: Request): Request
  {
    Request(q.name[..|q.name| % 32], (q.parameters + |q.name| / 32) % 8)
  }

  lemma AttributeParts(size: nat, parameters: nat)
    ensures Attributes(size, parameters) as nat == size % 32 + 32 * ((parameters + size / 32) % 8)
  {
    var k := parameters + size / 32;
    RemainderUnique(size + parameters * 32, k / 8, size % 32 + 32 * (k % 8));
  }

  lemma AttributesOf(e: Entry, q: Request)
    requires Storable(e)
    ensures Attributes(|e.name|, e.parameters) == Attributes(|q.name|, q.parameters)
       <==> |e.name| == |Seen(q).name| && e.parameters == Seen(q).parameters
    ensures Attributes(|q.name|, q.parameters) as nat % 32 == |Seen(q).name|
    ensures Attributes(|e.name|, e.parameters) != 0
  {
    hide Attributes;
    AttributeParts(|e.name|, e.parameters);
    AttributeParts(|q.name|, q.parameters);
  }

  lemma {:induction false} FirstAt(table: seq<Entry>, q: Request, k: nat)
    requires k <= |table| && forall m :: 0 <= m < k ==> !Answers(table[m], q)
    ensures k == |table| ==> First(table, q) == None
    ensures k < |table| && Answers(table[k], q) ==> First(table, q) == Some(table[k].function_)
  {
    if k > 0 { FirstAt(table[1..], q, k - 1); }
  }

  lemma {:induction false} OnlyStorableFound(table: seq<Entry>, q: Request)
    requires (forall i :: 0 <= i < |table| ==> Storable(table[i])) && !Storable(Entry(q.name, q.parameters, 0))
    ensures First(table, q) == None
  {
    if table != [] {
      assert Storable(table[0]);
      OnlyStorableFound(table[1..], q);
    }
  }

  /** A name of less than 32 bytes with at most 7 parameters, or one that is cut down to
      what no call is named. */
  predicate Recognised(q: Request)
  {
    (|q.name| < 32 && q.parameters < 8) || |q.name| % 32 == 0 || |q.name| % 32 == 31
  }

  /** The packed search finds what a linear search finds, in every table, for exactly these
      requests: for any other there is a table in which it takes the request for another. */
  lemma PackedIsLinear(q: Request)
    ensures (forall table :: IsTable(table) ==> First(table, Seen(q)) == First(table, q)) <==> Recognised(q)
  {
    hide First, Storable;
    var seen := Seen(q);
    if |q.name| < 32 && q.parameters < 8 {
      assert seen == q;
    } else if Recognised(q) {
      NotStorable(q);
      forall table | IsTable(table) ensures First(table, seen) == First(table, q) {
        OnlyStorableFound(table, seen);
        OnlyStorableFound(table, q);
      }
    } else {
      var e := Entry(seen.name, seen.parameters, 0);
      Mistaken(q, e);
      assert IsTable([e]) && First([e], seen) != First([e], q);
    }
  }

  lemma NotStorable(q: Request)
    requires Recognised(q) && !(|q.name| < 32 && q.parameters < 8)
    ensures !Storable(Entry(q.name, q.parameters, 0)) && !Storable(Entry(Seen(q).name, Seen(q).parameters, 0))
  {
  }

  lemma Mistaken(q: Request, e: Entry)
    requires !Recognised(q) && e == Entry(Seen(q).name, Seen(q).parameters, 0)
    ensures IsTable([e]) && First([e], Seen(q)) == Some(0) && First([e], q) == None
  {
    assert [e][1..] == [];
  }

  // ---------------------------------------------------------------- the registry

  /** Slot i of the arrays holds the entry e. */
  predicate Slot(e: Entry, i: nat, functions: seq<nat>, attributes: seq<Byte>, methods: seq<Byte>)
    requires i < ACTIONS_MAXIMUM == |functions| == |attributes| && |methods| == ACTIONS_MAXIMUM * (ACTIONS_METHOD_MAXIMUM + 1)
  {
    var at := i * ACTIONS_METHOD_MAXIMUM;
    && Storable(e)
    && attributes[i] == Attributes(|e.name|, e.parameters)
    && methods[at..at + |e.name|] == e.name
    && functions[i] == e.function_
  }

  /** The arrays hold the table, and behind it nothing. */
  predicate Holds(table: seq<Entry>, functions: seq<nat>, attributes: seq<Byte>, methods: seq<Byte>)
  {
    && |table| <= ACTIONS_MAXIMUM == |functions| == |attributes|
    && |methods| == ACTIONS_MAXIMUM * (ACTIONS_METHOD_MAXIMUM + 1)
    && IsTable(table)
    && (forall i :: 0 <= i < |table| ==> Slot(table[i], i, functions, attributes, methods))
    && (forall i :: |table| <= i < ACTIONS_MAXIMUM ==> attributes[i] == 0 && methods[i * ACTIONS_METHOD_MAXIMUM] == 0)
  }

  function Stored(methods: seq<Byte>, name: seq<Byte>, at: nat): seq<Byte>
    requires at + |name| <= |methods|
  {
    methods[..at] + name + methods[at + |name|..]
  }

  lemma StoredElsewhere(methods: seq<Byte>, name: seq<Byte>, at: nat, lo: nat, hi: nat)
    requires at + |name| <= |methods| && lo <= hi <= |methods| && (hi <= at || at + |name| <= lo)
    ensures |Stored(methods, name, at)| == |methods| && Stored(methods, name, at)[lo..hi] == methods[lo..hi]
    ensures Stored(methods, name, at)[at..at + |name|] == name
  {
  }

  /** Writing one slot keeps the others. */
  lemma SlotKept(e: Entry, i: nat, f: Entry, id: nat, functions: seq<nat>, attributes: seq<Byte>, methods: seq<Byte>)
    requires i < id < ACTIONS_MAXIMUM == |functions| == |attributes|
    requires |methods| == ACTIONS_MAXIMUM * (ACTIONS_METHOD_MAXIMUM + 1)
    requires Storable(f) && Slot(e, i, functions, attributes, methods)
    ensures |Stored(methods, f.name, id * ACTIONS_METHOD_MAXIMUM)| == |methods|
    ensures Slot(e, i, functions[id := f.function_], attributes[id := Attributes(|f.name|, f.parameters)],
              Stored(methods, f.name, id * ACTIONS_METHOD_MAXIMUM))
  {
    hide Stored, Attributes;
    var at := i * ACTIONS_METHOD_MAXIMUM;
    StoredElsewhere(methods, f.name, id * ACTIONS_METHOD_MAXIMUM, at, at + |e.name|);
  }

  lemma FreeKept(i: nat, name: seq<Byte>, id: nat, methods: seq<Byte>)
    requires id < i < ACTIONS_MAXIMUM && |name| <= ACTIONS_METHOD_MAXIMUM
    requires |methods| == ACTIONS_MAXIMUM * (ACTIONS_METHOD_MAXIMUM + 1)
    ensures |Stored(methods, name, id * ACTIONS_METHOD_MAXIMUM)| == |methods|
    ensures Stored(methods, name, id * ACTIONS_METHOD_MAXIMUM)[i * ACTIONS_METHOD_MAXIMUM] == methods[i * ACTIONS_METHOD_MAXIMUM]
  {
  }

  lemma LastingTable(table: seq<Entry>, e: Entry)
    requires IsTable(table) && Storable(e) && |Lasting(table)| < ACTIONS_MAXIMUM
    ensures IsTable(Lasting(table) + [e])
    ensures |Lasting(table)| <= |table| && forall i :: 0 <= i < |Lasting(table)| ==> Lasting(table)[i] == table[i]
    ensures |table| <= |Lasting(table)| + 1
  {
  }

  /** A registration into the first slot that looks free keeps the slots before it. */
  lemma SlotsAfter(table: seq<Entry>, e: Entry, functions: seq<nat>, attributes: seq<Byte>, methods: seq<Byte>, id: nat)
    requires id == |Lasting(table)| < ACTIONS_MAXIMUM && Storable(e) && Holds(table, functions, attributes, methods)
    ensures Holds(Lasting(table) + [e], functions[id := e.function_],
              attributes[id := Attributes(|e.name|, e.parameters)], Stored(methods, e.name, id * ACTIONS_METHOD_MAXIMUM))
  {
    hide Stored, Attributes, Slot, Lasting, Storable;
    LastingTable(table, e);
    StorableSize(e);
    var at := id * ACTIONS_METHOD_MAXIMUM;
    var methods', table' := Stored(methods, e.name, at), Lasting(table) + [e];
    var functions', attributes' := functions[id := e.function_], attributes[id := Attributes(|e.name|, e.parameters)];
    SlotStored(e, id, functions, attributes, methods);
    forall i | 0 <= i < id ensures Slot(table'[i], i, functions', attributes', methods') {
      SlotKept(table[i], i, e, id, functions, attributes, methods);
    }
    forall i | id < i < ACTIONS_MAXIMUM ensures methods'[i * ACTIONS_METHOD_MAXIMUM] == 0 {
      FreeKept(i, e.name, id, methods);
    }
  }

  lemma StorableSize(e: Entry)
    requires Storable(e)
    ensures |e.name| <= ACTIONS_METHOD_MAXIMUM
  {
  }

  lemma SlotStored(e: Entry, id: nat, functions: seq<nat>, attributes: seq<Byte>, methods: seq<Byte>)
    requires id < ACTIONS_MAXIMUM == |functions| == |attributes| && Storable(e)
    requires |methods| == ACTIONS_MAXIMUM * (ACTIONS_METHOD_MAXIMUM + 1)
    ensures |Stored(methods, e.name, id * ACTIONS_METHOD_MAXIMUM)| == |methods|
    ensures Slot(e, id, functions[id := e.function_], attributes[id := Attributes(|e.name|, e.parameters)],
              Stored(methods, e.name, id * ACTIONS_METHOD_MAXIMUM))
  {
    hide Stored, Attributes;
    StoredElsewhere(methods, e.name, id * ACTIONS_METHOD_MAXIMUM, 0, 0);
  }

  /** A slot looks used exactly if an entry that lasts is in it, and has attributes exactly if
      any entry is in it. */
  lemma UsedSlot(table: seq<Entry>, functions: seq<nat>, attributes: seq<Byte>, methods: seq<Byte>, i: nat)
    requires Holds(table, functions, attributes, methods) && i < ACTIONS_MAXIMUM
    ensures i < |Lasting(table)| <==> methods[i * ACTIONS_METHOD_MAXIMUM] != 0
    ensures i < |table| <==> attributes[i] != 0
  {
    hide Attributes;
    if i < |table| {
      var e, at := table[i], i * ACTIONS_METHOD_MAXIMUM;
      assert Slot(e, i, functions, attributes, methods);
      assert methods[at..at + |e.name|][0] == methods[at];
      AttributesOf(e, Request(e.name, e.parameters));
    }
  }

  /** The test of one slot: its byte of attributes and as much of its name. */
  lemma SlotAnswers(table: seq<Entry>, functions: seq<nat>, attributes: seq<Byte>, methods: seq<Byte>, i: nat, q: Request)
    requires Holds(table, functions, attributes, methods) && i < |table|
    ensures var at := i * ACTIONS_METHOD_MAXIMUM;
            Answers(table[i], Seen(q)) <==>
              attributes[i] == Attributes(|q.name|, q.parameters) && Seen(q).name == methods[at..at + |Seen(q).name|]
    ensures functions[i] == table[i].function_
  {
    hide Attributes;
    assert Slot(table[i], i, functions, attributes, methods);
    AttributesOf(table[i], q);
  }

  class RegisteredCalls {
    const functions: array<nat>
    const methodsAttr: array<Byte>
    const methods: array<Byte>
    ghost var table: seq<Entry>

    ghost predicate Valid()
      reads this, functions, methodsAttr, methods
    {
      methods != methodsAttr && Holds(table, functions[..], methodsAttr[..], methods[..])
    }

    constructor ()
      ensures Valid() && table == [] && fresh(functions) && fresh(methodsAttr) && fresh(methods)
    {
      functions := new nat[ACTIONS_MAXIMUM](_ => 0);
      methodsAttr := new Byte[ACTIONS_MAXIMUM](_ => 0);
      methods := new Byte[ACTIONS_MAXIMUM * (ACTIONS_METHOD_MAXIMUM + 1)](_ => 0);
      table := [];
    }

    /** register_call: into the first slot that looks free, unless there is none or the name
        does not fit. */
    method RegisterCall(item: Call) returns (r: Outcome)
      requires Valid() && |item.method_| == ACTIONS_METHOD_MAXIMUM
      modifies this`table, functions, methodsAttr, methods
      ensures Valid()
      ensures r == (if |Lasting(old(table))| == ACTIONS_MAXIMUM then Refused("array bounds exceeded")
                    else if item.methodSize == 0 then Refused("zero length")
                    else if item.methodSize as nat > ACTIONS_METHOD_MAXIMUM then Refused("array bounds exceeded")
                    else Registered)
      ensures r.Refused? ==> table == old(table)
      ensures r.Registered? ==>
        && |table| == |Lasting(old(table))| + 1 && table[..|table| - 1] == Lasting(old(table))
        && var e := table[|table| - 1];
           && e.name == item.method_[..item.methodSize as nat] && e.function_ == item.function_
           && e.parameters == item.parameterCount as nat % 8
    {
      hide Holds, Attributes, Lasting, Stored;
      ghost var t, fs, bytes, ms := table, functions[..], methodsAttr[..], methods[..];
      HeldSizes(t, fs, bytes, ms);
      LastingSize(t);
      var id := 0;
      while id < ACTIONS_MAXIMUM && methods[id * ACTIONS_METHOD_MAXIMUM] != 0
        invariant 0 <= id <= |Lasting(t)|
        invariant table == t && functions[..] == fs && methodsAttr[..] == bytes && methods[..] == ms
      {
        UsedSlot(t, fs, bytes, ms, id);
        id := id + 1;
      }
      if id >= ACTIONS_MAXIMUM { return Refused("array bounds exceeded"); }
      UsedSlot(t, fs, bytes, ms, id);
      var size, count := item.methodSize as nat, item.parameterCount as nat;
      if size == 0 { return Refused("zero length"); }
      if size > ACTIONS_METHOD_MAXIMUM { return Refused("array bounds exceeded"); }
      ghost var e := EntryOf(item);
      SlotsAfter(t, e, fs, bytes, ms, id);
      AttributeParts(size, count);
      AttributeParts(size, count % 8);
      methodsAttr[id] := Attributes(size, count);
      var at := id * ACTIONS_METHOD_MAXIMUM;
      forall k | 0 <= k < size { methods[at + k] := item.method_[k]; }
      functions[id] := item.function_;
      StoredIs(ms, e.name, at, methods[..]);
      assert methodsAttr[..] == bytes[id := Attributes(|e.name|, e.parameters)];
      assert functions[..] == fs[id := e.function_];
      table := Lasting(t) + [e];
      return Registered;
    }

    /** find_call: eight slots at a time, their attributes in one word. */
    method FindCall(q: Request) returns (r: Option<nat>)
      requires Valid()
      ensures r == First(table, Seen(q))
    {
      hide Holds, Attributes, First, Seen, LittleEndian, ShiftRight;
      HeldSizes(table, functions[..], methodsAttr[..], methods[..]);
      var methodAttr := Attributes(|q.name|, q.parameters);
      var size := methodAttr as nat % 32;
      SeenSize(q);
      var i := 0;
      while i < ACTIONS_MAXIMUM
        invariant 0 <= i <= ACTIONS_MAXIMUM && i % 8 == 0 && i <= |table|
        invariant forall m :: 0 <= m < i ==> !Answers(table[m], Seen(q))
      {
        var word := LittleEndian(methodsAttr[i..i + 8]);
        var j := 0;
        while j < 8
          invariant 0 <= j <= 8 && i + j <= |table|
          invariant forall m :: 0 <= m < i + j ==> !Answers(table[m], Seen(q))
        {
          ShiftedWord(methodsAttr[i..i + 8], j);
          LaterSlots(table, functions[..], methodsAttr[..], methods[..], i, j, methodsAttr[i..i + 8]);
          FirstAt(table, Seen(q), i + j);
          var at := (i + j) * ACTIONS_METHOD_MAXIMUM;
          if ShiftRight(word, j) == 0 {
            return None;
          }
          SlotAnswers(table, functions[..], methodsAttr[..], methods[..], i + j, q);
          if ShiftRight(word, j) % 256 == methodAttr as nat && q.name[..size] == methods[at..at + size] {
            return Some(functions[i + j]);
          }
          j := j + 1;
        }
        i := i + 8;
      }
      FirstAt(table, Seen(q), |table|);
      return None;
    }
  }

  lemma StoredIs(methods: seq<Byte>, name: seq<Byte>, at: nat, methods': seq<Byte>)
    requires at + |name| <= |methods| == |methods'|
    requires forall k :: 0 <= k < |methods| ==> methods'[k] == if at <= k < at + |name| then name[k - at] else methods[k]
    ensures methods' == Stored(methods, name, at)
  {
  }

  lemma LastingSize(table: seq<Entry>)
    ensures |Lasting(table)| <= |table|
  {
  }

  lemma HeldSizes(table: seq<Entry>, functions: seq<nat>, attributes: seq<Byte>, methods: seq<Byte>)
    requires Holds(table, functions, attributes, methods)
    ensures |table| <= ACTIONS_MAXIMUM == |functions| == |attributes|
    ensures |methods| == ACTIONS_MAXIMUM * (ACTIONS_METHOD_MAXIMUM + 1)
  {
  }

  lemma SeenSize(q: Request)
    ensures Attributes(|q.name|, q.parameters) as nat % 32 == |Seen(q).name| == |q.name| % 32
    ensures Seen(q).name == q.name[..|q.name| % 32]
  {
    AttributeParts(|q.name|, q.parameters);
  }

  /** Slots are used without gaps: if the attributes from slot i + j on are all zero, the
      table has ended, and otherwise slot i + j is used. */
  lemma LaterSlots(table: seq<Entry>, functions: seq<nat>, attributes: seq<Byte>, methods: seq<Byte>, i: nat, j: nat,
                   bytes: seq<Byte>)
    requires Holds(table, functions, attributes, methods) && i + 8 <= ACTIONS_MAXIMUM == |attributes|
    requires j < 8 && i + j <= |table| && bytes == attributes[i..i + 8]
    ensures (forall k :: j <= k < 8 ==> bytes[k] == 0) <==> |table| == i + j
  {
    hide Holds;
    HeldSizes(table, functions, attributes, methods);
    forall k | j <= k < 8 ensures bytes[k] != 0 <==> i + k < |table| {
      assert bytes[k] == attributes[i + k];
      UsedSlot(table, functions, attributes, methods, i + k);
    }
    assert bytes[j] != 0 <==> i + j < |table|;
  }

  // ---------------------------------------------------------------- calls

  /** A call whose name has 1 to 30 bytes, the first of them not zero, with at most 7
      parameters. */
  predicate Plain(c: Call)
  {
    && |c.method_| == ACTIONS_METHOD_MAXIMUM && 0 < c.methodSize as nat <= ACTIONS_METHOD_MAXIMUM
    && c.method_[0] != 0 && c.parameterCount < 8
  }

  /** The request asks for this call, by its name and its number of parameters. */
  predicate Asks(q: Request, c: Call)
    requires Plain(c)
  {
    c.method_[..c.methodSize as nat] == q.name && c.parameterCount as nat == q.parameters
  }

  /** The table holds these calls, in order. */
  predicate Knows(table: seq<Entry>, calls: seq<Call>)
  {
    && |table| == |calls|
    && (forall i :: 0 <= i < |calls| ==> Plain(calls[i]))
    && (forall i :: 0 <= i < |calls| ==>
          && table[i].name == calls[i].method_[..calls[i].methodSize as nat]
          && table[i].parameters == calls[i].parameterCount as nat && table[i].function_ == calls[i].function_)
  }

  /** The function of the first call that the request asks for, or none exactly if it asks
      for none of them. */
  predicate FirstCall(calls: seq<Call>, q: Request, r: Option<nat>)
    requires forall i :: 0 <= i < |calls| ==> Plain(calls[i])
  {
    match r
    case None => forall i :: 0 <= i < |calls| ==> !Asks(q, calls[i])
    case Some(f) =>
      exists k :: 0 <= k < |calls| && Asks(q, calls[k]) && calls[k].function_ == f
                  && forall i :: 0 <= i < k ==> !Asks(q, calls[i])
  }

  lemma {:induction false} FirstFromCalls(table: seq<Entry>, calls: seq<Call>, q: Request, k: nat)
    requires Knows(table, calls) && k <= |calls| && forall i :: 0 <= i < k ==> !Asks(q, calls[i])
    ensures FirstCall(calls, q, First(table, q))
    decreases |calls| - k
  {
    hide First;
    assert forall i :: 0 <= i < k ==> !Answers(table[i], q) by {
      forall i | 0 <= i < k ensures !Answers(table[i], q) { assert !Asks(q, calls[i]); }
    }
    FirstAt(table, q, k);
    if k < |calls| && !Asks(q, calls[k]) {
      FirstFromCalls(table, calls, q, k + 1);
    } else if k < |calls| {
      assert Answers(table[k], q);
    }
  }

  lemma OneMore(table: seq<Entry>, table': seq<Entry>, calls: seq<Call>, c: Call)
    requires Knows(table, calls) && Plain(c) && |table'| == |table| + 1 && table'[..|table|] == table
    requires table'[|table|].name == c.method_[..c.methodSize as nat] && table'[|table|].function_ == c.function_
    requires table'[|table|].parameters == c.parameterCount as nat
    ensures Knows(table', calls + [c])
  {
    assert forall i :: 0 <= i < |table| ==> table'[i] == table'[..|table|][i];
  }

  lemma AllLast(table: seq<Entry>, calls: seq<Call>)
    requires Knows(table, calls)
    ensures Lasting(table) == table
  {
    if table != [] { assert table[|table| - 1].name[0] == calls[|calls| - 1].method_[0]; }
  }

  /** The calls that there is room for. */
  function Fitting(calls: seq<Call>): seq<Call>
  {
    if |calls| <= ACTIONS_MAXIMUM then calls else calls[..ACTIONS_MAXIMUM]
  }

  /** A registration adds its call while there is room. */
  lemma KnowsNext(table: seq<Entry>, table': seq<Entry>, calls: seq<Call>, i: nat)
    requires i < |calls| && Knows(table, Fitting(calls[..i])) && Plain(calls[i])
    requires |Lasting(table)| == ACTIONS_MAXIMUM ==> table' == table
    requires |Lasting(table)| != ACTIONS_MAXIMUM ==>
      && |table'| == |Lasting(table)| + 1 && table'[..|table'| - 1] == Lasting(table)
      && var e, c := table'[|table'| - 1], calls[i];
         && e.name == c.method_[..c.methodSize as nat] && e.function_ == c.function_
         && e.parameters == c.parameterCount as nat % 8
    ensures Knows(table', Fitting(calls[..i + 1]))
  {
    hide Knows, Lasting, Plain;
    AllLast(table, Fitting(calls[..i]));
    KnownSize(table, Fitting(calls[..i]));
    assert calls[..i + 1] == calls[..i] + [calls[i]];
    if |table| == ACTIONS_MAXIMUM {
      assert Fitting(calls[..i + 1]) == Fitting(calls[..i]);
    } else {
      PlainCount(calls[i]);
      OneMore(table, table', calls[..i], calls[i]);
    }
  }

  lemma KnownSize(table: seq<Entry>, calls: seq<Call>)
    requires Knows(table, calls)
    ensures |table| == |calls|
  {
  }

  lemma PlainCount(c: Call)
    requires Plain(c)
    ensures c.methodSize as nat <= |c.method_| && c.parameterCount as nat % 8 == c.parameterCount as nat
  {
  }

  lemma PlainFits(c: Call)
    requires Plain(c)
    ensures |c.method_| == ACTIONS_METHOD_MAXIMUM && 0 < c.methodSize as nat <= ACTIONS_METHOD_MAXIMUM
  {
  }

  /** Registers all calls, one after the other, as the registrars of the program do. */
  method RegisterAll(calls: seq<Call>) returns (registry: RegisteredCalls)
    requires forall i :: 0 <= i < |calls| ==> Plain(calls[i])
    ensures registry.Valid() && fresh(registry) && Knows(registry.table, Fitting(calls))
  {
    hide Holds, Knows, Fitting, Lasting, Plain;
    registry := new RegisteredCalls();
    NothingKnown(calls);
    for i := 0 to |calls|
      invariant registry.Valid() && fresh(registry.functions) && fresh(registry.methodsAttr) && fresh(registry.methods)
      invariant fresh(registry) && Knows(registry.table, Fitting(calls[..i]))
    {
      ghost var table := registry.table;
      PlainFits(calls[i]);
      var r := registry.RegisterCall(calls[i]);
      KnowsNext(table, registry.table, calls, i);
    }
    assert calls[..|calls|] == calls;
  }

  lemma NothingKnown(calls: seq<Call>)
    ensures Knows([], Fitting(calls[..0]))
  {
  }

  /** From registration to look-up: the first call with the request's name and number of
      parameters is found, whatever was registered, and none exactly if there is none. */
  method FindAmong(calls: seq<Call>, q: Request) returns (r: Option<nat>)
    requires forall i :: 0 <= i < |calls| ==> Plain(calls[i])
    requires |q.name| < 32 && q.parameters < 8
    ensures forall i :: 0 <= i < |Fitting(calls)| ==> Plain(Fitting(calls)[i])
    ensures FirstCall(Fitting(calls), q, r)
  {
    var registry := RegisterAll(calls);
    r := registry.FindCall(q);
    assert Seen(q) == q;
    FirstFromCalls(registry.table, Fitting(calls), q, 0);
  }
}
