/** managed_container.hpp and string_buffer.hpp: a buffer that lives on the stack while
    it is small and moves to the heap when it grows, down to the bytes. */
module Buffers {
  import opened Utility

  const WORD_SIZE := 8

  // ---------------------------------------------------------------- a size_t in memory

  function Power256(k: nat): nat
  {
    if k == 0 then 1 else 256 * Power256(k - 1)
  }

  /** The low k bytes of v, lowest first. */
  function Encoded(v: nat, k: nat): (s: string)
    ensures |s| == k
  {
    if k == 0 then "" else [(v % 256) as char] + Encoded(v / 256, k - 1)
  }

  function Decoded(s: string): nat
  {
    if s == "" then 0 else s[0] as int + 256 * Decoded(s[1..])
  }

  lemma {:induction false} DecodeEncoded(v: nat, k: nat)
    requires v < Power256(k)
    ensures Decoded(Encoded(v, k)) == v
  {
    if k > 0 {
      DecodeEncoded(v / 256, k - 1);
      assert Encoded(v, k)[1..] == Encoded(v / 256, k - 1);
    }
  }

  lemma WordFits()
    ensures Power256(WORD_SIZE) == WORD_RANGE
  {
    assert Power256(4) == 0x1_0000_0000;
    assert Power256(8) == 256 * (256 * (256 * (256 * Power256(4))));
  }

  // ---------------------------------------------------------------- the container

  /** k items of s bytes. */
  function SizeOf(k: nat, s: nat): nat
  {
    k * s
  }

  lemma SizeFacts(j: nat, k: nat, s: nat)
    requires s > 0
    ensures SizeOf(j + k, s) == SizeOf(j, s) + SizeOf(k, s)
    ensures k <= SizeOf(k, s)
  {
    MultiplyOrdered(k, 1, s);
  }

  lemma PrefixKept(a: string, b: string, m: nat, k: nat)
    requires k <= m <= |a| && m <= |b| && a[0..m] == b[..m]
    ensures a[..k] == b[..k]
  {
    assert a[..k] == a[0..m][..k];
    assert b[..k] == b[..m][..k];
  }

  /** count items of itemSize bytes each, first in a stack buffer, then on the heap. */
  class ManagedContainer {
    const itemSize: nat
    const stackCapacity: nat
    var count: nat
    var heap: array?<char>
    var stack: array<char>

    ghost predicate Valid()
      reads this, stack, heap
    {
      && itemSize > 0 && stackCapacity >= WORD_SIZE
      && stack.Length == SizeOf(stackCapacity, itemSize) >= WORD_SIZE
      && heap != stack
      && Data().Length == SizeOf(Capacity(), itemSize)
      && (if heap == null then SizeOf(count, itemSize) < stackCapacity else SizeOf(count, itemSize) <= Capacity())
      && SizeOf(count, itemSize) <= Data().Length
    }

    /** The size of the heap buffer is kept in the first bytes of the stack buffer. */
    function Capacity(): nat
      reads this, stack
      requires stack.Length >= WORD_SIZE
    {
      if heap != null then Decoded(stack[..WORD_SIZE]) else stackCapacity
    }

    /** mdata() */
    function Data(): array<char>
      reads this
    {
      if heap != null then heap else stack
    }

    /** The bytes stored. */
    ghost function Bytes(): (s: string)
      reads this, stack, heap
      requires Valid()
      ensures |s| == SizeOf(count, itemSize)
    {
      Data()[..SizeOf(count, itemSize)]
    }

    constructor (itemSize: nat, stackCapacityT: nat)
      requires itemSize > 0 && stackCapacityT > 0
      ensures Valid() && Bytes() == "" && count == 0 && this.itemSize == itemSize && fresh(stack) && heap == null
      ensures stackCapacity == RoundToMultiple(WORD_SIZE, stackCapacityT)
    {
      this.itemSize := itemSize;
      var capacity := RoundToMultiple(WORD_SIZE, stackCapacityT);
      RoundsUp(WORD_SIZE, stackCapacityT, 0);
      stackCapacity := capacity;
      count := 0;
      heap := null;
      SizeFacts(0, capacity, itemSize);
      stack := new char[SizeOf(capacity, itemSize)];
    }

    /** Takes over the contents of another container. Only stackCapacity bytes of its
        stack buffer are copied, whatever the size of an item. */
    constructor Moved(other: ManagedContainer)
      requires other.Valid()
      modifies other
      ensures Valid() && fresh(stack) && heap == old(other.heap)
      ensures itemSize == other.itemSize && stackCapacity == other.stackCapacity
      ensures count == old(other.count) && Bytes() == old(other.Bytes())
      ensures other.Valid() && other.Bytes() == "" && other.count == 0
      ensures other.stack == old(other.stack) && other.heap == null
    {
      hide SizeOf, Decoded;
      itemSize, stackCapacity := other.itemSize, other.stackCapacity;
      count, heap := other.count, other.heap;
      var bytes := new char[SizeOf(other.stackCapacity, other.itemSize)];
      stack := bytes;
      new;
      other.heap := null;
      SizeFacts(0, stackCapacity, itemSize);
      SizeFacts(0, 0, itemSize);
      CopyTo(stack, 0, other.stack[..stackCapacity]);
      PrefixKept(stack[..], other.stack[..], stackCapacity, WORD_SIZE);
      if SizeOf(count, itemSize) <= stackCapacity {
        PrefixKept(stack[..], other.stack[..], stackCapacity, SizeOf(count, itemSize));
      }
      other.count := 0;
    }

    /** Move assignment. Assigning a container to itself empties it. */
    method MoveFrom(other: ManagedContainer)
      requires Valid() && other.Valid()
      requires other.itemSize == itemSize && other.stackCapacity == stackCapacity
      requires other != this ==> stack != other.stack && stack != other.heap
      modifies this, stack, other
      ensures Valid() && stack == old(stack)
      ensures other != this ==>
        && Bytes() == old(other.Bytes()) && count == old(other.count) && heap == old(other.heap)
        && other.Valid() && other.Bytes() == "" && other.heap == null && other.stack == old(other.stack)
      ensures other == this ==> Bytes() == "" && heap == null
    {
      hide SizeOf, Decoded;
      count, heap := other.count, other.heap;
      other.heap := null;
      SizeFacts(0, stackCapacity, itemSize);
      SizeFacts(0, 0, itemSize);
      CopyTo(stack, 0, other.stack[..stackCapacity]);
      PrefixKept(stack[..], old(other.stack[..]), stackCapacity, WORD_SIZE);
      if SizeOf(count, itemSize) <= stackCapacity {
        PrefixKept(stack[..], old(other.stack[..]), stackCapacity, SizeOf(count, itemSize));
      }
      other.count := 0;
    }

    /** Copies a block of bytes, as memcpy does between blocks that do not overlap. */
    static method CopyTo(dest: array<char>, at: nat, bytes: string)
      requires at + |bytes| <= dest.Length
      modifies dest
      ensures dest[..at] == old(dest[..at])
      ensures dest[at..at + |bytes|] == bytes
      ensures dest[at + |bytes|..] == old(dest[at + |bytes|..])
    {
      forall i | 0 <= i < |bytes| {
        dest[at + i] := bytes[i];
      }
    }

    static predicate StartsWith(a: array<char>, text: string)
      reads a
    {
      |text| <= a.Length && a[..|text|] == text
    }

    /** The buffer in use has room. */
    method AddInPlace(bytes: string)
      requires Valid() && SizeOf(count, itemSize) + |bytes| < Capacity()
      modifies Data()
      ensures Valid() && StartsWith(Data(), old(Bytes()) + bytes)
    {
      hide SizeOf;
      SizeFacts(0, Capacity(), itemSize);
      var used := SizeOf(count, itemSize);
      CopyTo(Data(), used, bytes);
      assert Capacity() == old(Capacity());
      assert Data()[..used + |bytes|] == Data()[..used] + Data()[used..used + |bytes|];
    }

    /** Notes the heap buffer's capacity in the stack buffer. */
    method StoreCapacity(capacity: nat)
      requires stack.Length >= WORD_SIZE && capacity < WORD_RANGE
      modifies stack
      ensures Decoded(stack[..WORD_SIZE]) == capacity
    {
      WordFits();
      DecodeEncoded(capacity, WORD_SIZE);
      CopyTo(stack, 0, Encoded(capacity, WORD_SIZE));
      assert stack[..WORD_SIZE] == stack[0..WORD_SIZE];
    }

    /** A new buffer on the heap. */
    method AddOnHeap(bytes: string)
      requires Valid() && SizeOf(count, itemSize) + |bytes| + WORD_SIZE < WORD_RANGE
      modifies this`heap, stack
      ensures heap != null && fresh(heap)
      ensures Capacity() == RoundToMultiple(SizeOf(count, itemSize) + |bytes|, WORD_SIZE)
      ensures heap.Length == SizeOf(Capacity(), itemSize) >= SizeOf(count, itemSize) + |bytes|
      ensures heap[..SizeOf(count, itemSize) + |bytes|] == old(Bytes()) + bytes
    {
      hide SizeOf, Decoded, RoundToMultiple;
      var used := SizeOf(count, itemSize);
      var newCapacity := RoundToMultiple(used + |bytes|, WORD_SIZE);
      RoundsUp(used + |bytes|, WORD_SIZE, 0);
      SizeFacts(0, newCapacity, itemSize);
      var newHeap := new char[SizeOf(newCapacity, itemSize)];
      CopyTo(newHeap, 0, Data()[..used]);
      assert newHeap[..used] == newHeap[0..used];
      CopyTo(newHeap, used, bytes);
      assert newHeap[..used + |bytes|] == newHeap[..used] + newHeap[used..used + |bytes|];
      StoreCapacity(newCapacity);
      heap := newHeap;
    }

    /** Adds k items, given as their bytes. */
    method Add(bytes: string, k: nat)
      requires Valid() && |bytes| == SizeOf(k, itemSize)
      requires SizeOf(count + k, itemSize) + WORD_SIZE < WORD_RANGE
      modifies this, stack, heap
      ensures Valid() && Bytes() == old(Bytes()) + bytes && count == old(count) + k
      ensures stack == old(stack) && (heap == old(heap) || fresh(heap))
    {
      hide SizeOf;
      SizeFacts(count, k, itemSize);
      var newSize := SizeOf(count + k, itemSize);
      SizeFacts(0, Capacity(), itemSize);
      if newSize < Capacity() {
        AddInPlace(bytes);
      } else {
        AddOnHeap(bytes);
        RoundsUp(newSize, WORD_SIZE, 0);
      }
      count := count + k;
    }

    /** Removes k items at the end. */
    method Trim(k: nat)
      requires Valid() && k <= count
      modifies this`count
      ensures Valid() && count == old(count) - k
      ensures SizeOf(count, itemSize) <= |old(Bytes())| && Bytes() == old(Bytes())[..SizeOf(count, itemSize)]
    {
      hide SizeOf;
      SizeFacts(count - k, k, itemSize);
      count := count - k;
    }
  }

  // ---------------------------------------------------------------- strings

  const STACK_SIZE := 40

  /** What += makes of a buffer: a final terminator gives way to the string, which
      brings its own. */
  function Appended(bytes: string, s: string): string
  {
    (if bytes != "" && bytes[|bytes| - 1] == '\0' then bytes[..|bytes| - 1] else bytes) + s + "\0"
  }

  function AppendedAll(bytes: string, ss: seq<string>): string
  {
    if ss == [] then bytes else Appended(AppendedAll(bytes, ss[..|ss| - 1]), ss[|ss| - 1])
  }

  function Joined(ss: seq<string>): string
  {
    if ss == [] then "" else Joined(ss[..|ss| - 1]) + ss[|ss| - 1]
  }

  /** What a text is without the terminator it may end in. */
  predicate Unterminated(bytes: string, text: string)
  {
    if bytes != "" && bytes[|bytes| - 1] == '\0' then bytes == text + "\0" else bytes == text
  }

  /** One += keeps the text before it, all but a final terminator. */
  lemma AppendedKeeps(bytes: string, text: string, s: string)
    requires Unterminated(bytes, text)
    ensures Appended(bytes, s) == text + s + "\0"
  {
    if bytes != text { assert (text + "\0")[..|text|] == text; }
  }

  /** Repeated += leaves one C string: the text that was there and everything appended, with
      one terminator at the end. */
  lemma {:induction false} AppendedIsJoined(bytes: string, text: string, ss: seq<string>)
    requires ss != [] && Unterminated(bytes, text)
    ensures AppendedAll(bytes, ss) == text + Joined(ss) + "\0"
  {
    hide Appended, Unterminated;
    var front, last := ss[..|ss| - 1], ss[|ss| - 1];
    if front == [] {
      AppendedKeeps(bytes, text, last);
      assert Joined(ss) == last;
    } else {
      AppendedIsJoined(bytes, text, front);
      Terminated(text + Joined(front));
      AppendedKeeps(AppendedAll(bytes, front), text + Joined(front), last);
      assert text + Joined(front) + last == text + Joined(ss);
    }
  }

  lemma Terminated(text: string)
    ensures Unterminated(text + "\0", text)
  {
  }

  /** string_buffer<>: a container of single bytes. */
  class StringBuffer {
    const base: ManagedContainer

    ghost predicate Valid()
      reads this, base, base.stack, base.heap
    {
      base.Valid() && base.itemSize == 1
    }

    ghost function Text(): string
      reads this, base, base.stack, base.heap
      requires Valid()
    {
      base.Bytes()
    }

    constructor ()
      ensures Valid() && Text() == "" && fresh(base) && fresh(base.stack) && base.heap == null
    {
      base := new ManagedContainer(1, STACK_SIZE);
    }

    /** From a C string, or from no string at all. */
    constructor FromString(str: string, isNull: bool)
      requires |str| + WORD_SIZE + 1 < WORD_RANGE
      ensures Valid() && Text() == if isNull then "" else str + "\0"
    {
      base := new ManagedContainer(1, STACK_SIZE);
      new;
      if !isNull {
        base.Add(str + "\0", |str| + 1);
      }
    }

    constructor FromData(data: string)
      requires |data| + WORD_SIZE < WORD_RANGE
      ensures Valid() && Text() == data
    {
      base := new ManagedContainer(1, STACK_SIZE);
      new;
      base.Add(data, |data|);
    }

    method Add(data: string)
      requires Valid() && |Text()| + |data| + WORD_SIZE < WORD_RANGE
      modifies base, base.stack, base.heap
      ensures Valid() && Text() == old(Text()) + data
      ensures base.stack == old(base.stack) && (base.heap == old(base.heap) || fresh(base.heap))
    {
      base.Add(data, |data|);
    }

    /** operator += */
    method Append(str: string)
      requires Valid() && |Text()| + |str| + WORD_SIZE + 1 < WORD_RANGE
      modifies base, base.stack, base.heap
      ensures Valid() && Text() == Appended(old(Text()), str)
      ensures var was := old(Text());
              Text() == (if was != "" && was[|was| - 1] == '\0' then was[..|was| - 1] else was) + str + "\0"
      ensures base.stack == old(base.stack) && (base.heap == old(base.heap) || fresh(base.heap))
    {
      if base.count != 0 && base.Data()[base.count - 1] == '\0' {
        base.Trim(1);
      }
      base.Add(str + "\0", |str| + 1);
    }
  }
}
