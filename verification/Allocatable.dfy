/** A range of indices allocated through a bitmap with a rotating cursor, shown to behave as a
    set of taken indices. */
module Allocatable {
  import opened Options

  datatype Error = NoFreeSpace | OutOfBounds | AlreadyAllocated | NotAllocated

  datatype Outcome = Got(index: nat) | Done | Failed(error: Error)

  /** A byte as its eight bits, lowest first. */
  type Byte = bits: seq<bool> | |bits| == 8 witness seq(8, i => false)

  const ZERO: Byte := seq(8, i => false)

  function ByteCount(size: nat): nat {
    (size + 7) / 8
  }

  predicate BitAt(bytes: seq<Byte>, index: nat)
    requires index < 8 * |bytes|
  {
    bytes[index / 8][index % 8]
  }

  ghost function TakenIn(bytes: seq<Byte>): set<nat> {
    set i: nat | i < 8 * |bytes| && BitAt(bytes, i)
  }

  lemma SetBitTaken(bytes: seq<Byte>, index: nat, value: bool)
    requires index < 8 * |bytes|
    ensures var changed := bytes[index / 8 := bytes[index / 8][index % 8 := value]];
            TakenIn(changed) == if value then TakenIn(bytes) + {index} else TakenIn(bytes) - {index}
  {
    var changed := bytes[index / 8 := bytes[index / 8][index % 8 := value]];
    forall i: nat | i < 8 * |bytes|
      ensures BitAt(changed, i) <==> if i == index then value else BitAt(bytes, i)
    {
      if i / 8 == index / 8 && i % 8 == index % 8 {
        assert i == index;
      }
    }
  }

  // ----- the allocator as a set with a cursor -----

  /** The index that lies `offset` places after the cursor, going round. */
  function Slot(size: nat, cursor: nat, offset: nat): nat
    requires size > 0
  {
    (cursor + offset) % size
  }

  lemma SlotInRange(size: nat, cursor: nat, offset: nat)
    requires size > 0
    ensures Slot(size, cursor, offset) < size
  {
  }

  /** `index` is the first free index at or after the cursor, going round. */
  ghost predicate CyclicallyFirst(taken: set<nat>, size: nat, cursor: nat, index: nat) {
    size > 0 && exists offset: nat :: FreeAfter(taken, size, cursor, index, offset)
  }

  ghost predicate FreeAfter(taken: set<nat>, size: nat, cursor: nat, index: nat, offset: nat)
    requires size > 0
  {
    && offset < size && index == Slot(size, cursor, offset) && index !in taken
    && forall earlier: nat :: earlier < offset ==> Slot(size, cursor, earlier) in taken
  }

  ghost function Below(size: nat): (s: set<nat>)
    ensures |s| == size && forall i: nat :: i in s <==> i < size
  {
    if size == 0 then {} else Below(size - 1) + {size - 1}
  }

  lemma FullMeansAll(taken: set<nat>, size: nat)
    requires taken <= Below(size)
    ensures |taken| <= size
    ensures |taken| == size <==> taken == Below(size)
  {
    SubsetSize(taken, Below(size));
  }

  lemma {:induction false} SubsetSize<T>(a: set<T>, b: set<T>)
    requires a <= b
    ensures |a| <= |b|
    ensures |a| == |b| <==> a == b
  {
    var rest := b - a;
    assert b == a + rest && a !! rest;
  }

  /** Going once round the range meets every index. */
  lemma RoundMeetsAll(size: nat, cursor: nat, index: nat) returns (offset: nat)
    requires index < size && cursor < size
    ensures offset < size && Slot(size, cursor, offset) == index
  {
    offset := if index >= cursor then index - cursor else index + size - cursor;
    OneRoundMore(index, size);
    assert cursor + offset == index || cursor + offset == index + size;
  }

  lemma OneRoundMore(index: nat, size: nat)
    requires index < size
    ensures index % size == index && (index + size) % size == index
  {
  }

  function AtLeastZero(n: int): nat {
    if n < 0 then 0 else n
  }

  /** An index range kept in a byte array; every method runs under the range's lock. */
  class AllocatableRange {
    const size: nat
    const bitmap: array<Byte>
    var cursor: nat
    var used: nat

    ghost function Taken(): set<nat>
      reads this, bitmap
    {
      TakenIn(bitmap[..])
    }

    /** The used count is the population count, the padding bits of the last byte are clear, and
        the cursor is an index. */
    ghost predicate Valid()
      reads this, bitmap
    {
      && bitmap.Length == ByteCount(size)
      && Taken() <= Below(size)
      && used == |Taken()|
      && (if size == 0 then cursor == 0 else cursor < size)
    }

    constructor (size: nat)
      ensures Valid() && this.size == size && Taken() == {} && cursor == 0 && fresh(bitmap)
    {
      this.size := size;
      bitmap := new Byte[ByteCount(size)](i => ZERO);
      cursor, used := 0, 0;
      new;
      assert forall i :: 0 <= i < bitmap.Length ==> bitmap[..][i] == ZERO;
      assert TakenIn(bitmap[..]) == {};
    }

    function GetBit(index: nat): bool
      requires bitmap.Length == ByteCount(size) && index < size
      reads this, bitmap
    {
      bitmap[index / 8][index % 8]
    }

    lemma GetBitMeaning(index: nat)
      requires bitmap.Length == ByteCount(size) && index < size
      ensures GetBit(index) <==> index in Taken()
    {
      assert bitmap[..][index / 8] == bitmap[index / 8];
    }

    method SetBit(index: nat, value: bool)
      requires bitmap.Length == ByteCount(size) && index < size
      modifies bitmap
      ensures Taken() == if value then old(Taken()) + {index} else old(Taken()) - {index}
    {
      SetBitTaken(bitmap[..], index, value);
      ghost var changed := bitmap[..][index / 8 := bitmap[index / 8][index % 8 := value]];
      bitmap[index / 8] := bitmap[index / 8][index % 8 := value];
      assert bitmap[..] == changed;
    }

    /** Takes the first free index at or after the cursor, going round; fails only when every
        index is taken. */
    method Allocate() returns (r: Outcome)
      requires Valid()
      modifies this`cursor, this`used, bitmap
      ensures Valid()
      ensures r.Got? || r == Failed(NoFreeSpace)
      ensures r.Failed? <==> old(Taken()) == Below(size)
      ensures r.Failed? ==> Taken() == old(Taken()) && cursor == old(cursor)
      ensures r.Got? ==>
                && CyclicallyFirst(old(Taken()), size, old(cursor), r.index)
                && Taken() == old(Taken()) + {r.index} && cursor == Slot(size, r.index, 1)
    {
      hide Slot, TakenIn, BitAt, ByteCount, Below;
      FullMeansAll(Taken(), size);
      if used >= size {
        return Failed(NoFreeSpace);
      }
      ghost var taken := Taken();
      for offset: nat := 0 to size
        invariant Valid() && Taken() == taken && cursor == old(cursor) && used == old(used)
        invariant forall earlier: nat :: earlier < offset ==> Slot(size, cursor, earlier) in taken
      {
        hide Slot, TakenIn, BitAt, ByteCount, Below;
        var i := Slot(size, cursor, offset);
        SlotInRange(size, cursor, offset);
        GetBitMeaning(i);
        if !GetBit(i) {
          assert FreeAfter(taken, size, cursor, i, offset);
          SetBit(i, true);
          cursor := Slot(size, i, 1);
          SlotInRange(size, i, 1);
          used := used + 1;
          return Got(i);
        }
      }
      hide Slot, TakenIn, BitAt, ByteCount, Below;
      forall index: nat | index in Below(size)
        ensures index in taken
      {
        var offset := RoundMeetsAll(size, cursor, index);
      }
      assert false;
    }

    method Claim(index: int) returns (r: Outcome)
      requires Valid()
      modifies this`used, bitmap
      ensures Valid() && cursor == old(cursor)
      ensures r == if !(0 <= index < size) then Failed(OutOfBounds)
                   else if index in old(Taken()) then Failed(AlreadyAllocated) else Done
      ensures Taken() == if r.Done? then old(Taken()) + {index} else old(Taken())
    {
      if !(0 <= index < size) {
        return Failed(OutOfBounds);
      }
      GetBitMeaning(index);
      if GetBit(index) {
        return Failed(AlreadyAllocated);
      }
      SetBit(index, true);
      used := used + 1;
      return Done;
    }

    method Release(index: int) returns (r: Outcome)
      requires Valid()
      modifies this`used, bitmap
      ensures Valid() && cursor == old(cursor)
      ensures r == if !(0 <= index < size) then Failed(OutOfBounds)
                   else if index !in old(Taken()) then Failed(NotAllocated) else Done
      ensures Taken() == if r.Done? then old(Taken()) - {index} else old(Taken())
    {
      if !(0 <= index < size) {
        return Failed(OutOfBounds);
      }
      GetBitMeaning(index);
      if !GetBit(index) {
        return Failed(NotAllocated);
      }
      SetBit(index, false);
      used := AtLeastZero(used - 1);
      return Done;
    }
  }

  // ----- what clients of a range rely on -----

  /** A run of allocations with nothing released between them. */
  ghost predicate Allocations(size: nat, taken: set<nat>, cursor: nat, results: seq<Outcome>)
    decreases |results|
  {
    results == [] ||
    var first := results[0];
    if taken == Below(size) then first == Failed(NoFreeSpace) && Allocations(size, taken, cursor, results[1..])
    else
      && first.Got? && CyclicallyFirst(taken, size, cursor, first.index)
      && Allocations(size, taken + {first.index}, Slot(size, first.index, 1), results[1..])
  }

  /** Allocations succeed exactly as often as there is free space, each with a new index. */
  lemma {:induction false} EachIndexOnce(size: nat, taken: set<nat>, cursor: nat, results: seq<Outcome>)
    requires taken <= Below(size) && Allocations(size, taken, cursor, results)
    ensures forall i :: 0 <= i < |results| ==> (results[i].Got? <==> i < size - |taken|)
    ensures forall i :: 0 <= i < |results| && results[i].Got? ==> results[i].index < size && results[i].index !in taken
    ensures forall i, j :: 0 <= i < j < |results| && results[i].Got? && results[j].Got? ==> results[i].index != results[j].index
    decreases |results|
  {
    hide Slot;
    FullMeansAll(taken, size);
    if results != [] {
      var first := results[0];
      if taken == Below(size) {
        EachIndexOnce(size, taken, cursor, results[1..]);
      } else {
        SlotsInRange(size, taken, cursor, first.index);
        EachIndexOnce(size, taken + {first.index}, Slot(size, first.index, 1), results[1..]);
      }
      assert results == [first] + results[1..];
    }
  }

  lemma SlotsInRange(size: nat, taken: set<nat>, cursor: nat, index: nat)
    requires CyclicallyFirst(taken, size, cursor, index)
    ensures index < size && index !in taken
  {
  }

  /** An index that was just allocated and released is chosen next only when nothing else is free. */
  lemma ReusedLast(size: nat, taken: set<nat>, index: nat)
    requires index < size && taken <= Below(size) && index !in taken
    ensures CyclicallyFirst(taken, size, Slot(size, index, 1), index) <==> taken == Below(size) - {index}
  {
    var cursor := Slot(size, index, 1);
    SlotInRange(size, index, 1);
    var home := RoundMeetsAll(size, cursor, index);
    LastSlot(size, index);
    if taken == Below(size) - {index} {
      forall earlier: nat | earlier < home
        ensures Slot(size, cursor, earlier) in taken
      {
        SlotInRange(size, cursor, earlier);
        SlotsDiffer(size, cursor, earlier, home);
      }
      assert FreeAfter(taken, size, cursor, index, home);
    }
    if CyclicallyFirst(taken, size, cursor, index) {
      var offset: nat :| FreeAfter(taken, size, cursor, index, offset);
      SlotsDiffer(size, cursor, offset, size - 1);
      forall other: nat | other in Below(size) && other != index
        ensures other in taken
      {
        var at := RoundMeetsAll(size, cursor, other);
        SlotsDiffer(size, cursor, at, offset);
      }
    }
  }

  lemma LastSlot(size: nat, index: nat)
    requires index < size
    ensures Slot(size, Slot(size, index, 1), size - 1) == index
  {
    OneRoundMore(index, size);
    if index + 1 == size {
      OneRoundMore(0, size);
    } else {
      OneRoundMore(index + 1, size);
    }
  }

  lemma SlotsDiffer(size: nat, cursor: nat, a: nat, b: nat)
    requires cursor < size && a < size && b < size
    ensures Slot(size, cursor, a) == Slot(size, cursor, b) <==> a == b
  {
    SlotIs(size, cursor, a);
    SlotIs(size, cursor, b);
  }

  lemma SlotIs(size: nat, cursor: nat, offset: nat)
    requires cursor < size && offset < size
    ensures Slot(size, cursor, offset) == if cursor + offset < size then cursor + offset else cursor + offset - size
  {
    var n := if cursor + offset < size then cursor + offset else cursor + offset - size;
    OneRoundMore(n, size);
  }

  predicate PortIn(taken: set<nat>, first: int, port: int) {
    first <= port && port - first in taken
  }

  lemma AllPorts(first: int, last: int, taken: set<nat>)
    requires first <= last + 1 && taken <= Below(last - first + 1)
    ensures taken == Below(last - first + 1) <==> forall p :: first <= p <= last ==> PortIn(taken, first, p)
  {
    if forall p :: first <= p <= last ==> PortIn(taken, first, p) {
      forall i | i in Below(last - first + 1)
        ensures i in taken
      {
        assert PortIn(taken, first, first + i);
      }
    }
  }

  lemma PortInMeans(taken: set<nat>, first: int, port: int)
    requires first <= port
    ensures PortIn(taken, first, port) <==> port - first in taken
  {
  }

  lemma OnePortMore(taken: set<nat>, first: int, index: nat)
    ensures forall p :: PortIn(taken + {index}, first, p) <==> PortIn(taken, first, p) || p == first + index
    ensures forall p :: PortIn(taken - {index}, first, p) <==> PortIn(taken, first, p) && p != first + index
  {
  }

  /** A range of port numbers over an index range. */
  class PortRange {
    const range: AllocatableRange
    const first: int
    const last: int

    ghost predicate Valid()
      reads range, range.bitmap
    {
      range.Valid() && first <= last + 1 && range.size == last - first + 1
    }

    ghost predicate Taken(port: int)
      reads range, range.bitmap
    {
      PortIn(range.Taken(), first, port)
    }

    constructor (first: int, last: int)
      requires first <= last + 1
      ensures Valid() && this.first == first && this.last == last && fresh(range) && fresh(range.bitmap)
      ensures forall port :: !Taken(port)
    {
      this.first, this.last := first, last;
      range := new AllocatableRange(last - first + 1);
    }

    /** The port chosen is in the range and was free; it fails only when every port is taken. */
    method Allocate() returns (port: Option<int>)
      requires Valid()
      modifies range`cursor, range`used, range.bitmap
      ensures Valid()
      ensures port.None? <==> forall p :: first <= p <= last ==> old(Taken(p))
      ensures port.Some? ==> first <= port.value <= last && !old(Taken(port.value))
      ensures forall p :: Taken(p) <==> old(Taken(p)) || port == Some(p)
    {
      hide TakenIn, BitAt, ByteCount, Below, CyclicallyFirst, Slot;
      ghost var taken := range.Taken();
      AllPorts(first, last, taken);
      var r := range.Allocate();
      if r.Failed? {
        return None;
      }
      SlotsInRange(range.size, taken, old(range.cursor), r.index);
      OnePortMore(taken, first, r.index);
      assert !old(Taken(first + r.index));
      return Some(first + r.index);
    }

    method Claim(port: int) returns (r: Outcome)
      requires Valid()
      modifies range`used, range.bitmap
      ensures Valid()
      ensures r == if !(first <= port <= last) then Failed(OutOfBounds) else if old(Taken(port)) then Failed(AlreadyAllocated) else Done
      ensures forall p :: Taken(p) <==> old(Taken(p)) || (r.Done? && p == port)
    {
      hide TakenIn, BitAt, ByteCount, Below, PortIn, AllocatableRange.Valid, AllocatableRange.Taken;
      if port < first || port > last {
        return Failed(OutOfBounds);
      }
      OnePortMore(range.Taken(), first, port - first);
      PortInMeans(range.Taken(), first, port);
      r := range.Claim(port - first);
    }

    method Release(port: int) returns (r: Outcome)
      requires Valid()
      modifies range`used, range.bitmap
      ensures Valid()
      ensures r == if !(first <= port <= last) then Failed(OutOfBounds) else if !old(Taken(port)) then Failed(NotAllocated) else Done
      ensures forall p :: Taken(p) <==> old(Taken(p)) && !(r.Done? && p == port)
    {
      hide TakenIn, BitAt, ByteCount, Below, PortIn, AllocatableRange.Valid, AllocatableRange.Taken;
      if port < first || port > last {
        return Failed(OutOfBounds);
      }
      OnePortMore(range.Taken(), first, port - first);
      PortInMeans(range.Taken(), first, port);
      r := range.Release(port - first);
    }
  }
}
