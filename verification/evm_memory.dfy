/** The machine's memory: a zero-padded buffer that grows in powers of two. Every operation is
    specified over the logical bytes alone, so a memory that was saved and restored between
    iterations behaves as the original. */
module EvmMemory {
  import opened Opcodes
  import opened StorageLayout

  const MAX_MEMORY_SIZE: nat := 64 * 1024
  const MEMORY_CAPACITY: nat := 1024
  const USIZE_MAX: nat := 0xFFFF_FFFF_FFFF_FFFF

  // ---- Powers of two ---------------------------------------------------------------------------

  function Doubled(k: nat): (r: nat)
    ensures r > 0
  {
    if k == 0 then 1 else 2 * Doubled(k - 1)
  }

  /** `next_power_of_two`. */
  function NextPowerOfTwo(n: nat): nat {
    if n <= 1 then 1 else 2 * NextPowerOfTwo((n + 1) / 2)
  }

  /** It is a power of two, not below `n`, and no smaller one is. */
  lemma {:induction false} NextPowerIsLeast(n: nat, k: nat)
    ensures n <= NextPowerOfTwo(n)
    ensures n <= Doubled(k) <==> NextPowerOfTwo(n) <= Doubled(k)
    decreases n
  {
    if n > 1 {
      var half := (n + 1) / 2;
      NextPowerIsLeast(half, if k == 0 then 0 else k - 1);
      if k > 0 {
        HalfBelow(n, Doubled(k - 1));
      }
    }
  }

  lemma HalfBelow(n: nat, d: nat)
    ensures n <= 2 * d <==> (n + 1) / 2 <= d
  {
  }

  lemma {:induction false} NextPowerIsPower(n: nat) returns (k: nat)
    ensures NextPowerOfTwo(n) == Doubled(k)
    decreases n
  {
    if n <= 1 {
      k := 0;
    } else {
      k := NextPowerIsPower((n + 1) / 2);
      k := k + 1;
    }
  }

  /** Sizes between a size and its capacity have the same capacity. */
  lemma SamePower(n: nat, m: nat)
    requires n <= m <= NextPowerOfTwo(n)
    ensures NextPowerOfTwo(m) == NextPowerOfTwo(n)
  {
    var i := NextPowerIsPower(n);
    var j := NextPowerIsPower(m);
    NextPowerIsLeast(m, i);
    NextPowerIsLeast(n, j);
  }

  lemma LimitIsPower(n: nat)
    ensures NextPowerOfTwo(n) <= MAX_MEMORY_SIZE <==> n <= MAX_MEMORY_SIZE
    ensures NextPowerOfTwo(n) <= MEMORY_CAPACITY <==> n <= MEMORY_CAPACITY
    ensures n <= NextPowerOfTwo(n)
  {
    assert Doubled(10) == 1024;
    assert Doubled(16) == 64 * Doubled(10);
    NextPowerIsLeast(n, 16);
    NextPowerIsLeast(n, 10);
  }

  function Max(a: nat, b: nat): nat {
    if a >= b then a else b
  }

  function CapacityFor(size: nat): nat {
    Max(NextPowerOfTwo(size), MEMORY_CAPACITY)
  }

  lemma CapacityKept(size: nat, larger: nat)
    requires size <= larger <= CapacityFor(size)
    ensures CapacityFor(larger) == CapacityFor(size)
  {
    LimitIsPower(size);
    LimitIsPower(larger);
    if size > MEMORY_CAPACITY {
      SamePower(size, larger);
    }
  }

  // ---- Logical memory -------------------------------------------------------------------------------

  function RoundUp(n: nat): nat {
    (n + 31) / 32 * 32
  }

  /** Whether a range can be touched at all. */
  predicate Reachable(offset: nat, length: nat) {
    RoundUp(offset + length) <= MAX_MEMORY_SIZE
  }

  function Grown(m: seq<Byte>, size: nat): (r: seq<Byte>)
    ensures |r| == Max(|m|, size) && m <= r
    ensures forall i :: |m| <= i < |r| ==> r[i] == 0
  {
    if size <= |m| then m else m + Zeros(size - |m|)
  }

  /** The memory after touching a range. */
  function Touched(m: seq<Byte>, offset: nat, length: nat): (r: seq<Byte>)
    ensures |r| == Max(|m|, RoundUp(offset + length)) && m <= r
    ensures forall i :: |m| <= i < |r| ==> r[i] == 0
    ensures offset + length <= |r|
  {
    Grown(m, RoundUp(offset + length))
  }

  lemma RoundingOverflows(n: nat)
    ensures RoundUp(n) > USIZE_MAX <==> n + 31 > USIZE_MAX
    ensures RoundUp(n) % 32 == 0 && n <= RoundUp(n)
  {
  }

  lemma GrownSlice(all: seq<Byte>, size: nat, larger: nat)
    requires size <= |all| && larger <= |all| && forall i :: size <= i < |all| ==> all[i] == 0
    ensures all[..Max(size, larger)] == Grown(all[..size], larger)
  {
  }

  function Overwritten(m: seq<Byte>, offset: nat, bytes: seq<Byte>): (r: seq<Byte>)
    requires offset + |bytes| <= |m|
    ensures |r| == |m|
    ensures forall i :: 0 <= i < |r| ==> r[i] == if offset <= i < offset + |bytes| then bytes[i - offset] else m[i]
  {
    m[..offset] + bytes + m[offset + |bytes|..]
  }

  /** `length` bytes of `source` from `from`, zeros past its end. */
  function Padded(source: seq<Byte>, from: nat, length: nat): (r: seq<Byte>)
    ensures |r| == length
    ensures forall i :: 0 <= i < length ==> r[i] == if from + i < |source| then source[from + i] else 0
  {
    if length == 0 then []
    else Padded(source, from, length - 1) + [if from + length - 1 < |source| then source[from + length - 1] else 0]
  }

  /** The three cases of `write_buffer`. */
  lemma PaddedBehind(source: seq<Byte>, from: nat, length: nat)
    requires from >= |source|
    ensures Padded(source, from, length) == Zeros(length)
  {
  }

  lemma PaddedAcross(source: seq<Byte>, from: nat, length: nat, part: seq<Byte>)
    requires from < |source| < from + length && part == source[from..]
    ensures |part| <= length && Padded(source, from, length) == part + Zeros(length - |part|)
  {
  }

  lemma PaddedInside(source: seq<Byte>, from: nat, length: nat)
    requires from + length <= |source|
    ensures Padded(source, from, length) == source[from..from + length]
  {
  }

  // ---- The memory as a value -----------------------------------------------------------------------------

  /** All allocated bytes and the size in use; the capacity is the number of bytes. */
  datatype Mem = Mem(data: seq<Byte>, size: nat)

  /** Capacity is a function of the size and everything beyond the size is zero. */
  predicate MemOk(m: Mem) {
    && m.size % 32 == 0
    && m.size <= |m.data| == CapacityFor(m.size)
    && |m.data| <= MAX_MEMORY_SIZE
    && forall i :: m.size <= i < |m.data| ==> m.data[i] == 0
  }

  /** `Memory::new`. */
  const EMPTY: Mem := Mem(Zeros(MEMORY_CAPACITY), 0)

  /** The bytes in use. */
  function Used(m: Mem): seq<Byte>
    requires m.size <= |m.data|
  {
    m.data[..m.size]
  }

  datatype Growth = Grew(mem: Mem) | Missed(mem: Mem)

  /** `realloc`, with the size already changed where it fails after that. */
  function Reallocated(m: Mem, offset: nat, length: nat): (r: Growth)
    ensures r.Grew? ==> offset + length <= |r.mem.data|
  {
    if offset + length > USIZE_MAX || offset + length + 31 > USIZE_MAX then Missed(m)
    else
      var newSize := RoundUp(offset + length);
      var size := Max(m.size, newSize);
      if newSize <= |m.data| then Grew(Mem(m.data, size))
      else
        var capacity := NextPowerOfTwo(newSize);
        if capacity > MAX_MEMORY_SIZE then Missed(Mem(m.data, size))
        else
          PowerCovers(newSize);
          Grew(Mem(m.data + Zeros(capacity - |m.data|), size))
  }

  lemma PowerCovers(n: nat)
    ensures n <= NextPowerOfTwo(n)
  {
    NextPowerIsLeast(n, 0);
  }

  /** What `realloc` means for a memory in order: it succeeds exactly when the range rounds to at most
      the limit, and then touches the range; it fails without a trace when the sum overflows, and leaves
      a size beyond the capacity otherwise. */
  lemma ReallocatedMeaning(m: Mem, offset: nat, length: nat)
    requires MemOk(m)
    ensures
      var r := Reallocated(m, offset, length);
      if Reachable(offset, length) then r.Grew? && MemOk(r.mem) && Used(r.mem) == Touched(Used(m), offset, length)
      else r.Missed? && r.mem == if Overflows(offset, length) then m else Mem(m.data, RoundUp(offset + length))
  {
    RoundingOverflows(offset + length);
    if !Overflows(offset, length) {
      var newSize := RoundUp(offset + length);
      LimitIsPower(newSize);
      if newSize <= |m.data| {
        CapacityKept(m.size, Max(m.size, newSize));
        GrownSlice(m.data, m.size, newSize);
      } else if Reachable(offset, length) {
        GrownSlice(m.data + Zeros(NextPowerOfTwo(newSize) - |m.data|), m.size, newSize);
        assert Used(m) == (m.data + Zeros(NextPowerOfTwo(newSize) - |m.data|))[..m.size];
      }
    }
  }

  /** The arithmetic on the range overflows. */
  predicate Overflows(offset: nat, length: nat) {
    offset + length + 31 > USIZE_MAX
  }

  lemma EmptyOk()
    ensures MemOk(EMPTY) && Used(EMPTY) == []
  {
    LimitIsPower(0);
  }

  /** Reading touches the range, unless it is empty. */
  function ReadMem(m: Mem, offset: nat, length: nat): Growth {
    if length == 0 then Grew(m) else Reallocated(m, offset, length)
  }

  /** Writing touches the range, unless it is empty, and overwrites it. */
  function WriteMem(m: Mem, offset: nat, bytes: seq<Byte>): Growth {
    if bytes == [] then Grew(m) else
      match Reallocated(m, offset, |bytes|)
      case Grew(n) => Grew(n.(data := Overwritten(n.data, offset, bytes)))
      case Missed(n) => Missed(n)
  }

  lemma OverwrittenOk(m: Mem, offset: nat, bytes: seq<Byte>)
    requires MemOk(m) && offset + |bytes| <= m.size
    ensures
      var n := m.(data := Overwritten(m.data, offset, bytes));
      MemOk(n) && Used(n) == Overwritten(Used(m), offset, bytes)
  {
    assert Used(m.(data := Overwritten(m.data, offset, bytes))) == Overwritten(Used(m), offset, bytes);
  }

  /** Writing over the bytes in use. */
  lemma WriteMeaning(m: Mem, offset: nat, bytes: seq<Byte>)
    requires MemOk(m) && bytes != []
    ensures
      var r := WriteMem(m, offset, bytes);
      if Reachable(offset, |bytes|) then
        r.Grew? && MemOk(r.mem) && Used(r.mem) == Overwritten(Touched(Used(m), offset, |bytes|), offset, bytes)
      else r == Reallocated(m, offset, |bytes|)
  {
    ReallocatedMeaning(m, offset, |bytes|);
    if Reachable(offset, |bytes|) {
      OverwrittenOk(Reallocated(m, offset, |bytes|).mem, offset, bytes);
    }
  }

  /** `serialize`: the slice of the capacity up to the size panics when the size is larger. */
  function SaveMem(m: Mem): Option<seq<Byte>> {
    if m.size <= |m.data| then Some(m.data[..m.size]) else None
  }

  /** `from_buffer`. */
  function LoadMem(v: seq<Byte>): Mem {
    PowerCovers(|v|);
    Mem(v + Zeros(CapacityFor(|v|) - |v|), |v|)
  }

  /** A memory in order can be saved and is restored byte for byte, unused bytes and capacity included. */
  lemma RestoredMem(m: Mem)
    requires MemOk(m)
    ensures SaveMem(m) == Some(Used(m)) && LoadMem(Used(m)) == m
  {
    var n := LoadMem(Used(m));
    assert n.data == m.data;
  }

  lemma LoadedOk(v: seq<Byte>)
    requires |v| % 32 == 0 && |v| <= MAX_MEMORY_SIZE
    ensures MemOk(LoadMem(v)) && Used(LoadMem(v)) == v
  {
    LimitIsPower(|v|);
  }

  // ---- The memory, changed in place --------------------------------------------------------------------

  datatype Result<+T> = Ok(value: T) | OutOfLimits

  class Memory {
    var data: array<Byte>
    var size: nat

    function Capacity(): nat
      reads this
    {
      data.Length
    }

    function View(): Mem
      reads this, data
    {
      Mem(data[..], size)
    }

    ghost predicate Valid()
      reads this, data
    {
      MemOk(View())
    }

    ghost function Bytes(): seq<Byte>
      reads this, data
      requires size <= data.Length
    {
      data[..size]
    }

    constructor ()
      ensures View() == EMPTY && Valid() && Bytes() == [] && fresh(data)
    {
      EmptyOk();
      data := new Byte[MEMORY_CAPACITY](_ => 0);
      size := 0;
      new;
      assert data[..] == EMPTY.data;
    }

    /** `from_buffer`, as used on restoring a saved memory. */
    constructor FromBuffer(v: seq<Byte>)
      requires |v| % 32 == 0 && |v| <= MAX_MEMORY_SIZE
      ensures View() == LoadMem(v) && Valid() && Bytes() == v && fresh(data)
    {
      LoadedOk(v);
      data := new Byte[CapacityFor(|v|)](i requires 0 <= i => if i < |v| then v[i] else 0);
      size := |v|;
      new;
      assert data[..] == LoadMem(v).data;
      assert data[..size] == v;
    }

    /** `serialize`: the slice of the capacity up to the size panics when the size is larger. */
    method Serialize() returns (r: Option<seq<Byte>>)
      ensures r == SaveMem(View())
      ensures r == if size <= Capacity() then Some(Bytes()) else None
    {
      r := if size <= data.Length then Some(data[..size]) else None;
    }

    /** `realloc`. A failure without arithmetic overflow leaves the size beyond the capacity. */
    method Realloc(offset: nat, length: nat) returns (ok: bool)
      requires Valid()
      modifies this
      ensures View() == Reallocated(old(View()), offset, length).mem
      ensures ok <==> Reallocated(old(View()), offset, length).Grew?
      ensures ok <==> Reachable(offset, length)
      ensures data == old(data) || fresh(data)
      ensures ok ==> Valid() && Bytes() == Touched(old(Bytes()), offset, length)
      ensures !ok ==> data == old(data)
      ensures !ok ==> size == if Overflows(offset, length) then old(size) else RoundUp(offset + length)
    {
      ReallocatedMeaning(View(), offset, length);
      if offset + length > USIZE_MAX || offset + length + 31 > USIZE_MAX {
        return false;
      }
      var newSize := RoundUp(offset + length);
      if newSize > size {
        size := newSize;
      }
      if newSize <= data.Length {
        BytesAreUsed();
        return true;
      }
      var newCapacity := NextPowerOfTwo(newSize);
      if newCapacity > MAX_MEMORY_SIZE {
        return false;
      }
      PowerCovers(newSize);
      Widen(newCapacity);
      BytesAreUsed();
      ok := true;
    }

    lemma BytesAreUsed()
      requires size <= data.Length
      ensures Bytes() == Used(View())
    {
    }

    /** The allocator's `realloc` with the new part zeroed. */
    method Widen(newCapacity: nat)
      requires newCapacity >= data.Length
      modifies this`data
      ensures fresh(data) && data[..] == old(data[..]) + Zeros(newCapacity - old(data.Length))
    {
      var wider := new Byte[newCapacity](i requires 0 <= i reads this, data => if i < data.Length then data[i] else 0);
      data := wider;
    }

    method Read(offset: nat, length: nat) returns (r: Result<seq<Byte>>)
      requires Valid()
      modifies this
      ensures data == old(data) || fresh(data)
      ensures r.Ok? <==> length == 0 || Reachable(offset, length)
      ensures View() == ReadMem(old(View()), offset, length).mem
      ensures length == 0 ==> r.value == [] && Valid() && Bytes() == old(Bytes())
      ensures length > 0 && r.Ok? ==>
        && Valid()
        && Bytes() == Touched(old(Bytes()), offset, length) && r.value == Bytes()[offset..offset + length]
    {
      if length == 0 {
        return Ok([]);
      }
      var ok := Realloc(offset, length);
      r := if ok then Ok(data[offset..offset + length]) else OutOfLimits;
    }

    method WriteByte(offset: nat, value: Byte) returns (ok: bool)
      requires Valid()
      modifies this, data
      ensures data == old(data) || fresh(data)
      ensures View() == WriteMem(old(View()), offset, [value]).mem
      ensures ok <==> Reachable(offset, 1)
      ensures ok ==> Valid() && Bytes() == Overwritten(Touched(old(Bytes()), offset, 1), offset, [value])
    {
      ok := Realloc(offset, 1);
      if ok {
        Fill(offset, [value]);
      }
    }

    /** `write_32`, `write_buffer` and `write_range` for a range that is not empty. */
    method WriteBuffer(offset: nat, length: nat, source: seq<Byte>, sourceOffset: nat) returns (ok: bool)
      requires Valid()
      modifies this, data
      ensures data == old(data) || fresh(data)
      ensures ok <==> length == 0 || Reachable(offset, length)
      ensures View() == WriteMem(old(View()), offset, Padded(source, sourceOffset, length)).mem
      ensures length == 0 ==> Valid() && Bytes() == old(Bytes())
      ensures length > 0 && ok ==>
        && Valid()
        && Bytes() == Overwritten(Touched(old(Bytes()), offset, length), offset, Padded(source, sourceOffset, length))
    {
      if length == 0 {
        return true;
      }
      ok := Realloc(offset, length);
      if !ok {
        return;
      }
      FillFrom(offset, length, source, sourceOffset);
    }

    method FillFrom(offset: nat, length: nat, source: seq<Byte>, sourceOffset: nat)
      requires Valid() && offset + length <= size
      modifies data
      ensures Valid() && Bytes() == Overwritten(old(Bytes()), offset, Padded(source, sourceOffset, length))
      ensures data[..] == Overwritten(old(data[..]), offset, Padded(source, sourceOffset, length))
    {
      if sourceOffset >= |source| {
        PaddedBehind(source, sourceOffset, length);
        Fill(offset, Zeros(length));
      } else if sourceOffset + length > |source| {
        var part := source[sourceOffset..];
        PaddedAcross(source, sourceOffset, length, part);
        Fill(offset, part + Zeros(length - |part|));
      } else {
        PaddedInside(source, sourceOffset, length);
        Fill(offset, source[sourceOffset..sourceOffset + length]);
      }
    }

    method Fill(offset: nat, bytes: seq<Byte>)
      requires Valid() && offset + |bytes| <= size
      modifies data
      ensures Valid() && Bytes() == Overwritten(old(Bytes()), offset, bytes)
      ensures data[..] == Overwritten(old(data[..]), offset, bytes)
    {
      for i := 0 to |bytes|
        invariant forall k :: 0 <= k < data.Length ==>
          data[k] == if offset <= k < offset + i then bytes[k - offset] else old(data[k])
      {
        data[offset + i] := bytes[i];
      }
    }
  }

  /** Saving and restoring: every valid memory can be saved, and what is restored is the same, unused
      bytes and capacity included. */
  method SaveAndRestore(m: Memory) returns (restored: Memory)
    requires m.Valid()
    ensures fresh(restored) && restored.Valid() && restored.View() == m.View()
  {
    RestoredMem(m.View());
    m.BytesAreUsed();
    var saved := m.Serialize();
    restored := new Memory.FromBuffer(saved.value);
  }

  /** A growth that failed on its size leaves a memory that can no longer be saved, so the failure
      must not be kept to the next iteration. */
  method FailedGrowthCannotBeSaved(m: Memory, offset: nat, length: nat) returns (saved: Option<seq<Byte>>)
    requires m.Valid()
    modifies m
    ensures saved.None? <==> !Reachable(offset, length) && !Overflows(offset, length)
  {
    var ok := m.Realloc(offset, length);
    saved := m.Serialize();
  }
}

/** The operand stack: 4096 bytes of which the last word is never used. */
module EvmStack {
  import opened Opcodes
  import opened StorageLayout

  const ELEMENT_SIZE: nat := 32
  const STACK_SIZE: nat := ELEMENT_SIZE * 128

  datatype Result<+T> = Ok(value: T) | StackOverflow | StackUnderflow

  /** The byte exchanged with byte `k` when the top word is swapped with the one `n` below. */
  function Exchanged(k: nat, n: nat, top: nat): (j: nat)
    requires k < top && ELEMENT_SIZE * (n + 1) <= top
    ensures j < top
  {
    var a, b := top - ELEMENT_SIZE, top - ELEMENT_SIZE * (n + 1);
    if k >= a then k - ELEMENT_SIZE * n else if b <= k < b + ELEMENT_SIZE then k + ELEMENT_SIZE * n else k
  }

  class Stack {
    const data: array<Byte>
    var top: nat

    ghost predicate Valid()
      reads this, data
    {
      data.Length == STACK_SIZE && top % ELEMENT_SIZE == 0 && top <= STACK_SIZE - ELEMENT_SIZE
    }

    ghost function Contents(): seq<Byte>
      reads this, data
      requires Valid()
    {
      data[..top]
    }

    constructor ()
      ensures Valid() && Contents() == [] && fresh(data)
    {
      data := new Byte[STACK_SIZE](_ => 0);
      top := 0;
    }

    /** The word is written before the limit is checked; the spare slot takes it. */
    method Push(value: Word32) returns (r: Result<()>)
      requires Valid()
      modifies this`top, data
      ensures Valid()
      ensures r == if |old(Contents())| == 127 * ELEMENT_SIZE then StackOverflow else Ok(())
      ensures Contents() == if r.Ok? then old(Contents()) + value else old(Contents())
    {
      for i := 0 to ELEMENT_SIZE
        modifies data
        invariant forall k :: 0 <= k < top ==> data[k] == old(data[k])
        invariant forall k :: 0 <= k < i ==> data[top + k] == value[k]
      {
        data[top + i] := value[i];
      }
      if top == STACK_SIZE - ELEMENT_SIZE {
        return StackOverflow;
      }
      top := top + ELEMENT_SIZE;
      r := Ok(());
    }

    method Pop() returns (r: Result<Word32>)
      requires Valid()
      modifies this`top
      ensures Valid()
      ensures r.Ok? <==> old(Contents()) != []
      ensures r.Ok? ==> old(Contents()) == Contents() + r.value
      ensures !r.Ok? ==> r == StackUnderflow && Contents() == old(Contents())
    {
      if top == 0 {
        return StackUnderflow;
      }
      top := top - ELEMENT_SIZE;
      r := Ok(data[top..top + ELEMENT_SIZE]);
    }

    method Dup(n: nat) returns (r: Result<()>)
      requires Valid() && 1 <= n <= 16
      modifies this`top, data
      ensures Valid()
      ensures r == if |old(Contents())| < ELEMENT_SIZE * n then StackUnderflow
                   else if |old(Contents())| == 127 * ELEMENT_SIZE then StackOverflow
                   else Ok(())
      ensures r.Ok? ==>
        var from := |old(Contents())| - ELEMENT_SIZE * n;
        Contents() == old(Contents()) + old(Contents())[from..from + ELEMENT_SIZE]
      ensures !r.Ok? ==> Contents() == old(Contents())
    {
      if top < n * ELEMENT_SIZE {
        return StackUnderflow;
      }
      var from := top - n * ELEMENT_SIZE;
      r := Push(data[from..from + ELEMENT_SIZE]);
    }

    method Swap(n: nat) returns (r: Result<()>)
      requires Valid() && 1 <= n <= 16
      modifies data
      ensures Valid() && r.Ok? == (|old(Contents())| >= ELEMENT_SIZE * (n + 1))
      ensures !r.Ok? ==> Contents() == old(Contents())
      ensures r.Ok? ==> |Contents()| == |old(Contents())|
      ensures r.Ok? ==> forall k :: 0 <= k < top ==> Contents()[k] == old(Contents())[Exchanged(k, n, top)]
    {
      if top < (n + 1) * ELEMENT_SIZE {
        return StackUnderflow;
      }
      SwapBytes(top - ELEMENT_SIZE, top - (n + 1) * ELEMENT_SIZE, n * ELEMENT_SIZE);
      r := Ok(());
    }

    /** The words at `a` and, `d` bytes below, at `b`, byte for byte. */
    method SwapBytes(a: nat, b: nat, d: nat)
      requires a == b + d && d >= ELEMENT_SIZE && a + ELEMENT_SIZE <= data.Length
      modifies data
      ensures forall k :: a <= k < a + ELEMENT_SIZE ==> data[k] == old(data[k - d])
      ensures forall k :: b <= k < b + ELEMENT_SIZE ==> data[k] == old(data[k + d])
      ensures forall k :: 0 <= k < data.Length && !(a <= k < a + ELEMENT_SIZE) && !(b <= k < b + ELEMENT_SIZE) ==>
        data[k] == old(data[k])
    {
      for i := 0 to ELEMENT_SIZE
        invariant forall k :: a <= k < a + i ==> data[k] == old(data[k - d])
        invariant forall k :: b <= k < b + i ==> data[k] == old(data[k + d])
        invariant forall k :: 0 <= k < data.Length && !(a <= k < a + i) && !(b <= k < b + i) ==>
          data[k] == old(data[k])
      {
        data[a + i], data[b + i] := data[b + i], data[a + i];
      }
    }

    method Serialize() returns (bytes: seq<Byte>)
      requires Valid()
      ensures bytes == Contents()
    {
      bytes := data[..top];
    }

    /** `deserialize` rejects only lengths that are not whole words. */
    constructor Deserialize(v: seq<Byte>)
      requires |v| % ELEMENT_SIZE == 0 && |v| <= STACK_SIZE - ELEMENT_SIZE
      ensures Valid() && Contents() == v && fresh(data)
    {
      data := new Byte[STACK_SIZE](i requires 0 <= i => if i < |v| then v[i] else 0);
      top := |v|;
      new;
      assert data[..top] == v;
    }
  }

  /** A saved stack is restored with the same words, whatever lies above them. */
  method SaveAndRestore(s: Stack) returns (restored: Stack)
    requires s.Valid()
    ensures fresh(restored) && restored.Valid() && restored.Contents() == s.Contents()
  {
    var bytes := s.Serialize();
    restored := new Stack.Deserialize(bytes);
  }
}
