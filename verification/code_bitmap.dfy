/** The data bitmap of EOF code: `Bitvec` and `eof_code_bitmap_internal`. */
module CodeBitmap {
  import opened Opcodes

  // ---- Bits of the vector ---------------------------------------------------------

  predicate Bit(b: bv8, j: nat)
    requires j < 8
  {
    (b >> j) & 1 == 1
  }

  predicate BitAt(v: seq<bv8>, p: nat)
    requires p / 8 < |v|
  {
    Bit(v[p / 8], p % 8)
  }

  /** `BITS_MASK[n]`. */
  function Mask(n: nat): bv16
    requires n < 8
  {
    [0, 1, 0x3, 0x7, 0xF, 0x1F, 0x3F, 0x7F][n]
  }

  function Ones(k: nat): bv8
    requires k < 8
  {
    0xFF << k
  }

  function Low(a: bv16): bv8 { (a & 0xFF) as bv8 }

  function High(a: bv16): bv8 { (a >> 8) as bv8 }

  lemma OnesBits(k: nat, j: nat)
    requires k < 8 && j < 8
    ensures Bit(Ones(k), j) <==> j >= k
    ensures Bit(!Ones(k), j) <==> j < k
  {
  }

  lemma OrBits(a: bv8, b: bv8, j: nat)
    requires j < 8
    ensures Bit(a | b, j) <==> Bit(a, j) || Bit(b, j)
  {
  }

  lemma MaskBits(n: nat, k: nat, j: nat)
    requires n < 8 && k < 8 && j < 8
    ensures Bit(Low(Mask(n) << k), j) <==> k <= j < k + n
    ensures Bit(High(Mask(n) << k), j) <==> 8 + j < k + n
  {
  }

  /** Every bit at `pos` or behind it is clear. */
  ghost predicate ClearFrom(v: seq<bv8>, pos: nat) {
    forall p: nat :: pos <= p && p / 8 < |v| ==> !BitAt(v, p)
  }

  /** `w` is `v` with the bits `pos .. pos + n` set and nothing else changed. */
  ghost predicate SetRange(v: seq<bv8>, w: seq<bv8>, pos: nat, n: nat) {
    |w| == |v| &&
    forall p: nat :: p / 8 < |v| ==> (BitAt(w, p) <==> (BitAt(v, p) || pos <= p < pos + n))
  }

  lemma SetRangeKeepsClear(v: seq<bv8>, w: seq<bv8>, pos: nat, n: nat)
    requires ClearFrom(v, pos) && SetRange(v, w, pos, n)
    ensures ClearFrom(w, pos + n)
  {
  }

  lemma SetRangesJoin(u: seq<bv8>, v: seq<bv8>, w: seq<bv8>, pos: nat, m: nat, n: nat)
    requires SetRange(u, v, pos, m) && SetRange(v, w, pos + m, n)
    ensures SetRange(u, w, pos, m + n)
  {
  }

  /** Writing `first` into the byte of `pos` by `|=` and overwriting the bytes behind it sets
      exactly `n` bits, provided everything from `pos` on was still clear. */
  lemma OverwriteSets(v: seq<bv8>, w: seq<bv8>, pos: nat, n: nat, first: bv8)
    requires |w| == |v| && pos / 8 < |v| && ClearFrom(v, pos)
    requires w[pos / 8] == v[pos / 8] | first
    requires forall j: nat :: j < 8 ==> (Bit(first, j) <==> pos % 8 <= j < pos % 8 + n)
    requires forall i: nat :: i < pos / 8 ==> w[i] == v[i]
    requires forall i: nat, j: nat :: pos / 8 < i < |v| && j < 8 ==>
      (Bit(w[i], j) <==> 8 * i + j < pos + n)
    ensures SetRange(v, w, pos, n)
  {
    forall p: nat | p / 8 < |v|
      ensures BitAt(w, p) <==> (BitAt(v, p) || pos <= p < pos + n)
    {
      if p / 8 == pos / 8 {
        OrBits(v[pos / 8], first, p % 8);
      } else if p / 8 > pos / 8 {
        assert 8 * (p / 8) + p % 8 == p;
      }
    }
  }

  /** A byte behind `pos` holds no set bit while everything from `pos` on is clear. */
  lemma ClearByte(v: seq<bv8>, pos: nat, i: nat, j: nat)
    requires ClearFrom(v, pos) && pos / 8 < i < |v| && j < 8
    ensures !Bit(v[i], j)
  {
    var p := 8 * i + j;
    assert p / 8 == i && p % 8 == j && pos <= p;
    assert !BitAt(v, p);
  }

  // ---- What the bitmap decodes ------------------------------------------------------

  /** Number of bits marked behind the opcode at `i`. A jump table's size is computed in
      `u8`, so the product wraps for tables of more than 127 entries. */
  function Marked(code: seq<Byte>, i: nat): (n: nat)
    requires i < |code|
    ensures n < 256
  {
    var op := code[i];
    if IsPush(op) then op - PUSH0
    else if op == RJUMP || op == RJUMPI || op == CALLF then 2
    else if op == RJUMPV then
      if i + 1 >= |code| then 0 else (2 * code[i + 1] as int + 1) % 256
    else 0
  }

  predicate CodeFrom(code: seq<Byte>, i: nat, p: nat)
    decreases |code| - i
  {
    i < |code| && (i == p || (i < p && CodeFrom(code, i + 1 + Marked(code, i), p)))
  }

  /** `p` is an opcode position of the bitmap's own decoding. */
  predicate IsCode(code: seq<Byte>, p: nat) {
    CodeFrom(code, 0, p)
  }

  lemma {:induction false} CodeInside(code: seq<Byte>, i: nat, p: nat)
    requires CodeFrom(code, i, p)
    ensures i <= p < |code|
    decreases |code| - i
  {
    if i != p {
      CodeInside(code, i + 1 + Marked(code, i), p);
    }
  }

  /** From an opcode position on, the next opcode position is the one behind its data. */
  lemma {:induction false} CodeStep(code: seq<Byte>, i: nat, p: nat, q: nat)
    requires CodeFrom(code, i, p)
    ensures CodeFrom(code, p, q) <==> p <= q && CodeFrom(code, i, q)
    decreases |code| - i
  {
    CodeInside(code, i, p);
    if CodeFrom(code, p, q) {
      CodeInside(code, p, q);
    }
    if i != p {
      var j := i + 1 + Marked(code, i);
      CodeInside(code, j, p);
      CodeStep(code, j, p, q);
    }
  }

  /** Tables whose size wraps in eight bits are so near the end that even the wrapped size reaches it. */
  predicate HarmlessTables(code: seq<Byte>) {
    forall p :: 0 <= p < |code| && IsStart(code, p) && LargeTable(code, p) ==> WrappedEnd(code, p) >= |code|
  }

  predicate LargeTable(code: seq<Byte>, p: nat)
    requires p < |code|
  {
    code[p] == RJUMPV && p + 1 < |code| && code[p + 1] > 127
  }

  /** Where the bitmap's decoding goes on behind a table whose size wraps. */
  function WrappedEnd(code: seq<Byte>, p: nat): nat
    requires p < |code| && LargeTable(code, p)
  {
    p + 2 + 2 * (code[p + 1] - 128)
  }

  lemma WrappedMark(code: seq<Byte>, p: nat)
    requires p < |code| && LargeTable(code, p)
    ensures p + 1 + Marked(code, p) == WrappedEnd(code, p) < p + Length(code, p)
  {
  }

  lemma {:induction false} CodeFromIsStartsFrom(code: seq<Byte>, i: nat, p: nat)
    requires HarmlessTables(code) && (i < |code| ==> IsStart(code, i))
    ensures CodeFrom(code, i, p) <==> StartsFrom(code, i, p)
    decreases |code| - i
  {
    if i < |code| && i < p {
      NextStart(code, i);
      if code[i] == RJUMPV && i + 1 >= |code| {
        assert !CodeFrom(code, i + 1, p) && !StartsFrom(code, i + 2, p);
      } else if LargeTable(code, i) {
        WrappedMark(code, i);
        assert !CodeFrom(code, WrappedEnd(code, i), p) && !StartsFrom(code, i + Length(code, i), p);
      } else {
        assert Length(code, i) == 1 + Marked(code, i);
        CodeFromIsStartsFrom(code, i + Length(code, i), p);
      }
    }
  }

  /** The bitmap's decoding is linear decoding on the whole code exactly when every table of more than
      127 entries is harmless. */
  lemma BitmapAgreesIff(code: seq<Byte>)
    ensures (forall p: nat :: p < |code| ==> (IsCode(code, p) <==> IsStart(code, p))) <==> HarmlessTables(code)
  {
    if HarmlessTables(code) {
      forall p: nat | p < |code| ensures IsCode(code, p) <==> IsStart(code, p) {
        CodeFromIsStartsFrom(code, 0, p);
      }
    } else {
      var p :| 0 <= p < |code| && IsStart(code, p) && LargeTable(code, p) && WrappedEnd(code, p) < |code|;
      if forall q: nat :: q < |code| ==> (IsCode(code, q) <==> IsStart(code, q)) {
        WrappedTableIsTakenForCode(code, p);
        assert false;
      }
    }
  }

  /** Where the bitmap still follows the decoding up to a harmful table, it goes on inside the table. */
  lemma WrappedTableIsTakenForCode(code: seq<Byte>, p: nat)
    requires p < |code| && IsCode(code, p) && IsStart(code, p) && LargeTable(code, p) && WrappedEnd(code, p) < |code|
    ensures IsCode(code, WrappedEnd(code, p)) && !IsStart(code, WrappedEnd(code, p))
  {
    var q := WrappedEnd(code, p);
    WrappedMark(code, p);
    assert CodeFrom(code, q, q);
    CodeStep(code, 0, p, q);
    NoStartInside(code, p, q);
  }

  /** With harmless tables the bitmap's decoding is linear decoding, also behind the code's end. */
  lemma BitmapDecodesLinearly(code: seq<Byte>, p: nat)
    requires HarmlessTables(code)
    ensures IsCode(code, p) <==> IsStart(code, p)
  {
    CodeFromIsStartsFrom(code, 0, p);
  }

  /** A table of 128 entries in full: its 256 bytes of jump offsets are taken for code. */
  lemma WrappedTableMisdecodes(code: seq<Byte>)
    requires |code| == 259 && code[0] == RJUMPV && code[1] == 128
    ensures IsCode(code, 2) && !IsStart(code, 2)
  {
    WrappedTableIsTakenForCode(code, 0);
  }

  // ---- The bit vector, changed in place -----------------------------------------------

  class Bitvec {
    const bits: array<bv8>

    constructor (capacity: nat)
      ensures bits.Length == capacity && fresh(bits)
      ensures ClearFrom(bits[..], 0)
    {
      bits := new bv8[capacity](_ => 0);
    }

    method SetN(n: nat, pos: nat)
      requires 1 <= n < 8 && ClearFrom(bits[..], pos)
      requires (pos + n - 1) / 8 < bits.Length
      modifies bits
      ensures SetRange(old(bits[..]), bits[..], pos, n)
    {
      ghost var v := bits[..];
      var a, b := ShiftMask(n, pos % 8);
      bits[pos / 8] := bits[pos / 8] | a;
      if b != 0 {
        bits[pos / 8 + 1] := b;
      }
      PartialByte(v, bits[..], pos, n, a, b);
    }

    method Set8(pos: nat)
      requires pos / 8 + 1 < bits.Length && ClearFrom(bits[..], pos)
      modifies bits
      ensures SetRange(old(bits[..]), bits[..], pos, 8)
    {
      ghost var v := bits[..];
      var a := Ones(pos % 8);
      bits[pos / 8] := bits[pos / 8] | a;
      bits[pos / 8 + 1] := !a;
      WholeBytes(v, bits[..], pos, 1);
    }

    method Set16(pos: nat)
      requires pos / 8 + 2 < bits.Length && ClearFrom(bits[..], pos)
      modifies bits
      ensures SetRange(old(bits[..]), bits[..], pos, 16)
    {
      ghost var v := bits[..];
      var a := Ones(pos % 8);
      bits[pos / 8] := bits[pos / 8] | a;
      bits[pos / 8 + 1] := 0xFF;
      bits[pos / 8 + 2] := !a;
      WholeBytes(v, bits[..], pos, 2);
    }

    method IsCodeSegment(pos: nat) returns (r: bool)
      requires pos / 8 < bits.Length
      ensures r <==> !BitAt(bits[..], pos)
    {
      r := (bits[pos / 8] >> (pos % 8)) & 1 == 0;
    }

    /** The inner loops of the marking: `n` bits in steps of 16, 8 and the rest. */
    method Mark(n: nat, pos: nat)
      requires ClearFrom(bits[..], pos)
      requires (pos + n) / 8 < bits.Length
      modifies bits
      ensures SetRange(old(bits[..]), bits[..], pos, n)
    {
      ghost var v := bits[..];
      var rest: nat, pc: nat := n, pos;
      while rest >= 16
        invariant pc + rest == pos + n
        invariant MarkedUpTo(v, bits[..], pos, pc)
      {
        StepFits(pc, 16, pos + n, bits.Length);
        ghost var w := bits[..];
        Set16(pc);
        MarkFurther(v, w, bits[..], pos, pc, 16);
        rest, pc := rest - 16, pc + 16;
      }
      while rest >= 8
        invariant pc + rest == pos + n
        invariant MarkedUpTo(v, bits[..], pos, pc)
      {
        StepFits(pc, 8, pos + n, bits.Length);
        ghost var w := bits[..];
        Set8(pc);
        MarkFurther(v, w, bits[..], pos, pc, 8);
        rest, pc := rest - 8, pc + 8;
      }
      if rest > 0 {
        StepFits(pc, rest, pos + n, bits.Length);
        ghost var w := bits[..];
        SetN(rest, pc);
        MarkFurther(v, w, bits[..], pos, pc, rest);
        assert pc + rest == pos + n;
      }
      assert MarkedUpTo(v, bits[..], pos, pos + n);
    }
  }

  /** `w` is `v` with the bits `pos .. pc` set, and everything from `pc` on is still clear. */
  ghost predicate MarkedUpTo(v: seq<bv8>, w: seq<bv8>, pos: nat, pc: nat) {
    pos <= pc && SetRange(v, w, pos, pc - pos) && ClearFrom(w, pc)
  }

  lemma MarkFurther(v: seq<bv8>, w: seq<bv8>, x: seq<bv8>, pos: nat, pc: nat, n: nat)
    requires MarkedUpTo(v, w, pos, pc) && SetRange(w, x, pc, n)
    ensures MarkedUpTo(v, x, pos, pc + n)
  {
    SetRangeKeepsClear(w, x, pc, n);
    SetRangesJoin(v, w, x, pos, pc - pos, n);
  }

  lemma StepFits(pc: nat, n: nat, end: nat, length: nat)
    requires 1 <= n <= 16 && pc + n <= end && end / 8 < length
    ensures (pc + n) / 8 < length && (pc + n - 1) / 8 < length
    ensures n == 8 ==> pc / 8 + 1 < length
    ensures n == 16 ==> pc / 8 + 2 < length
  {
  }

  /** `flag << k` for `flag = BITS_MASK[n]`, split into the byte at hand and the spill. */
  method ShiftMask(n: nat, k: nat) returns (first: bv8, spill: bv8)
    requires n < 8 && k < 8
    ensures forall j: nat :: j < 8 ==> (Bit(first, j) <==> k <= j < k + n)
    ensures forall j: nat :: j < 8 ==> (Bit(spill, j) <==> 8 + j < k + n)
    ensures spill == 0 <==> k + n <= 8
  {
    var a := Mask(n) << k;
    first, spill := Low(a), High(a);
    forall j: nat | j < 8
      ensures Bit(first, j) <==> k <= j < k + n
      ensures Bit(spill, j) <==> 8 + j < k + n
    {
      MaskBits(n, k, j);
    }
    if k + n <= 8 {
      NoSpill(n, k);
    } else {
      assert Bit(spill, 0);
    }
  }

  /** `set_n`: the mask may spill over into the next byte, which is then overwritten. */
  lemma PartialByte(v: seq<bv8>, w: seq<bv8>, pos: nat, n: nat, first: bv8, spill: bv8)
    requires 1 <= n < 8 && |w| == |v| && pos / 8 < |v| && ClearFrom(v, pos)
    requires forall j: nat :: j < 8 ==> (Bit(first, j) <==> pos % 8 <= j < pos % 8 + n)
    requires forall j: nat :: j < 8 ==> (Bit(spill, j) <==> 8 + j < pos % 8 + n)
    requires spill == 0 ==> pos % 8 + n <= 8
    requires forall i: nat :: i < |v| && i != pos / 8 && i != pos / 8 + 1 ==> w[i] == v[i]
    requires w[pos / 8] == v[pos / 8] | first
    requires pos / 8 + 1 < |v| ==> w[pos / 8 + 1] == if spill != 0 then spill else v[pos / 8 + 1]
    ensures SetRange(v, w, pos, n)
  {
    forall i: nat, j: nat | pos / 8 < i < |v| && j < 8
      ensures Bit(w[i], j) <==> 8 * i + j < pos + n
    {
      ClearByte(v, pos, i, j);
    }
    OverwriteSets(v, w, pos, n, first);
  }

  lemma NoSpill(n: nat, k: nat)
    requires n < 8 && k + n <= 8 && k < 8
    ensures High(Mask(n) << k) == 0
  {
  }

  /** `set8` and `set16`: `m` further bytes, the last of them filled up to `pos % 8`. */
  lemma WholeBytes(v: seq<bv8>, w: seq<bv8>, pos: nat, m: nat)
    requires |w| == |v| && pos / 8 + m < |v| && 1 <= m <= 2 && ClearFrom(v, pos)
    requires forall i: nat :: i < pos / 8 || pos / 8 + m < i < |v| ==> w[i] == v[i]
    requires w[pos / 8] == v[pos / 8] | Ones(pos % 8)
    requires m == 2 ==> w[pos / 8 + 1] == 0xFF
    requires w[pos / 8 + m] == !Ones(pos % 8)
    ensures SetRange(v, w, pos, 8 * m)
  {
    forall j: nat | j < 8
      ensures Bit(Ones(pos % 8), j) <==> pos % 8 <= j < pos % 8 + 8 * m
    {
      OnesBits(pos % 8, j);
    }
    forall i: nat, j: nat | pos / 8 < i < |v| && j < 8
      ensures Bit(w[i], j) <==> 8 * i + j < pos + 8 * m
    {
      WholeByte(v, w, pos, pos / 8, pos % 8, m, i, j);
    }
    OverwriteSets(v, w, pos, 8 * m, Ones(pos % 8));
  }

  /** One of these bytes, or one behind them. */
  lemma WholeByte(v: seq<bv8>, w: seq<bv8>, pos: nat, q: nat, k: nat, m: nat, i: nat, j: nat)
    requires |w| == |v| && pos == 8 * q + k && k < 8 && q + m < |v| && 1 <= m <= 2 && ClearFrom(v, pos)
    requires q < i < |v| && j < 8 && (i > q + m ==> w[i] == v[i])
    requires m == 2 ==> w[q + 1] == 0xFF
    requires w[q + m] == !Ones(k)
    ensures Bit(w[i], j) <==> 8 * i + j < pos + 8 * m
  {
    if i > q + m {
      ClearByte(v, pos, i, j);
    } else if i == q + m {
      OnesBits(k, j);
    } else {
      OnesBits(0, j);
    }
  }

  // ---- The bitmap of a code section ----------------------------------------------------

  /** `eof_code_bitmap`: the four spare bytes suffice even for a truncated PUSH32 at the
      very end, and afterwards a position inside the code counts as code exactly when the
      bitmap's decoding starts an instruction there. */
  method EofCodeBitmap(code: seq<Byte>) returns (v: Bitvec)
    ensures fresh(v) && fresh(v.bits) && v.bits.Length == |code| / 8 + 5
    ensures forall p: nat :: p < |code| ==> (!BitAt(v.bits[..], p) <==> IsCode(code, p))
  {
    v := new Bitvec(|code| / 8 + 1 + 4);
    var pc := 0;
    while pc < |code|
      invariant pc < |code| ==> IsCode(code, pc)
      invariant pc >= |code| ==> forall p: nat :: CodeFrom(code, pc, p) ==> false
      invariant ClearFrom(v.bits[..], pc)
      invariant forall p: nat :: p < pc && p < |code| ==> (!BitAt(v.bits[..], p) <==> IsCode(code, p))
      modifies v.bits
      decreases |code| - pc
    {
      ghost var at := pc;
      ghost var before := v.bits[..];
      var op := code[pc];
      var numbits: nat := 0;
      pc := pc + 1;
      if IsPush(op) {
        numbits := op - PUSH1 + 1;
      } else if op == RJUMP || op == RJUMPI || op == CALLF {
        numbits := 2;
      } else if op == RJUMPV {
        if pc >= |code| {
          MarkedSpan(code, at, before, before, pc);
          return;
        }
        numbits := (2 * code[pc] as int + 1) % 256;
        if pc + numbits > |code| {
          numbits := |code| - pc;
        }
      }
      v.Mark(numbits, pc);
      pc := pc + numbits;
      SetRangeKeepsClear(before, v.bits[..], at + 1, numbits);
      MarkedSpan(code, at, before, v.bits[..], pc);
    }
  }

  /** Marking the data of one instruction extends the agreement up to the next one. */
  lemma MarkedSpan(code: seq<Byte>, at: nat, v: seq<bv8>, w: seq<bv8>, next: nat)
    requires at < |code| && IsCode(code, at) && |v| == |code| / 8 + 5
    requires ClearFrom(v, at)
    requires forall p: nat :: p < at ==> (!BitAt(v, p) <==> IsCode(code, p))
    requires next == at + 1 + Marked(code, at) || |code| <= next <= at + 1 + Marked(code, at)
    requires SetRange(v, w, at + 1, next - at - 1)
    ensures forall p: nat :: p < next && p < |code| ==> (!BitAt(w, p) <==> IsCode(code, p))
    ensures next < |code| ==> IsCode(code, next)
  {
    forall p: nat | p < next && p < |code|
      ensures !BitAt(w, p) <==> IsCode(code, p)
    {
      if p > at {
        CodeStep(code, 0, at, p);
      }
    }
    if next < |code| {
      assert CodeFrom(code, at, next);
      CodeStep(code, 0, at, next);
    }
  }
}
