/** Opcode numbers, the validator's stack-effect table and the reading of immediates. */
module Opcodes {
  type Byte = x: int | 0 <= x < 256

  datatype Option<+T> = None | Some(value: T)

  const STOP: Byte := 0x00
  const RJUMP: Byte := 0x5C
  const RJUMPI: Byte := 0x5D
  const RJUMPV: Byte := 0x5E
  const PUSH0: Byte := 0x5F
  const PUSH1: Byte := 0x60
  const PUSH32: Byte := 0x7F
  const CALLF: Byte := 0xB0
  const RETF: Byte := 0xB1
  const RETURN: Byte := 0xF3
  const REVERT: Byte := 0xFD
  const INVALID: Byte := 0xFE

  const STACK_LIMIT: nat := 1024

  /** An entry of `OPCODE_INFO`, kept as the arguments of `max_stack(pop, push)`. */
  datatype OpcodeInfo = OpcodeInfo(minStack: nat, maxStack: nat, terminal: bool)

  function Entry(pop: nat, push: nat): OpcodeInfo
    requires push <= STACK_LIMIT + pop
  {
    OpcodeInfo(pop, STACK_LIMIT + pop - push, false)
  }

  function TerminalEntry(pop: nat): OpcodeInfo {
    OpcodeInfo(pop, STACK_LIMIT + pop, true)
  }

  /** The validator's table: `None` marks an undefined opcode. */
  function Info(op: Byte): (r: Option<OpcodeInfo>)
    ensures r.Some? ==> r.value.maxStack <= STACK_LIMIT + r.value.minStack
  {
    if op == STOP || op == INVALID || op == RJUMP || op == RETF then Some(TerminalEntry(0))
    else if op == RETURN || op == REVERT then Some(TerminalEntry(2))
    else if op <= 0x0B then Some(if op == 0x08 || op == 0x09 then Entry(3, 1) else Entry(2, 1))
    else if 0x10 <= op <= 0x1D then Some(if op == 0x15 || op == 0x19 then Entry(1, 1) else Entry(2, 1))
    else if op == 0x20 then Some(Entry(2, 1))
    else if op in {0x31, 0x35, 0x3B, 0x3F, 0x40, 0x51, 0x54} then Some(Entry(1, 1))
    else if op in {0x37, 0x39, 0x3E} then Some(Entry(3, 0))
    else if op == 0x3C then Some(Entry(4, 0))
    else if 0x30 <= op <= 0x48 || 0x58 <= op <= 0x5A then Some(Entry(0, 1))
    else if op in {0x50, 0x56, 0xFF} || op == RJUMPI || op == RJUMPV then Some(Entry(1, 0))
    else if op in {0x52, 0x53, 0x55, 0x57} then Some(Entry(2, 0))
    else if op == 0x5B || op == CALLF then Some(Entry(0, 0))
    else if PUSH0 <= op <= PUSH32 then Some(Entry(0, 1))
    else if 0x80 <= op <= 0x8F then Some(Entry(op - 0x7F, op - 0x7F + 1))
    else if 0x90 <= op <= 0x9F then Some(Entry(op - 0x8E, op - 0x8E))
    else if 0xA0 <= op <= 0xA4 then Some(Entry(op - 0x9E, 0))
    else if op == 0xF0 then Some(Entry(3, 1))
    else if op == 0xF1 || op == 0xF2 then Some(Entry(7, 1))
    else if op == 0xF4 || op == 0xFA then Some(Entry(6, 1))
    else if op == 0xF5 then Some(Entry(4, 1))
    else None
  }

  predicate IsTerminal(op: Byte) {
    Info(op).Some? && Info(op).value.terminal
  }

  predicate IsPush(op: Byte) {
    PUSH1 <= op <= PUSH32
  }

  // ---- Reading code -----------------------------------------------------------

  /** `get_or_default`, `get_u16_or_default` and `get_i16_or_default` of `Buffer`. */
  function ByteAt(code: seq<Byte>, i: nat): Byte {
    if i < |code| then code[i] else 0
  }

  function U16At(code: seq<Byte>, i: nat): (r: int)
    ensures 0 <= r < 0x1_0000
  {
    if |code| < i + 2 then 0 else code[i] as int * 256 + code[i + 1] as int
  }

  function I16At(code: seq<Byte>, i: nat): int {
    var v := U16At(code, i);
    if v < 0x8000 then v else v - 0x1_0000
  }

  // ---- Linear decoding ----------------------------------------------------------

  /** Length of the instruction at `i`, immediates included. */
  function Length(code: seq<Byte>, i: nat): (n: nat)
    requires i < |code|
    ensures n >= 1
  {
    var op := code[i];
    if IsPush(op) then 1 + (op - PUSH0)
    else if op == RJUMP || op == RJUMPI || op == CALLF then 3
    else if op == RJUMPV then 2 + 2 * ByteAt(code, i + 1)
    else 1
  }

  /** `p` is where an instruction starts when decoding begins at `i`. */
  predicate StartsFrom(code: seq<Byte>, i: nat, p: nat)
    decreases |code| - i
  {
    i < |code| && (i == p || (i < p && StartsFrom(code, i + Length(code, i), p)))
  }

  predicate IsStart(code: seq<Byte>, p: nat) {
    StartsFrom(code, 0, p)
  }

  /** No instruction of the code is a RJUMPV. */
  predicate JumpTableFree(code: seq<Byte>) {
    forall p :: 0 <= p < |code| && IsStart(code, p) ==> code[p] != RJUMPV
  }

  lemma {:induction false} StartInside(code: seq<Byte>, i: nat, p: nat)
    requires StartsFrom(code, i, p)
    ensures i <= p < |code|
    decreases |code| - i
  {
    if i != p {
      StartInside(code, i + Length(code, i), p);
    }
  }

  /** Decoding from an instruction start reaches exactly the later starts. */
  lemma {:induction false} StartsFromStart(code: seq<Byte>, i: nat, p: nat, q: nat)
    requires StartsFrom(code, i, p)
    ensures StartsFrom(code, p, q) <==> p <= q && StartsFrom(code, i, q)
    decreases |code| - i
  {
    StartInside(code, i, p);
    if StartsFrom(code, p, q) {
      StartInside(code, p, q);
    }
    if i != p {
      var j := i + Length(code, i);
      StartInside(code, j, p);
      StartsFromStart(code, j, p, q);
    }
  }

  /** The position behind a start is the next start, or lies behind the code. */
  lemma NextStart(code: seq<Byte>, p: nat)
    requires IsStart(code, p)
    ensures p < |code|
    ensures p + Length(code, p) < |code| ==> IsStart(code, p + Length(code, p))
  {
    StartInside(code, 0, p);
    var n := p + Length(code, p);
    if n < |code| {
      assert StartsFrom(code, p, n);
      StartsFromStart(code, 0, p, n);
    }
  }

  /** Nothing strictly inside an instruction is a start. */
  lemma NoStartInside(code: seq<Byte>, p: nat, q: nat)
    requires IsStart(code, p) && p < |code| && p < q < p + Length(code, p)
    ensures !IsStart(code, q)
  {
    StartsFromStart(code, 0, p, q);
  }
}
