/** The interpreter's EOF dispatch (RJUMP, RJUMPI, CALLF, RETF, PUSHn and the plain
    handlers) run on validated containers. The main theorem is the soundness of the
    validator: no run can underflow the operand stack, leave the code, push past its end,
    meet an unknown opcode or index a missing section, as long as the interpreter reads the
    jump tables as it must; and when it does. */
module EofMachine {
  import opened Opcodes
  import opened CodeBitmap
  import opened EofContainer
  import opened EofFlow
  import opened EofValidator

  type Word = nat

  /** The operand stack holds 127 words. */
  const STACK_CAPACITY: nat := 127

  datatype ReturnContext = ReturnContext(section: nat, pc: nat, stackHeight: nat)

  datatype State = State(section: nat, pc: int, stack: seq<Word>, frames: seq<ReturnContext>)

  /** What the outside contributes to one step: the words a handler computes, and whether it
      fails for a reason of its own (memory limits, static mode, a failing callee, ...). */
  datatype Input = Input(fails: bool, produced: Word -> Word)

  datatype Exit = Stopped | Returned | Reverted | DeprecatedOpcode | InvalidOpcode | HandlerFailed | Overflow

  /** Faults are the outcomes that validation is there to exclude. */
  datatype Fault = Underflow | PushOutOfBounds | UnknownOpcode | EmptyReturnStack | IndexPanic

  datatype Outcome = Running(next: State) | Exited(exit: Exit) | Faulted(fault: Fault)

  // ---- The handlers ------------------------------------------------------------------------

  /** How deep a handler reads, how many words it pops and how many it pushes. */
  datatype Handler = Handler(depth: nat, pops: nat, pushes: nat)

  function Pops(n: nat, pushes: nat): Option<Handler> {
    Some(Handler(n, n, pushes))
  }

  /** The plain handlers of the dispatch table; `None` is `opcode_unknown`. For calls and
      creations the word pushed when the callee is joined is included. */
  function HandlerOf(op: Byte): Option<Handler> {
    if 0x01 <= op <= 0x07 || op == 0x0A || op == 0x0B then Pops(2, 1)
    else if op == 0x08 || op == 0x09 then Pops(3, 1)
    else if op == 0x15 || op == 0x19 then Pops(1, 1)
    else if 0x10 <= op <= 0x1D || op == 0x20 then Pops(2, 1)
    else if op == 0x30 || op == 0x32 || op == 0x33 || op == 0x34 || op == 0x36 || op == 0x38
      || op == 0x3A || op == 0x3D || 0x41 <= op <= 0x48 then Pops(0, 1)
    else if op == 0x31 || op == 0x35 || op == 0x3B || op == 0x3F || op == 0x40 then Pops(1, 1)
    else if op == 0x37 || op == 0x39 || op == 0x3E then Pops(3, 0)
    else if op == 0x3C then Pops(4, 0)
    else if op == 0x50 then Pops(1, 0)
    else if op == 0x51 || op == 0x54 then Pops(1, 1)
    else if op == 0x52 || op == 0x53 || op == 0x55 then Pops(2, 0)
    else if op == 0x59 || op == 0x5A || op == PUSH0 then Pops(0, 1)
    else if op == 0x5B then Pops(0, 0)
    else if 0x80 <= op <= 0x8F then Some(Handler(op - 0x7F, 0, 1))
    else if 0x90 <= op <= 0x9F then Some(Handler(op - 0x8E, 0, 0))
    else if 0xA0 <= op <= 0xA4 then Pops(2 + (op - 0xA0), 0)
    else if op == 0xF0 then Pops(3, 1)
    else if op == 0xF1 then Pops(7, 1)
    else if op == 0xF4 || op == 0xFA then Pops(6, 1)
    else if op == 0xF5 then Pops(4, 1)
    else None
  }

  predicate IsControl(op: Byte) {
    op == STOP || op == RJUMP || op == RJUMPI || op == RJUMPV || op == CALLF || op == RETF
    || op == RETURN || op == REVERT || op == INVALID || IsPush(op)
  }

  predicate IsDup(op: Byte) { 0x80 <= op <= 0x8F }

  predicate IsSwap(op: Byte) { 0x90 <= op <= 0x9F }

  /** The validator's table and the handlers agree on every opcode: same depth, same net
      effect, and nothing in the table is unknown to the dispatch. */
  lemma TableMatchesHandlers(op: Byte, height: nat)
    requires !IsControl(op) && op !in DEPRECATED && Info(op).Some?
    ensures HandlerOf(op).Some?
    ensures
      var h, info := HandlerOf(op).value, Info(op).value;
      && h.pops <= h.depth == info.minStack
      && height + STACK_LIMIT - info.maxStack == height - h.pops + h.pushes
  {
    if op < 0x20 {
      ArithmeticMatches(op);
    } else if op < 0x50 {
      LowMatches(op);
    } else if op < 0x80 {
      MiddleMatches(op);
    } else if op < 0xA0 {
      DupOrSwapMatches(op);
    } else {
      HighMatches(op);
    }
  }

  predicate Match(op: Byte) {
    HandlerOf(op).Some? && Info(op).Some? &&
    var h, info := HandlerOf(op).value, Info(op).value;
    h.pops <= h.depth == info.minStack && STACK_LIMIT - info.maxStack == h.pushes - h.pops
  }

  lemma ArithmeticMatches(op: Byte)
    requires !IsControl(op) && Info(op).Some? && op < 0x20
    ensures Match(op)
  {
  }

  lemma LowMatches(op: Byte)
    requires !IsControl(op) && Info(op).Some? && 0x20 <= op < 0x50
    ensures Match(op)
  {
  }

  lemma MiddleMatches(op: Byte)
    requires !IsControl(op) && op !in DEPRECATED && Info(op).Some? && 0x50 <= op < 0x80
    ensures Match(op)
  {
  }

  lemma DupOrSwapMatches(op: Byte)
    requires 0x80 <= op < 0xA0
    ensures Match(op)
  {
  }

  lemma HighMatches(op: Byte)
    requires !IsControl(op) && op !in DEPRECATED && Info(op).Some? && op >= 0xA0
    ensures Match(op)
  {
  }

  /** Conversely, the dispatch knows no plain opcode that the table leaves undefined. */
  lemma HandlersAreInTable(op: Byte)
    ensures HandlerOf(op).Some? ==> Info(op).Some? && !IsTerminal(op)
  {
  }

  // ---- One step ------------------------------------------------------------------------------

  function ImmediateWord(code: seq<Byte>, pos: nat, n: nat): Word {
    if n == 0 then 0 else ImmediateWord(code, pos, n - 1) * 256 + ByteAt(code, pos + n - 1)
  }

  function Push(st: State, stack: seq<Word>, word: Word, pc: int): Outcome {
    if |stack| == STACK_CAPACITY then Exited(Overflow)
    else Running(st.(stack := stack + [word], pc := pc))
  }

  /** A plain handler: DUP, SWAP and PUSH0 are given exactly, the others pop their operands and push
      what the input provides. */
  function PlainStep(op: Byte, st: State, input: Input): Outcome {
    var n := |st.stack|;
    if HandlerOf(op).None? then Faulted(UnknownOpcode)
    else
      var h := HandlerOf(op).value;
      if n < h.depth then Faulted(Underflow)
      else if input.fails then Exited(HandlerFailed)
      else if IsDup(op) then Push(st, st.stack, st.stack[n - h.depth], st.pc + 1)
      else if IsSwap(op) then
        var top, other := st.stack[n - 1], st.stack[n - h.depth];
        Running(st.(stack := st.stack[n - h.depth := top][n - 1 := other], pc := st.pc + 1))
      else if op == PUSH0 then Push(st, st.stack, 0, st.pc + 1)
      else if n < h.pops then Faulted(Underflow)
      else if h.pushes == 0 then Running(st.(stack := st.stack[..n - h.pops], pc := st.pc + 1))
      else Push(st, st.stack[..n - h.pops], input.produced(0), st.pc + 1)
  }

  function CallF(code: seq<Byte>, types: Types, st: State): Outcome
    requires 0 <= st.pc
  {
    var idx, n := U16At(code, st.pc + 1), |st.stack|;
    if idx >= |types| then Faulted(IndexPanic)
    else if n + types[idx].maxStackHeight >= 1024 then Exited(Overflow)
    else if n < types[idx].input then Faulted(Underflow)
    else
      var context := ReturnContext(st.section, st.pc + 3, n - types[idx].input);
      Running(State(idx, 0, st.stack, st.frames + [context]))
  }

  function RetF(st: State): Outcome {
    var n := |st.frames|;
    if n == 0 then Faulted(EmptyReturnStack)
    else if n == 1 then Exited(Stopped)
    else
      var context := st.frames[n - 1];
      Running(State(context.section, context.pc, st.stack, st.frames[..n - 1]))
  }

  function RJump(code: seq<Byte>, st: State): Outcome
    requires 0 <= st.pc
  {
    Running(st.(pc := st.pc + 3 + I16At(code, st.pc + 1)))
  }

  function RJumpI(code: seq<Byte>, st: State): Outcome
    requires 0 <= st.pc
  {
    if st.stack == [] then Faulted(Underflow)
    else
      var condition, rest := st.stack[|st.stack| - 1], st.stack[..|st.stack| - 1];
      if condition == 0 then Running(st.(stack := rest, pc := st.pc + 3))
      else RJump(code, st.(stack := rest))
  }

  /** Where a jump table leads for `idx`, as the interpreter reads it: one byte further on than the
      validator, and with one entry more. */
  function ReadTarget(code: seq<Byte>, pc: nat, idx: nat): int {
    pc + 2 + 2 * ByteAt(code, pc + 1) as int + I16At(code, pc + 3 + 2 * idx)
  }

  function RJumpV(code: seq<Byte>, st: State): Outcome
    requires 0 <= st.pc
  {
    if st.stack == [] then Faulted(Underflow)
    else
      var idx, rest := st.stack[|st.stack| - 1], st.stack[..|st.stack| - 1];
      var count := ByteAt(code, st.pc + 1);
      var behind := st.pc + 2 + count as int * 2;
      if idx > count then Running(st.(stack := rest, pc := behind))
      else Running(st.(stack := rest, pc := ReadTarget(code, st.pc, idx)))
  }

  function PushN(code: seq<Byte>, op: Byte, st: State): Outcome
    requires 0 <= st.pc && IsPush(op)
  {
    var n := op - PUSH0;
    // PUSH1 compares against the position of its byte, the others against the one behind.
    if |code| <= st.pc + (if n == 1 then 1 else 1 + n) then Faulted(PushOutOfBounds)
    else Push(st, st.stack, ImmediateWord(code, st.pc + 1, n), st.pc + 1 + n)
  }

  function MachineStep(c: Container, st: State, input: Input): Outcome {
    if st.section >= |c.code| || st.pc < 0 then Faulted(IndexPanic)
    else
      var code := c.code[st.section];
      var op := ByteAt(code, st.pc);
      if op == STOP then Exited(Stopped)
      else if op in DEPRECATED then Exited(DeprecatedOpcode)
      else if op == INVALID then Exited(InvalidOpcode)
      else if op == RETURN || op == REVERT then
        if |st.stack| < 2 then Faulted(Underflow)
        else if input.fails then Exited(HandlerFailed)
        else Exited(if op == RETURN then Returned else Reverted)
      else if op == RJUMP then RJump(code, st)
      else if op == RJUMPI then RJumpI(code, st)
      else if op == RJUMPV then RJumpV(code, st)
      else if op == CALLF then CallF(code, c.types, st)
      else if op == RETF then RetF(st)
      else if IsPush(op) then PushN(code, op, st)
      else PlainStep(op, st, input)
  }

  // ---- The invariant -----------------------------------------------------------------------------

  type Heights = seq<seq<int>>

  /** A container as `unmarshal` and `validate_container` let it pass, together with the heights the
      verifier recorded. */
  ghost predicate Certified(c: Container, hs: Heights) {
    && |c.code| == |c.types| == |hs|
    && (forall s :: 0 <= s < |c.code| ==>
          c.code[s] != [] && HarmlessTables(c.code[s]) && SectionCertified(c, hs, s))
  }

  ghost function SectionCertificate(c: Container, s: nat): (h: seq<int>)
    requires s < |c.code| && SectionValid(c.code[s], c.types, s)
    ensures Certificate(c.code[s], c.types, s, h)
  {
    var h :| Certificate(c.code[s], c.types, s, h);
    h
  }

  ghost predicate SectionCertified(c: Container, hs: Heights, s: nat) {
    && s < |c.code| && s < |hs|
    && SectionValid(c.code[s], c.types, s) && Certificate(c.code[s], c.types, s, hs[s])
  }

  /** A validated container has certificates for all its sections. */
  lemma ValidIsCertified(c: Container) returns (hs: Heights)
    requires |c.code| == |c.types| && AllNonempty(c.code) && ContainerValid(c)
    requires forall s :: 0 <= s < |c.code| ==> HarmlessTables(c.code[s])
    ensures Certified(c, hs)
  {
    hs := seq(|c.code|, s requires 0 <= s < |c.code| && SectionValid(c.code[s], c.types, s) =>
                SectionCertificate(c, s));
    forall s | 0 <= s < |c.code| ensures SectionCertified(c, hs, s) {
      assert hs[s] == SectionCertificate(c, s);
    }
  }

  /** The recorded height of a position in a section. */
  ghost predicate Recorded(hs: Heights, section: nat, pc: int, height: int) {
    section < |hs| && Visited(hs[section], pc) && hs[section][pc] == height
  }

  /** The section that runs in frame `k` of the return stack. */
  ghost function FrameSection(st: State, k: nat): nat
    requires k < |st.frames|
  {
    if k + 1 < |st.frames| then st.frames[k + 1].section else st.section
  }

  /** Returning from frame `k` restores the height recorded for the return address. */
  ghost predicate FrameOk(c: Container, hs: Heights, st: State, k: nat)
    requires 0 < k < |st.frames|
  {
    var context, callee := st.frames[k], FrameSection(st, k);
    && callee < |c.types|
    && Recorded(hs, context.section, context.pc,
                context.stackHeight + c.types[callee].output - st.frames[k - 1].stackHeight)
  }

  /** The machine stands on a recorded instruction and the operand stack is as high as the
      frame's base plus the recorded height, and the same holds for every return address. */
  ghost predicate Inv(c: Container, hs: Heights, st: State) {
    && |st.frames| >= 1
    && Recorded(hs, st.section, st.pc, |st.stack| - st.frames[|st.frames| - 1].stackHeight)
    && forall k :: 0 < k < |st.frames| ==> FrameOk(c, hs, st, k)
  }

  function Initial(): State {
    State(0, 0, [], [ReturnContext(0, 0, 0)])
  }

  lemma EntryRecorded(c: Container, hs: Heights, s: nat)
    requires Certified(c, hs) && s < |c.code|
    ensures Recorded(hs, s, 0, c.types[s].input)
  {
    assert SectionCertified(c, hs, s) && c.code[s] != [];
    EntryReached(c.code[s], c.types, s);
    assert Inside(c.code[s], EofFlow.Entry(c.types, s));
  }

  lemma InvInitial(c: Container, hs: Heights)
    requires Certified(c, hs) && WellFormed(c)
    ensures Inv(c, hs, Initial())
  {
    EntryRecorded(c, hs, 0);
  }

  /** Every entry the interpreter may read of the jump table at `pc` leads to a position that the
      verifier recorded with the height it is entered at. */
  ghost predicate TableRead(c: Container, hs: Heights, s: nat, pc: nat, height: int)
    requires s < |c.code|
  {
    forall idx: nat :: idx <= ByteAt(c.code[s], pc + 1) ==>
      Recorded(hs, s, ReadTarget(c.code[s], pc, idx), height - 1)
  }

  ghost predicate AtTable(c: Container, s: nat, pc: int) {
    s < |c.code| && 0 <= pc < |c.code[s]| && c.code[s][pc] == RJUMPV
  }

  ghost predicate TablesRead(c: Container, hs: Heights) {
    forall s: nat, pc: int, height: int ::
      Recorded(hs, s, pc, height) && AtTable(c, s, pc) ==> TableRead(c, hs, s, pc, height)
  }

  /** What validation guarantees about a recorded position and about what follows it. */
  ghost predicate PositionOk(c: Container, hs: Heights, s: nat, pc: int, height: int) {
    && s < |c.code| == |c.types| && 0 <= pc < |c.code[s]| && 0 <= height
    && var code, here := c.code[s], Config(pc, height);
    var op := code[pc];
    && IsStart(code, pc) && (op == RJUMPV ==> TableRead(c, hs, s, pc, height))
    && LocalOk(code, c.types, s, here)
    && (IsPush(op) ==> pc + 1 + (op - PUSH0) < |code|)
    && (op == CALLF ==>
          var idx := U16At(code, pc + 1);
          idx < |c.types| && Recorded(hs, idx, 0, c.types[idx].input))
    && var next := Next(code, c.types, s, here);
    forall i :: 0 <= i < |next| ==> Recorded(hs, s, next[i].pos, next[i].height)
  }

  ghost predicate Trusted(c: Container, hs: Heights) {
    forall s: nat, pc: int, height: int ::
      Recorded(hs, s, pc, height) ==> PositionOk(c, hs, s, pc, height)
  }

  lemma RecordedStart(c: Container, hs: Heights, s: nat, pc: int, height: int)
    requires Certified(c, hs) && Recorded(hs, s, pc, height)
    ensures s < |c.code| && 0 <= pc < |c.code[s]| && IsStart(c.code[s], pc)
    ensures InstructionOk(c.code[s], |c.types|, pc)
    ensures LocalOk(c.code[s], c.types, s, Config(pc, height))
  {
    assert SectionCertified(c, hs, s);
    assert Reached(c.code[s], c.types, s, Config(pc, height));
    VisitedAreStarts(c.code[s], c.types, s, hs[s]);
    assert pc in VisitedSet(hs[s]);
  }

  lemma NextRecorded(c: Container, hs: Heights, s: nat, here: Config, d: Config)
    requires Certified(c, hs) && Recorded(hs, s, here.pos, here.height)
    requires s < |c.code| && Inside(c.code[s], here) && LocalOk(c.code[s], c.types, s, here)
    requires d in Next(c.code[s], c.types, s, here) && IsStart(c.code[s], here.pos)
    ensures Recorded(hs, s, d.pos, d.height)
  {
    assert SectionCertified(c, hs, s);
    StepReached(c.code[s], c.types, s, here, d);
    NextIsStart(c.code[s], c.types, s, here, d);
  }

  lemma CertifiedIsTrusted(c: Container, hs: Heights)
    requires Certified(c, hs) && TablesRead(c, hs)
    ensures Trusted(c, hs)
  {
    forall s: nat, pc: int, height: int | Recorded(hs, s, pc, height)
      ensures PositionOk(c, hs, s, pc, height)
    {
      RecordedPosition(c, hs, s, pc, height);
    }
  }

  lemma RecordedPosition(c: Container, hs: Heights, s: nat, pc: int, height: int)
    requires Certified(c, hs) && TablesRead(c, hs) && Recorded(hs, s, pc, height)
    ensures PositionOk(c, hs, s, pc, height)
  {
    RecordedStart(c, hs, s, pc, height);
    assert HarmlessTables(c.code[s]);
    assert AtTable(c, s, pc) ==> TableRead(c, hs, s, pc, height);
    var here := Config(pc, height);
    var next := Next(c.code[s], c.types, s, here);
    forall i | 0 <= i < |next| ensures Recorded(hs, s, next[i].pos, next[i].height) {
      NextRecorded(c, hs, s, here, next[i]);
    }
    PushFits(c, hs, s, pc);
    if c.code[s][pc] == CALLF {
      EntryRecorded(c, hs, U16At(c.code[s], pc + 1));
    }
    PositionFromParts(c, hs, s, pc, height);
  }

  lemma PushFits(c: Container, hs: Heights, s: nat, pc: nat)
    requires s < |c.code| && SectionCertified(c, hs, s) && IsStart(c.code[s], pc) && pc < |c.code[s]|
    ensures IsPush(c.code[s][pc]) ==> pc + 1 + (c.code[s][pc] - PUSH0) < |c.code[s]|
  {
    if IsPush(c.code[s][pc]) {
      FallsThroughInside(c.code[s], pc);
    }
  }

  lemma PositionFromParts(c: Container, hs: Heights, s: nat, pc: int, height: int)
    requires s < |c.code| == |c.types| && 0 <= pc < |c.code[s]| && 0 <= height
    requires IsStart(c.code[s], pc) && (c.code[s][pc] == RJUMPV ==> TableRead(c, hs, s, pc, height))
    requires LocalOk(c.code[s], c.types, s, Config(pc, height))
    requires IsPush(c.code[s][pc]) ==> pc + 1 + (c.code[s][pc] - PUSH0) < |c.code[s]|
    requires
      var idx := U16At(c.code[s], pc + 1);
      c.code[s][pc] == CALLF ==> idx < |c.types| && Recorded(hs, idx, 0, c.types[idx].input)
    requires
      var next := Next(c.code[s], c.types, s, Config(pc, height));
      forall i :: 0 <= i < |next| ==> Recorded(hs, s, next[i].pos, next[i].height)
    ensures PositionOk(c, hs, s, pc, height)
  {
  }

  ghost predicate OnGoodGround(c: Container, hs: Heights, st: State) {
    && Inv(c, hs, st)
    && PositionOk(c, hs, st.section, st.pc, |st.stack| - st.frames[|st.frames| - 1].stackHeight)
  }

  /** Moving within a section keeps the frames as they are. */
  lemma MoveKeepsInv(c: Container, hs: Heights, st: State, next: State)
    requires Inv(c, hs, st) && next.section == st.section && next.frames == st.frames
    requires Recorded(hs, next.section, next.pc, |next.stack| - next.frames[|next.frames| - 1].stackHeight)
    ensures Inv(c, hs, next)
  {
    forall k | 0 < k < |next.frames| ensures FrameOk(c, hs, next, k) {
      assert FrameOk(c, hs, st, k);
    }
  }

  lemma PlainMoves(op: Byte, st: State, input: Input, height: nat)
    requires !IsControl(op) && op !in DEPRECATED && Info(op).Some?
    requires Info(op).value.minStack <= height <= |st.stack|
    ensures
      var r := PlainStep(op, st, input);
      && !r.Faulted?
      && (r.Running? ==>
            && r.next.section == st.section && r.next.frames == st.frames && r.next.pc == st.pc + 1
            && |r.next.stack| - |st.stack| == STACK_LIMIT - Info(op).value.maxStack)
  {
    TableMatchesHandlers(op, height);
  }

  lemma PlainSound(c: Container, hs: Heights, st: State, input: Input)
    requires OnGoodGround(c, hs, st)
    requires
      var code := c.code[st.section];
      0 <= st.pc < |code| && !IsControl(code[st.pc]) && code[st.pc] !in DEPRECATED
    ensures
      var r := PlainStep(c.code[st.section][st.pc], st, input);
      !r.Faulted? && (r.Running? ==> Inv(c, hs, r.next))
  {
    var code := c.code[st.section];
    var op, h := code[st.pc], |st.stack| - st.frames[|st.frames| - 1].stackHeight;
    HandlersAreInTable(op);
    PlainMoves(op, st, input, h);
    var r := PlainStep(op, st, input);
    if r.Running? {
      var next := Next(code, c.types, st.section, Config(st.pc, h));
      assert next[0] == Config(st.pc + 1, After(code, Config(st.pc, h)));
      MoveKeepsInv(c, hs, st, r.next);
    }
  }

  lemma PushSound(c: Container, hs: Heights, st: State)
    requires OnGoodGround(c, hs, st)
    requires 0 <= st.pc < |c.code[st.section]| && IsPush(c.code[st.section][st.pc])
    ensures
      var code := c.code[st.section];
      var r := PushN(code, code[st.pc], st);
      !r.Faulted? && (r.Running? ==> Inv(c, hs, r.next))
  {
    var code := c.code[st.section];
    var op, h := code[st.pc], |st.stack| - st.frames[|st.frames| - 1].stackHeight;
    var d := Config(st.pc + 1 + (op - PUSH0), h + 1);
    var next := Next(code, c.types, st.section, Config(st.pc, h));
    assert next == [d] && next[0] == d;
    var r := PushN(code, op, st);
    if r.Running? {
      MoveKeepsInv(c, hs, st, r.next);
    }
  }

  lemma JumpSound(c: Container, hs: Heights, st: State)
    requires OnGoodGround(c, hs, st)
    requires 0 <= st.pc < |c.code[st.section]|
    requires c.code[st.section][st.pc] == RJUMP || c.code[st.section][st.pc] == RJUMPI
    ensures
      var code := c.code[st.section];
      var r := if code[st.pc] == RJUMP then RJump(code, st) else RJumpI(code, st);
      !r.Faulted? && (r.Running? ==> Inv(c, hs, r.next))
  {
    var code := c.code[st.section];
    var op, h := code[st.pc], |st.stack| - st.frames[|st.frames| - 1].stackHeight;
    var next := Next(code, c.types, st.section, Config(st.pc, h));
    assert next[0] == next[0] && next[|next| - 1] == next[|next| - 1];
    var r := if op == RJUMP then RJump(code, st) else RJumpI(code, st);
    MoveKeepsInv(c, hs, st, r.next);
  }

  lemma TableSound(c: Container, hs: Heights, st: State)
    requires OnGoodGround(c, hs, st)
    requires 0 <= st.pc < |c.code[st.section]| && c.code[st.section][st.pc] == RJUMPV
    ensures
      var r := RJumpV(c.code[st.section], st);
      !r.Faulted? && (r.Running? ==> Inv(c, hs, r.next))
  {
    var code := c.code[st.section];
    var h := |st.stack| - st.frames[|st.frames| - 1].stackHeight;
    var next := Next(code, c.types, st.section, Config(st.pc, h));
    assert next[|next| - 1] == Config(st.pc + 2 + 2 * ByteAt(code, st.pc + 1), h - 1);
    MoveKeepsInv(c, hs, st, RJumpV(code, st).next);
  }

  lemma CallSound(c: Container, hs: Heights, st: State)
    requires OnGoodGround(c, hs, st)
    requires 0 <= st.pc < |c.code[st.section]| && c.code[st.section][st.pc] == CALLF
    ensures
      var r := CallF(c.code[st.section], c.types, st);
      !r.Faulted? && (r.Running? ==> Inv(c, hs, r.next))
  {
    var code := c.code[st.section];
    var base := st.frames[|st.frames| - 1].stackHeight;
    var h := |st.stack| - base;
    var idx := U16At(code, st.pc + 1);
    var d := Config(st.pc + 3, h - c.types[idx].input + c.types[idx].output);
    var next := Next(code, c.types, st.section, Config(st.pc, h));
    assert next == [d] && next[0] == d;
    var r := CallF(code, c.types, st);
    if r.Running? {
      forall k | 0 < k < |r.next.frames| ensures FrameOk(c, hs, r.next, k) {
        if k < |st.frames| {
          assert FrameOk(c, hs, st, k);
        }
      }
    }
  }

  lemma ReturnSound(c: Container, hs: Heights, st: State)
    requires OnGoodGround(c, hs, st)
    requires 0 <= st.pc < |c.code[st.section]| && c.code[st.section][st.pc] == RETF
    ensures
      var r := RetF(st);
      !r.Faulted? && (r.Running? ==> Inv(c, hs, r.next))
  {
    var n := |st.frames|;
    var h := |st.stack| - st.frames[n - 1].stackHeight;
    if n > 1 {
      assert FrameOk(c, hs, st, n - 1);
      var next := RetF(st).next;
      forall k | 0 < k < |next.frames| ensures FrameOk(c, hs, next, k) {
        assert FrameOk(c, hs, st, k);
      }
    }
  }

  /** The validator is sound: one step of a machine that satisfies the invariant never
      faults and keeps the invariant. */
  lemma StepSound(c: Container, hs: Heights, st: State, input: Input)
    requires OnGoodGround(c, hs, st)
    ensures !MachineStep(c, st, input).Faulted?
    ensures MachineStep(c, st, input).Running? ==> Inv(c, hs, MachineStep(c, st, input).next)
  {
    var h := |st.stack| - st.frames[|st.frames| - 1].stackHeight;
    var op := c.code[st.section][st.pc];
    if op == STOP || op in DEPRECATED || op == INVALID || op == RETURN || op == REVERT {
    } else if op == RJUMP || op == RJUMPI {
      JumpSound(c, hs, st);
    } else if op == RJUMPV {
      TableSound(c, hs, st);
    } else if op == CALLF {
      CallSound(c, hs, st);
    } else if op == RETF {
      ReturnSound(c, hs, st);
    } else if IsPush(op) {
      PushSound(c, hs, st);
    } else {
      PlainSound(c, hs, st, input);
    }
  }

  // ---- Whole runs ------------------------------------------------------------------------------------

  function Run(c: Container, st: State, inputs: seq<Input>): Outcome
    decreases |inputs|
  {
    if inputs == [] then Running(st)
    else
      var r := MachineStep(c, st, inputs[0]);
      if r.Running? then Run(c, r.next, inputs[1..]) else r
  }

  lemma RunFrom(c: Container, st: State, inputs: seq<Input>, i: nat)
    requires i < |inputs|
    ensures Run(c, st, inputs[i..]) ==
            var r := MachineStep(c, st, inputs[i]);
            if r.Running? then Run(c, r.next, inputs[i + 1..]) else r
  {
    assert inputs[i..][0] == inputs[i] && inputs[i..][1..] == inputs[i + 1..];
  }

  lemma {:induction false} RunKeepsInv(c: Container, hs: Heights, st: State, inputs: seq<Input>)
    requires Trusted(c, hs) && Inv(c, hs, st)
    ensures !Run(c, st, inputs).Faulted?
    ensures Run(c, st, inputs).Running? ==> Inv(c, hs, Run(c, st, inputs).next)
    decreases |inputs|
  {
    if inputs != [] {
      assert OnGoodGround(c, hs, st);
      StepSound(c, hs, st, inputs[0]);
      var r := MachineStep(c, st, inputs[0]);
      if r.Running? {
        RunKeepsInv(c, hs, r.next, inputs[1..]);
      }
    }
  }

  /** `section` exists and `pc` is where one of its instructions starts. */
  ghost predicate OnInstruction(c: Container, section: nat, pc: int) {
    section < |c.code| && pc >= 0 && IsStart(c.code[section], pc)
  }

  lemma TrustedNeverFaults(c: Container, hs: Heights, inputs: seq<Input>)
    requires Trusted(c, hs) && Inv(c, hs, Initial())
    ensures
      var r := Run(c, Initial(), inputs);
      !r.Faulted? && (r.Running? ==> OnInstruction(c, r.next.section, r.next.pc))
  {
    RunKeepsInv(c, hs, Initial(), inputs);
    var r := Run(c, Initial(), inputs);
    if r.Running? {
      InvOnInstruction(c, hs, r.next);
    }
  }

  lemma InvOnInstruction(c: Container, hs: Heights, st: State)
    requires Trusted(c, hs) && Inv(c, hs, st)
    ensures OnInstruction(c, st.section, st.pc)
  {
    assert PositionOk(c, hs, st.section, st.pc, |st.stack| - st.frames[|st.frames| - 1].stackHeight);
  }

  /** The interpreter reads the jump tables of the container as it must. */
  ghost predicate TablesReadWell(c: Container) {
    && (forall s :: 0 <= s < |c.code| ==> HarmlessTables(c.code[s]))
    && forall hs :: Certified(c, hs) ==> TablesRead(c, hs)
  }

  lemma ContainerNeverFaults(c: Container, inputs: seq<Input>)
    requires WellFormed(c) && ContainerValid(c) && TablesReadWell(c)
    ensures
      var r := Run(c, Initial(), inputs);
      !r.Faulted? && (r.Running? ==> OnInstruction(c, r.next.section, r.next.pc))
  {
    var hs := ValidIsCertified(c);
    InvInitial(c, hs);
    CertifiedIsTrusted(c, hs);
    TrustedNeverFaults(c, hs, inputs);
  }

  /** Soundness of deployment-time validation, over every run of every accepted byte string whose jump
      tables are read well: no fault is reachable, and as long as the machine runs it stands on an
      instruction start inside an existing section. */
  lemma ValidatedCodeNeverFaults(bytes: seq<Byte>, c: Container, inputs: seq<Input>)
    requires Unmarshal(bytes) == Ok(c) && ContainerValid(c) && TablesReadWell(c)
    ensures
      var r := Run(c, Initial(), inputs);
      !r.Faulted? && (r.Running? ==> OnInstruction(c, r.next.section, r.next.pc))
  {
    assert WellFormed(c) by {
      MarshalUnmarshal(bytes);
    }
    ContainerNeverFaults(c, inputs);
  }

  /** That is so for all code without jump tables. */
  lemma TableFreeReadsWell(c: Container)
    requires forall s :: 0 <= s < |c.code| ==> JumpTableFree(c.code[s])
    ensures TablesReadWell(c)
  {
    forall hs, s: nat, pc: int, height: int | Certified(c, hs) && Recorded(hs, s, pc, height)
      ensures !AtTable(c, s, pc)
    {
      RecordedStart(c, hs, s, pc, height);
    }
  }

  // ---- The exact condition ---------------------------------------------------------------------------

  /** From every state of the invariant, whatever a step's inputs are, it does not fault and keeps the
      invariant. */
  ghost predicate HeightsHold(c: Container, hs: Heights) {
    forall st, input :: Inv(c, hs, st) ==> StepHolds(c, hs, MachineStep(c, st, input))
  }

  ghost predicate StepHolds(c: Container, hs: Heights, r: Outcome) {
    !r.Faulted? && (r.Running? ==> Inv(c, hs, r.next))
  }

  /** A state of the outermost function at a recorded position, with `idx` on top of its stack. */
  function Standing(s: nat, pc: int, height: nat, idx: Word): State
    requires height > 0
  {
    State(s, pc, seq(height - 1, _ => 0) + [idx], [ReturnContext(0, 0, 0)])
  }

  lemma StandingStep(c: Container, hs: Heights, s: nat, pc: int, height: nat, idx: nat, input: Input)
    requires height > 0 && Recorded(hs, s, pc, height) && AtTable(c, s, pc) && idx <= ByteAt(c.code[s], pc + 1)
    ensures Inv(c, hs, Standing(s, pc, height, idx))
    ensures MachineStep(c, Standing(s, pc, height, idx), input).Running?
    ensures
      var next := MachineStep(c, Standing(s, pc, height, idx), input).next;
      && next.section == s && next.pc == ReadTarget(c.code[s], pc, idx)
      && |next.stack| == height - 1 && next.frames == [ReturnContext(0, 0, 0)]
  {
    var st := Standing(s, pc, height, idx);
    assert MachineStep(c, st, input) == RJumpV(c.code[s], st);
  }

  lemma TableMustBeRead(c: Container, hs: Heights, s: nat, pc: int, height: int)
    requires Certified(c, hs) && HeightsHold(c, hs) && Recorded(hs, s, pc, height) && AtTable(c, s, pc)
    ensures TableRead(c, hs, s, pc, height)
  {
    TableHasIndex(c, hs, s, pc, height);
    forall idx: nat | idx <= ByteAt(c.code[s], pc + 1)
      ensures Recorded(hs, s, ReadTarget(c.code[s], pc, idx), height - 1)
    {
      EntryMustBeRead(c, hs, s, pc, height, idx);
    }
  }

  lemma TableHasIndex(c: Container, hs: Heights, s: nat, pc: int, height: int)
    requires Certified(c, hs) && Recorded(hs, s, pc, height) && AtTable(c, s, pc)
    ensures height > 0
  {
    RecordedStart(c, hs, s, pc, height);
    TakesIndex(c.code[s], c.types, s, Config(pc, height));
  }

  lemma TakesIndex(code: seq<Byte>, types: Types, s: nat, c: Config)
    requires s < |types| && Inside(code, c) && code[c.pos] == RJUMPV && LocalOk(code, types, s, c)
    ensures c.height > 0
  {
  }

  lemma EntryMustBeRead(c: Container, hs: Heights, s: nat, pc: int, height: nat, idx: nat)
    requires HeightsHold(c, hs) && height > 0 && Recorded(hs, s, pc, height) && AtTable(c, s, pc)
    requires idx <= ByteAt(c.code[s], pc + 1)
    ensures Recorded(hs, s, ReadTarget(c.code[s], pc, idx), height - 1)
  {
    var input := Input(false, _ => 0);
    StandingStep(c, hs, s, pc, height, idx, input);
    assert StepHolds(c, hs, MachineStep(c, Standing(s, pc, height, idx), input));
  }

  /** The heights the validator computed are what the machine keeps exactly when every entry that the
      interpreter may read of a reached jump table leads to a position recorded with the height it is
      entered at. */
  lemma HeightsHoldIff(c: Container, hs: Heights)
    requires Certified(c, hs)
    ensures HeightsHold(c, hs) <==> TablesRead(c, hs)
  {
    if HeightsHold(c, hs) {
      forall s: nat, pc: int, height: int | Recorded(hs, s, pc, height) && AtTable(c, s, pc)
        ensures TableRead(c, hs, s, pc, height)
      {
        TableMustBeRead(c, hs, s, pc, height);
      }
    }
    if TablesRead(c, hs) {
      CertifiedIsTrusted(c, hs);
      forall st, input | Inv(c, hs, st) ensures StepHolds(c, hs, MachineStep(c, st, input)) {
        StepSound(c, hs, st, input);
      }
    }
  }

  // ---- The interpreter, updating its fields in place -----------------------------------------------

  class Interpreter {
    var section: nat
    var pc: int
    var stack: seq<Word>
    var frames: seq<ReturnContext>

    function Current(): State
      reads this
    {
      State(section, pc, stack, frames)
    }

    constructor ()
      ensures Current() == Initial()
    {
      section, pc, stack, frames := 0, 0, [], [ReturnContext(0, 0, 0)];
    }

    /** `opcode_callf`; `None` means that the machine goes on. */
    method OpcodeCallF(code: seq<Byte>, types: Types) returns (r: Option<Outcome>)
      requires 0 <= pc
      modifies this
      ensures CallF(code, types, old(Current())) == if r.None? then Running(Current()) else r.value
      ensures r.Some? ==> !r.value.Running?
    {
      var idx := U16At(code, pc + 1);
      if idx >= |types| {
        return Some(Faulted(IndexPanic));
      }
      if |stack| + types[idx].maxStackHeight >= 1024 {
        return Some(Exited(Overflow));
      }
      if |stack| < types[idx].input {
        return Some(Faulted(Underflow));
      }
      frames := frames + [ReturnContext(section, pc + 3, |stack| - types[idx].input)];
      section, pc := idx, 0;
      r := None;
    }

    /** `opcode_retf`. */
    method OpcodeRetF() returns (r: Option<Outcome>)
      modifies this
      ensures RetF(old(Current())) == if r.None? then Running(Current()) else r.value
      ensures r.Some? ==> !r.value.Running?
    {
      if frames == [] {
        return Some(Faulted(EmptyReturnStack));
      }
      var context := frames[|frames| - 1];
      frames := frames[..|frames| - 1];
      if frames == [] {
        return Some(Exited(Stopped));
      }
      section, pc := context.section, context.pc;
      r := None;
    }

    /** `opcode_rjumpi`. */
    method OpcodeRJumpI(code: seq<Byte>) returns (r: Option<Outcome>)
      requires 0 <= pc
      modifies this
      ensures RJumpI(code, old(Current())) == if r.None? then Running(Current()) else r.value
      ensures r.Some? ==> !r.value.Running?
    {
      if stack == [] {
        return Some(Faulted(Underflow));
      }
      var condition := stack[|stack| - 1];
      stack := stack[..|stack| - 1];
      pc := if condition == 0 then pc + 3 else pc + 3 + I16At(code, pc + 1);
      r := None;
    }

    /** `opcode_rjump`. */
    method OpcodeRJump(code: seq<Byte>)
      requires 0 <= pc
      modifies this
      ensures RJump(code, old(Current())) == Running(Current())
    {
      pc := pc + 3 + I16At(code, pc + 1);
    }

    /** `opcode_rjumpv`. */
    method OpcodeRJumpV(code: seq<Byte>) returns (r: Option<Outcome>)
      requires 0 <= pc
      modifies this
      ensures RJumpV(code, old(Current())) == if r.None? then Running(Current()) else r.value
      ensures r.Some? ==> !r.value.Running?
    {
      if stack == [] {
        return Some(Faulted(Underflow));
      }
      var idx := stack[|stack| - 1];
      stack := stack[..|stack| - 1];
      var count: nat := ByteAt(code, pc + 1);
      var offset := if idx > count then 0 else I16At(code, pc + 3 + 2 * idx);
      pc := pc + 2 + count * 2 + offset;
      r := None;
    }

    method PushWord(word: Word, target: int) returns (r: Option<Outcome>)
      modifies this
      ensures Push(old(Current()), old(stack), word, target) == if r.None? then Running(Current()) else r.value
      ensures r.Some? ==> !r.value.Running?
    {
      if |stack| == STACK_CAPACITY {
        return Some(Exited(Overflow));
      }
      stack, pc := stack + [word], target;
      r := None;
    }

    /** `opcode_push_1` to `opcode_push_32`. */
    method OpcodePush(code: seq<Byte>, op: Byte) returns (r: Option<Outcome>)
      requires 0 <= pc && IsPush(op)
      modifies this
      ensures PushN(code, op, old(Current())) == if r.None? then Running(Current()) else r.value
      ensures r.Some? ==> !r.value.Running?
    {
      var n := op - PUSH0;
      // PUSH1 compares against the position of its byte, the others against the one behind.
      if |code| <= pc + (if n == 1 then 1 else 1 + n) {
        return Some(Faulted(PushOutOfBounds));
      }
      r := PushWord(ImmediateWord(code, pc + 1, n), pc + 1 + n);
    }

    /** A plain handler: it looks at its operands, pops, and pushes. */
    method OpcodePlain(op: Byte, input: Input) returns (r: Option<Outcome>)
      modifies this
      ensures PlainStep(op, old(Current()), input) == if r.None? then Running(Current()) else r.value
      ensures r.Some? ==> !r.value.Running?
    {
      var n := |stack|;
      var handler := HandlerOf(op);
      if handler.None? {
        return Some(Faulted(UnknownOpcode));
      }
      var h := handler.value;
      if n < h.depth {
        return Some(Faulted(Underflow));
      }
      if input.fails {
        return Some(Exited(HandlerFailed));
      }
      if IsDup(op) {
        r := PushWord(stack[n - h.depth], pc + 1);
      } else if IsSwap(op) {
        stack := stack[n - h.depth := stack[n - 1]][n - 1 := stack[n - h.depth]];
        pc := pc + 1;
        r := None;
      } else if op == PUSH0 {
        r := PushWord(0, pc + 1);
      } else {
        r := PopAndPush(h, input);
      }
    }

    method PopAndPush(h: Handler, input: Input) returns (r: Option<Outcome>)
      modifies this
      ensures
        var st := old(Current());
        var after :=
          if |st.stack| < h.pops then Faulted(Underflow)
          else if h.pushes == 0 then Running(st.(stack := st.stack[..|st.stack| - h.pops], pc := st.pc + 1))
          else Push(st, st.stack[..|st.stack| - h.pops], input.produced(0), st.pc + 1);
        after == if r.None? then Running(Current()) else r.value
      ensures r.Some? ==> !r.value.Running?
    {
      if |stack| < h.pops {
        return Some(Faulted(Underflow));
      }
      stack := stack[..|stack| - h.pops];
      if h.pushes > 0 {
        r := PushWord(input.produced(0), pc + 1);
      } else {
        pc := pc + 1;
        r := None;
      }
    }

    /** RETURN and REVERT. */
    method OpcodeHalt(op: Byte, input: Input) returns (r: Outcome)
      requires op == RETURN || op == REVERT
      ensures r == if |stack| < 2 then Faulted(Underflow) else if input.fails then Exited(HandlerFailed)
                   else Exited(if op == RETURN then Returned else Reverted)
    {
      if |stack| < 2 {
        return Faulted(Underflow);
      }
      if input.fails {
        return Exited(HandlerFailed);
      }
      r := Exited(if op == RETURN then Returned else Reverted);
    }

    /** `execute_eof_opcode`. */
    method ExecuteOpcode(c: Container, input: Input) returns (r: Option<Outcome>)
      modifies this
      ensures MachineStep(c, old(Current()), input) == if r.None? then Running(Current()) else r.value
      ensures r.Some? ==> !r.value.Running?
    {
      if section >= |c.code| || pc < 0 {
        return Some(Faulted(IndexPanic));
      }
      var code := c.code[section];
      var op := ByteAt(code, pc);
      if op == STOP {
        return Some(Exited(Stopped));
      } else if op in DEPRECATED {
        return Some(Exited(DeprecatedOpcode));
      } else if op == INVALID {
        return Some(Exited(InvalidOpcode));
      } else if op == RETURN || op == REVERT {
        var halted := OpcodeHalt(op, input);
        return Some(halted);
      }
      r := None;
      if op == RJUMP {
        OpcodeRJump(code);
      } else if op == RJUMPI {
        r := OpcodeRJumpI(code);
      } else if op == RJUMPV {
        r := OpcodeRJumpV(code);
      } else if op == CALLF {
        r := OpcodeCallF(code, c.types);
      } else if op == RETF {
        r := OpcodeRetF();
      } else if IsPush(op) {
        r := OpcodePush(code, op);
      } else {
        r := OpcodePlain(op, input);
      }
    }

    /** The interpreter loop of `execute` over the given step inputs. */
    method Execute(c: Container, inputs: seq<Input>) returns (r: Option<Outcome>)
      modifies this
      ensures Run(c, old(Current()), inputs) == if r.None? then Running(Current()) else r.value
    {
      var i := 0;
      r := None;
      assert inputs[0..] == inputs;
      while i < |inputs|
        invariant 0 <= i <= |inputs| && r.None?
        invariant Run(c, old(Current()), inputs) == Run(c, Current(), inputs[i..])
      {
        RunFrom(c, Current(), inputs, i);
        r := ExecuteOpcode(c, inputs[i]);
        if r.Some? {
          return;
        }
        i := i + 1;
      }
      assert inputs[|inputs|..] == [];
    }
  }
}
