/** What one step of the EOF dispatch does, read off the bytes of the code: where jumps lead, which words are
    pushed, copied and exchanged, and where functions return to. */
module EofSteps {
  import opened Opcodes
  import opened EofContainer
  import opened EofFlow
  import EofValidator
  import opened EofMachine
  import opened WordBytes

  // ---- Positions and immediates ----------------------------------------------------------------

  /** The machine stands on `op`. */
  predicate At(c: Container, st: State, op: Byte) {
    st.section < |c.code| && 0 <= st.pc < |c.code[st.section]| && c.code[st.section][st.pc] == op
  }

  /** Two bytes as a signed number, the high byte first. */
  function Signed(high: Byte, low: Byte): int {
    if high < 0x80 then high * 256 + low else high * 256 + low - 0x1_0000
  }

  /** The offset at a position, or none behind the end of the code. */
  function OffsetAt(code: seq<Byte>, i: nat): int {
    if i + 1 < |code| then Signed(code[i], code[i + 1]) else 0
  }

  lemma OffsetIsRead(code: seq<Byte>, i: nat)
    ensures I16At(code, i) == OffsetAt(code, i)
  {
  }

  // ---- Jumps -----------------------------------------------------------------------------------

  /** RJUMP goes on behind its immediate, plus the offset in it. */
  lemma JumpMoves(c: Container, st: State, input: Input)
    requires At(c, st, 0x5C)
    ensures MachineStep(c, st, input) == Running(st.(pc := st.pc + 3 + OffsetAt(c.code[st.section], st.pc + 1)))
  {
    OffsetIsRead(c.code[st.section], st.pc + 1);
  }

  /** RJUMPI takes the condition from the top: it goes on behind its immediate when that is zero, and adds
      the offset when it is not. */
  lemma JumpIMoves(c: Container, st: State, input: Input, base: seq<Word>, condition: Word)
    requires At(c, st, 0x5D) && st.stack == base + [condition]
    ensures
      var behind := st.pc + 3;
      MachineStep(c, st, input) ==
      Running(st.(stack := base,
                  pc := if condition == 0 then behind else behind + OffsetAt(c.code[st.section], st.pc + 1)))
  {
    OffsetIsRead(c.code[st.section], st.pc + 1);
    assert st.stack[..|st.stack| - 1] == base;
  }

  /** RJUMPV takes the index from the top: beyond the count it goes on behind the table, otherwise it adds
      the offset that starts one byte behind the entry. */
  lemma JumpVMoves(c: Container, st: State, input: Input, base: seq<Word>, index: Word)
    requires At(c, st, 0x5E) && st.stack == base + [index]
    ensures
      var code := c.code[st.section];
      var count: nat := if st.pc + 1 < |code| then code[st.pc + 1] else 0;
      var behind := st.pc + 2 + 2 * count;
      MachineStep(c, st, input) ==
      Running(st.(stack := base,
                  pc := if index > count then behind else behind + OffsetAt(code, st.pc + 3 + 2 * index)))
  {
    OffsetIsRead(c.code[st.section], st.pc + 3 + 2 * index);
    assert st.stack[..|st.stack| - 1] == base;
  }

  /** Without a word on the stack, the conditional ones fault. */
  lemma JumpsNeedOperand(c: Container, st: State, input: Input)
    requires At(c, st, 0x5D) || At(c, st, 0x5E)
    requires st.stack == []
    ensures MachineStep(c, st, input) == Faulted(Underflow)
  {
  }

  // ---- Pushes, copies and exchanges ------------------------------------------------------------

  lemma {:induction false} ImmediateBytes(code: seq<Byte>, pos: nat, n: nat)
    requires pos + n <= |code|
    ensures ImmediateWord(code, pos, n) == FromBigEndian(code[pos..pos + n])
  {
    if n > 0 {
      ImmediateBytes(code, pos, n - 1);
      assert code[pos..pos + n][..n - 1] == code[pos..pos + n - 1];
    }
  }

  /** PUSHn puts its `n` immediate bytes on the stack, the first of them the highest, and goes on behind
      them. The longer ones have to be followed by a byte. */
  lemma PushPushes(c: Container, st: State, input: Input, n: nat)
    requires 1 <= n <= 32 && At(c, st, 0x5F + n)
    ensures
      var code := c.code[st.section];
      MachineStep(c, st, input) ==
      if st.pc + n >= |code| || (n > 1 && st.pc + 1 + n == |code|) then Faulted(PushOutOfBounds)
      else if |st.stack| == 127 then Exited(Overflow)
      else Running(st.(stack := st.stack + [FromBigEndian(code[st.pc + 1..st.pc + 1 + n])], pc := st.pc + 1 + n))
  {
    if st.pc + n < |c.code[st.section]| {
      ImmediateBytes(c.code[st.section], st.pc + 1, n);
    }
  }

  lemma PushZero(c: Container, st: State, input: Input)
    requires At(c, st, 0x5F) && !input.fails && |st.stack| < 127
    ensures MachineStep(c, st, input) == Running(st.(stack := st.stack + [0], pc := st.pc + 1))
  {
  }

  /** DUPn copies the `n`th word from the top. */
  lemma DupCopies(c: Container, st: State, input: Input, n: nat, base: seq<Word>, x: Word, above: seq<Word>)
    requires 1 <= n <= 16 && At(c, st, 0x7F + n) && !input.fails && |st.stack| < 127
    requires st.stack == base + [x] + above && |above| == n - 1
    ensures MachineStep(c, st, input) == Running(st.(stack := st.stack + [x], pc := st.pc + 1))
  {
  }

  /** SWAPn exchanges the top word with the one `n` below it, and leaves those between. */
  lemma SwapExchanges(c: Container, st: State, input: Input, n: nat, base: seq<Word>, x: Word, between: seq<Word>,
                      y: Word)
    requires 1 <= n <= 16 && At(c, st, 0x8F + n) && !input.fails
    requires st.stack == base + [x] + between + [y] && |between| == n - 1
    ensures MachineStep(c, st, input) == Running(st.(stack := base + [y] + between + [x], pc := st.pc + 1))
  {
    var k := |st.stack|;
    assert st.stack[k - 1] == y && st.stack[k - n - 1] == x;
    assert st.stack[k - n - 1 := y][k - 1 := x] == base + [y] + between + [x];
  }

  /** They fault when the stack does not reach that far down. */
  lemma TooFewWords(c: Container, st: State, input: Input, n: nat)
    requires 1 <= n <= 16
    ensures At(c, st, 0x7F + n) && |st.stack| < n ==> MachineStep(c, st, input) == Faulted(Underflow)
    ensures At(c, st, 0x8F + n) && |st.stack| < n + 1 ==> MachineStep(c, st, input) == Faulted(Underflow)
  {
  }

  // ---- Functions -------------------------------------------------------------------------------

  /** CALLF enters the section its immediate names at its start, with the stack as it is, and records
      where to return to; it stops when the function could need a stack of 1024 words. */
  lemma CallEntersFunction(c: Container, st: State, input: Input, high: Byte, low: Byte)
    requires At(c, st, 0xB0) && st.pc + 2 < |c.code[st.section]|
    requires c.code[st.section][st.pc + 1] == high && c.code[st.section][st.pc + 2] == low
    ensures
      var section: nat := high * 256 + low;
      if section >= |c.types| then MachineStep(c, st, input) == Faulted(IndexPanic)
      else if |st.stack| + c.types[section].maxStackHeight >= 1024 then MachineStep(c, st, input) == Exited(Overflow)
      else if |st.stack| < c.types[section].input then MachineStep(c, st, input) == Faulted(Underflow)
      else
        var context := ReturnContext(st.section, st.pc + 3, |st.stack| - c.types[section].input);
        MachineStep(c, st, input) == Running(State(section, 0, st.stack, st.frames + [context]))
  {
  }

  /** RETF in the called function goes back behind the CALLF, with the stack the function left. */
  lemma FunctionReturns(c: Container, st: State, input: Input, t: State, last: Input)
    requires At(c, st, 0xB0) && MachineStep(c, st, input).Running? && st.frames != []
    requires At(c, t, 0xB1) && t.frames == MachineStep(c, st, input).next.frames
    ensures MachineStep(c, t, last) == Running(State(st.section, st.pc + 3, t.stack, st.frames))
  {
  }

  /** RETF in the outermost function stops. */
  lemma OutermostStops(c: Container, st: State, input: Input)
    requires At(c, st, 0xB1) && |st.frames| == 1
    ensures MachineStep(c, st, input) == Exited(Stopped)
  {
  }

  // ---- Ends ------------------------------------------------------------------------------------

  /** The code ends with STOP, also behind its last byte. */
  lemma CodeEnds(c: Container, st: State, input: Input)
    requires st.section < |c.code| && st.pc >= |c.code[st.section]|
    ensures MachineStep(c, st, input) == Exited(Stopped)
  {
  }

  lemma HaltsMean(c: Container, st: State, input: Input)
    ensures At(c, st, 0x00) ==> MachineStep(c, st, input) == Exited(Stopped)
    ensures At(c, st, 0xFE) ==> MachineStep(c, st, input) == Exited(InvalidOpcode)
    ensures At(c, st, 0xF3) && |st.stack| >= 2 && !input.fails ==> MachineStep(c, st, input) == Exited(Returned)
    ensures At(c, st, 0xFD) && |st.stack| >= 2 && !input.fails ==> MachineStep(c, st, input) == Exited(Reverted)
  {
  }

  // ---- What the validator makes of it ------------------------------------------------------------

  /** On a plain opcode the local checks refuse exactly what the dispatch does not know, what lacks operands,
      and what would leave more than 1024 words. */
  lemma PlainRefusedIff(code: seq<Byte>, types: Types, section: nat, c: Config)
    requires Inside(code, c) && section < |types|
    requires !IsControl(code[c.pos]) && code[c.pos] !in EofValidator.DEPRECATED
    ensures
      var handler := HandlerOf(code[c.pos]);
      LocalOk(code, types, section, c) <==>
      && handler.Some? && c.height >= handler.value.depth
      && c.height - handler.value.pops + handler.value.pushes <= 1024
  {
    var op := code[c.pos];
    HandlersAreInTable(op);
    if Info(op).Some? {
      TableMatchesHandlers(op, c.height);
    }
  }

  /** What the dispatch faults on, opcode by opcode, for the same plain opcodes. */
  lemma PlainFaultsIff(c: Container, st: State, input: Input, op: Byte)
    requires At(c, st, op) && !IsControl(op) && op !in EofValidator.DEPRECATED
    ensures MachineStep(c, st, input).Faulted? <==> HandlerOf(op).None? || |st.stack| < HandlerOf(op).value.depth
  {
  }

  /** The local checks on the opcodes that change the flow: operands, the limit of 1024 words, the function
      called, and the outputs declared. */
  lemma ControlRefusedIff(code: seq<Byte>, types: Types, section: nat, c: Config)
    requires Inside(code, c) && section < |types|
    ensures
      var op, h := code[c.pos], c.height;
      && (op == 0x00 || op == 0x5C || op == 0xFE ==> (LocalOk(code, types, section, c) <==> h <= 1024))
      && (op == 0x5D || op == 0x5E ==> (LocalOk(code, types, section, c) <==> 1 <= h <= 1025))
      && (op == 0xF3 || op == 0xFD ==> (LocalOk(code, types, section, c) <==> 2 <= h <= 1026))
      && (0x60 <= op <= 0x7F ==> (LocalOk(code, types, section, c) <==> h + 1 <= 1024))
      && (op == 0xB1 ==> (LocalOk(code, types, section, c) <==> h == types[section].output && h <= 1024))
  {
  }

  /** CALLF needs a function there is, its inputs, and room for its outputs on top of them. */
  lemma CallRefusedIff(code: seq<Byte>, types: Types, section: nat, c: Config, high: Byte, low: Byte)
    requires Inside(code, c) && section < |types| && code[c.pos] == 0xB0 && c.pos + 2 < |code|
    requires code[c.pos + 1] == high && code[c.pos + 2] == low
    ensures
      var arg := high as int * 256 + low;
      LocalOk(code, types, section, c) <==>
      arg < |types| && types[arg].input <= c.height && types[arg].output + c.height <= 1024
  {
  }

  /** Where the validator follows a jump, a push, a call or a plain opcode, and with how many words. */
  lemma FollowedTo(code: seq<Byte>, types: Types, section: nat, c: Config)
    requires Inside(code, c) && section < |types| && LocalOk(code, types, section, c)
    ensures
      var op, h, next := code[c.pos], c.height, EofFlow.Next(code, types, section, c);
      var jump := c.pos + 3 + OffsetAt(code, c.pos + 1);
      && (op == 0x5C ==> next == [Config(jump, h)])
      && (op == 0x5D ==> next == [Config(jump, h - 1), Config(c.pos + 3, h - 1)])
      && (0x60 <= op <= 0x7F ==> next == [Config(c.pos + 1 + (op - 0x5F), h + 1)])
      && (op in {0x00, 0xB1, 0xF3, 0xFD, 0xFE} ==> next == [])
  {
    OffsetIsRead(code, c.pos + 1);
  }

  lemma FollowedBehind(code: seq<Byte>, types: Types, section: nat, c: Config)
    requires Inside(code, c) && section < |types| && LocalOk(code, types, section, c)
    requires !IsControl(code[c.pos]) && code[c.pos] !in EofValidator.DEPRECATED
    ensures
      var handler := HandlerOf(code[c.pos]);
      && handler.Some?
      && EofFlow.Next(code, types, section, c) ==
         [Config(c.pos + 1, c.height - handler.value.pops + handler.value.pushes)]
  {
    HandlersAreInTable(code[c.pos]);
    TableMatchesHandlers(code[c.pos], c.height);
  }

  lemma {:induction false} TargetAt(code: seq<Byte>, pos: nat, count: nat, from: nat, height: nat, i: nat)
    requires from + i < count
    ensures Targets(code, pos, count, from, height)[i] ==
            Config(pos + 2 + 2 * count + OffsetAt(code, pos + 2 + 2 * (from + i)), height)
    decreases i
  {
    OffsetIsRead(code, pos + 2 + 2 * from);
    if i > 0 {
      TargetAt(code, pos, count, from + 1, height, i - 1);
    }
  }

  /** The validator follows every entry of a jump table, each starting right behind the one before, and the
      code behind the table. */
  lemma TableFollowed(code: seq<Byte>, types: Types, section: nat, c: Config, i: nat)
    requires Inside(code, c) && section < |types| && LocalOk(code, types, section, c)
    requires code[c.pos] == 0x5E && c.pos + 1 < |code| && i < code[c.pos + 1]
    ensures
      var n, next := code[c.pos + 1], EofFlow.Next(code, types, section, c);
      var behind := c.pos + 2 + 2 * n as int;
      && |next| == n as int + 1 && next[n] == Config(behind, c.height - 1)
      && next[i] == Config(behind + OffsetAt(code, c.pos + 2 + 2 * i), c.height - 1)
  {
    TargetAt(code, c.pos, code[c.pos + 1], 0, c.height - 1, i);
  }
}
