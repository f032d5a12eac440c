/** What the frame opcodes mean, with their operands written out as the words on the stack, the last one
    on top: which frame a call or creation enters, what it leaves waiting, and what comes back. */
module FrameOperands {
  import opened Opcodes
  import opened WordArithmetic
  import opened StorageLayout
  import opened Accounts
  import opened Journal
  import opened CallFrames
  import opened EvmMemory

  // ---- Memory ranges ---------------------------------------------------------------------------

  /** The bytes of a range: those of the memory, and zeros where it has not been touched. */
  function BytesAt(m: Mem, offset: nat, length: nat): (r: seq<Byte>)
    requires MemOk(m)
    ensures |r| == length
    ensures forall i :: 0 <= i < length ==> r[i] == if offset + i < m.size then m.data[offset + i] else 0
  {
    if length == 0 then [] else Touched(Used(m), offset, length)[offset..offset + length]
  }

  /** A range can be read or written: it is empty or within reach. */
  predicate InReach(offset: nat, length: nat) {
    length == 0 || Reachable(offset, length)
  }

  /** The memory after the range has been touched; an empty range touches nothing. */
  ghost predicate TouchedBy(m: Mem, offset: nat, length: nat, n: Mem)
    requires MemOk(m)
  {
    MemOk(n) && if length == 0 then n == m else Used(n) == Touched(Used(m), offset, length)
  }

  /** The memory after the range has been filled with the data, and zeros behind it. */
  ghost predicate FilledBy(m: Mem, offset: nat, length: nat, data: seq<Byte>, n: Mem)
    requires MemOk(m)
  {
    && MemOk(n)
    && if length == 0 then n == m
       else Used(n) == Overwritten(Touched(Used(m), offset, length), offset, Padded(data, 0, length))
  }

  lemma ReadGives(f: Frame, offset: nat, length: nat)
    requires MemOk(f.memory)
    ensures
      var r := ReadBuffer(f, offset, length);
      && (r.Got? <==> InReach(offset, length))
      && r.frame == f.(memory := r.frame.memory)
      && (r.Got? ==> r.data == BytesAt(f.memory, offset, length) && TouchedBy(f.memory, offset, length, r.frame.memory))
  {
    if length > 0 {
      ReallocatedMeaning(f.memory, offset, length);
      if Reachable(offset, length) {
        SliceInside(Reallocated(f.memory, offset, length).mem, offset, length);
      }
    }
  }

  lemma SliceInside(m: Mem, offset: nat, length: nat)
    requires MemOk(m) && offset + length <= m.size
    ensures m.data[offset..offset + length] == Used(m)[offset..offset + length]
  {
    SliceOfPrefix(m.data, m.size, offset, offset + length);
  }

  lemma SliceOfPrefix<T>(d: seq<T>, size: nat, i: nat, j: nat)
    requires i <= j <= size <= |d|
    ensures d[i..j] == d[..size][i..j]
  {
    forall k | 0 <= k < j - i ensures d[i..j][k] == d[..size][i..j][k] {
    }
  }

  lemma WriteGives(f: Frame, data: seq<Byte>)
    requires MemOk(f.memory)
    ensures
      var w := WriteRange(f, data);
      && (w.Wrote? <==> InReach(f.returnOffset, f.returnLength))
      && w.frame == f.(memory := w.frame.memory)
      && (w.Wrote? ==> FilledBy(f.memory, f.returnOffset, f.returnLength, data, w.frame.memory))
  {
    if f.returnLength > 0 {
      WriteMeaning(f.memory, f.returnOffset, Padded(data, 0, f.returnLength));
      ReallocatedMeaning(f.memory, f.returnOffset, f.returnLength);
    }
  }

  // ---- Operands of calls -----------------------------------------------------------------------

  /** The ranges a call names: where its arguments are and where its answer goes. */
  datatype Ranges = Ranges(argsOffset: Word, argsLength: Word, answerOffset: Word, answerLength: Word)

  /** Every number fits the machine's width, and the arguments are within reach. */
  predicate Readable(r: Ranges) {
    && r.argsOffset <= USIZE_MAX && r.argsLength <= USIZE_MAX
    && r.answerOffset <= USIZE_MAX && r.answerLength <= USIZE_MAX
    && InReach(r.argsOffset, r.argsLength)
  }

  /** The words of the ranges as they lie on the stack. */
  function Words(r: Ranges): seq<Word> {
    [r.answerLength, r.answerOffset, r.argsLength, r.argsOffset]
  }

  /** The caller while it waits: its operands are gone, its arguments were read, and it keeps the range
      for the answer. */
  ghost predicate Waits(f: Frame, base: seq<Word>, r: Ranges, g: Frame)
    requires MemOk(f.memory)
  {
    && TouchedBy(f.memory, r.argsOffset, r.argsLength, g.memory)
    && g == f.(stack := base, memory := g.memory, returnData := [], returnOffset := r.answerOffset,
               returnLength := if r.answerOffset + r.answerLength <= USIZE_MAX then r.answerLength else 0)
  }

  lemma CallOperands(f: Frame, base: seq<Word>, r: Ranges, value: Word, address: Word, gas: Word)
    requires MemOk(f.memory) && f.stack == base + Words(r) + [value, address, gas]
    ensures
      var p := PrepareCall(f, true);
      && (p.Ready? <==> Readable(r))
      && (p.Ready? ==>
          && p.input.address == address % 0x1_0000_0000_0000_0000_0000_0000_0000_0000_0000_0000
          && p.input.value == value && p.input.data == BytesAt(f.memory, r.argsOffset, r.argsLength)
          && Waits(f, base, r, p.input.frame))
  {
    assert f.stack[..|f.stack| - 7] == base;
    PreparedMeans(f, base, r, 7);
  }

  lemma PlainOperands(f: Frame, base: seq<Word>, r: Ranges, address: Word, gas: Word)
    requires MemOk(f.memory) && f.stack == base + Words(r) + [address, gas]
    ensures
      var p := PrepareCall(f, false);
      && (p.Ready? <==> Readable(r))
      && (p.Ready? ==>
          && p.input.address == address % 0x1_0000_0000_0000_0000_0000_0000_0000_0000_0000_0000
          && p.input.value == 0 && p.input.data == BytesAt(f.memory, r.argsOffset, r.argsLength)
          && Waits(f, base, r, p.input.frame))
  {
    assert f.stack[..|f.stack| - 6] == base;
    PreparedMeans(f, base, r, 6);
  }

  lemma PreparedMeans(f: Frame, base: seq<Word>, r: Ranges, n: nat)
    requires MemOk(f.memory) && |f.stack| == |base| + n && (n == 6 || n == 7) && f.stack[..|base|] == base
    requires Operand(f, n - 4) == r.argsOffset && Operand(f, n - 3) == r.argsLength
    requires Operand(f, n - 2) == r.answerOffset && Operand(f, n - 1) == r.answerLength
    ensures
      var p := PrepareCall(f, n == 7);
      && (p.Ready? <==> Readable(r))
      && (p.Ready? ==>
          && p.input.data == BytesAt(f.memory, r.argsOffset, r.argsLength)
          && Waits(f, base, r, p.input.frame))
  {
    var length := RangeLength(Operand(f, n - 2), Operand(f, n - 1));
    var g := Pop(f, n).(returnData := [], returnOffset := Operand(f, n - 2), returnLength := length);
    ReadGives(g, r.argsOffset, r.argsLength);
  }

  // ---- Calls -----------------------------------------------------------------------------------

  /** The code a call runs, and whether it can be run at all. */
  function CodeFor(b: Backend, m: Machine, a: Address): seq<Byte> {
    CodeOver(Code(b.world, a), m.log, a)
  }

  predicate Affords(b: Backend, m: Machine, value: Word) {
    var balance := BalanceOver(Balance(b.world, m.top.contract), m.log, m.top.contract);
    balance.Ok? && balance.value >= value
  }

  predicate Runs(b: Backend, code: seq<Byte>) {
    HasEofMagic(code) ==> code !in b.unparsable
  }

  /** The machine `n` is in the frame `child`, entered from `m` right after a snapshot, with `actions`
      logged since; the caller waits. */
  ghost predicate EntersFrame(m: Machine, base: seq<Word>, r: Ranges, n: Machine, child: Frame, actions: seq<Action>)
    requires MemOk(m.top.memory)
  {
    && n.top == child && |n.parents| == |m.parents| + 1 && n.parents[..|m.parents|] == m.parents
    && Waits(m.top, base, r, n.parents[|m.parents|])
    && n.marks == m.marks + [|m.log|] && n.log == m.log + actions
  }

  /** A frame at its start. */
  function Child(isStatic: bool, reason: Reason, caller: Address, contract: Address, value: Word, code: seq<Byte>,
                 data: seq<Byte>): Frame
  {
    Frame(isStatic, reason, caller, contract, value, code, data, [], Mem(Zeros(MEMORY_CAPACITY), 0), 0, [], 0, 0)
  }

  function Payment(source: Address, target: Address, value: Word): seq<Action> {
    if value == 0 || source == target then [] else [NeonTransfer(source, target, value)]
  }

  /** What a call does that is not rejected: it enters `child` with `actions` logged. */
  ghost predicate Entered(h: Handled, m: Machine, base: seq<Word>, r: Ranges, child: Frame, actions: seq<Action>)
    requires MemOk(m.top.memory)
  {
    h.Next? && h.flow == Noop && EntersFrame(m, base, r, h.machine, child, actions)
  }

  lemma EnteredAs(m: Machine, base: seq<Word>, r: Ranges, input: CallInput, caller: Address, contract: Address,
                  value: Word, code: seq<Byte>)
    requires MemOk(m.top.memory) && Waits(m.top, base, r, input.frame)
    ensures EntersFrame(m, base, r, Enter(m, input, caller, contract, value, code),
                        Child(m.top.isStatic, ByCall, caller, contract, value, code, input.data), [])
  {
    assert (m.parents + [input.frame])[..|m.parents|] == m.parents && m.log + [] == m.log;
  }

  lemma CallOpEnters(b: Backend, m: Machine, base: seq<Word>, r: Ranges, value: Word, address: Word, gas: Word,
                     callee: Address)
    requires MemOk(m.top.memory) && m.top.stack == base + Words(r) + [value, address, gas]
    requires callee == address % 0x1_0000_0000_0000_0000_0000_0000_0000_0000_0000_0000
    ensures
      var h, code := CallOp(b, m, Ordinary), CodeFor(b, m, callee);
      var data := BytesAt(m.top.memory, r.argsOffset, r.argsLength);
      if Readable(r) && Runs(b, code) && !(m.top.isStatic && value != 0)
         && Affords(b, m, value) then
        Entered(h, m, base, r, Child(m.top.isStatic, ByCall, m.top.contract, callee, value, code, data),
                Payment(m.top.contract, callee, value))
      else h.Raised?
  {
    CallOperands(m.top, base, r, value, address, gas);
    if Readable(r) {
      var input := PrepareCall(m.top, true).input;
      EnteredAs(m, base, r, input, m.top.contract, callee, value, CodeFor(b, m, callee));
    }
  }

  /** CALL takes gas, address and value from the top, then the ranges. It enters the code at the address as
      that address, and the calling contract pays the value; it fails when a number or range is out of
      limits, the code is no container, the call is static and pays, or the caller cannot pay. */
  lemma CallEnters(b: Backend, m: Machine, base: seq<Word>, r: Ranges, value: Word, address: Word, gas: Word,
                   callee: Address)
    requires MemOk(m.top.memory) && m.top.stack == base + Words(r) + [value, address, gas]
    requires callee == address % 0x1_0000_0000_0000_0000_0000_0000_0000_0000_0000_0000
    ensures
      var h, code := Handle(b, m, Call(Ordinary)), CodeFor(b, m, callee);
      var data := BytesAt(m.top.memory, r.argsOffset, r.argsLength);
      if Readable(r) && Runs(b, code) && !(m.top.isStatic && value != 0)
         && Affords(b, m, value) then
        Entered(h, m, base, r, Child(m.top.isStatic, ByCall, m.top.contract, callee, value, code, data),
                Payment(m.top.contract, callee, value))
      else h.Raised?
  {
    CallOpEnters(b, m, base, r, value, address, gas, callee);
  }

  lemma CallCodeOpEnters(b: Backend, m: Machine, base: seq<Word>, r: Ranges, value: Word, address: Word, gas: Word,
                         callee: Address)
    requires MemOk(m.top.memory) && m.top.stack == base + Words(r) + [value, address, gas]
    requires callee == address % 0x1_0000_0000_0000_0000_0000_0000_0000_0000_0000_0000
    ensures
      var h, code := CallCodeOp(b, m, Ordinary), CodeFor(b, m, callee);
      var data := BytesAt(m.top.memory, r.argsOffset, r.argsLength);
      if Readable(r) && Runs(b, code) && Affords(b, m, value) then
        Entered(h, m, base, r, Child(m.top.isStatic, ByCall, m.top.contract, m.top.contract, value, code, data),
                [])
      else h.Raised?
  {
    CallOperands(m.top, base, r, value, address, gas);
    if Readable(r) {
      var input := PrepareCall(m.top, true).input;
      EnteredAs(m, base, r, input, m.top.contract, m.top.contract, value, CodeFor(b, m, callee));
    }
  }

  /** CALLCODE runs the code at the address as the calling contract itself, which must have the value but
      does not move it. */
  lemma CallCodeEnters(b: Backend, m: Machine, base: seq<Word>, r: Ranges, value: Word, address: Word, gas: Word,
                       callee: Address)
    requires MemOk(m.top.memory) && m.top.stack == base + Words(r) + [value, address, gas]
    requires callee == address % 0x1_0000_0000_0000_0000_0000_0000_0000_0000_0000_0000
    ensures
      var h, code := Handle(b, m, CallCode(Ordinary)), CodeFor(b, m, callee);
      var data := BytesAt(m.top.memory, r.argsOffset, r.argsLength);
      if Readable(r) && Runs(b, code) && Affords(b, m, value) then
        Entered(h, m, base, r, Child(m.top.isStatic, ByCall, m.top.contract, m.top.contract, value, code, data),
                [])
      else h.Raised?
  {
    CallCodeOpEnters(b, m, base, r, value, address, gas, callee);
  }

  lemma DelegateCallOpEnters(b: Backend, m: Machine, base: seq<Word>, r: Ranges, address: Word, gas: Word,
                             callee: Address)
    requires MemOk(m.top.memory) && m.top.stack == base + Words(r) + [address, gas]
    requires callee == address % 0x1_0000_0000_0000_0000_0000_0000_0000_0000_0000_0000
    ensures
      var h, code := DelegateCallOp(b, m, Ordinary), CodeFor(b, m, callee);
      var data := BytesAt(m.top.memory, r.argsOffset, r.argsLength);
      if Readable(r) && Runs(b, code) then
        Entered(h, m, base, r, Child(m.top.isStatic, ByCall, m.top.caller, m.top.contract, m.top.value, code, data),
                [])
      else h.Raised?
  {
    PlainOperands(m.top, base, r, address, gas);
    if Readable(r) {
      var input := PrepareCall(m.top, false).input;
      EnteredAs(m, base, r, input, m.top.caller, m.top.contract, m.top.value, CodeFor(b, m, callee));
    }
  }

  /** DELEGATECALL runs it as the calling contract, on behalf of that one's own caller and with its value. */
  lemma DelegateCallEnters(b: Backend, m: Machine, base: seq<Word>, r: Ranges, address: Word, gas: Word,
                           callee: Address)
    requires MemOk(m.top.memory) && m.top.stack == base + Words(r) + [address, gas]
    requires callee == address % 0x1_0000_0000_0000_0000_0000_0000_0000_0000_0000_0000
    ensures
      var h, code := Handle(b, m, DelegateCall(Ordinary)), CodeFor(b, m, callee);
      var data := BytesAt(m.top.memory, r.argsOffset, r.argsLength);
      if Readable(r) && Runs(b, code) then
        Entered(h, m, base, r, Child(m.top.isStatic, ByCall, m.top.caller, m.top.contract, m.top.value, code, data),
                [])
      else h.Raised?
  {
    DelegateCallOpEnters(b, m, base, r, address, gas, callee);
  }

  lemma StaticCallOpEnters(b: Backend, m: Machine, base: seq<Word>, r: Ranges, address: Word, gas: Word,
                           callee: Address)
    requires MemOk(m.top.memory) && m.top.stack == base + Words(r) + [address, gas]
    requires callee == address % 0x1_0000_0000_0000_0000_0000_0000_0000_0000_0000_0000
    ensures
      var h, code := StaticCallOp(b, m, Ordinary), CodeFor(b, m, callee);
      var data := BytesAt(m.top.memory, r.argsOffset, r.argsLength);
      if Readable(r) && Runs(b, code) then
        Entered(h, m, base, r, Child(true, ByCall, m.top.contract, callee, 0, code, data),
                [])
      else h.Raised?
  {
    PlainOperands(m.top, base, r, address, gas);
    if Readable(r) {
      var input := PrepareCall(m.top, false).input;
      EnteredAs(m, base, r, input, m.top.contract, callee, 0, CodeFor(b, m, callee));
    }
  }

  /** STATICCALL runs it as the address, with no value and in static mode. */
  lemma StaticCallEnters(b: Backend, m: Machine, base: seq<Word>, r: Ranges, address: Word, gas: Word, callee: Address)
    requires MemOk(m.top.memory) && m.top.stack == base + Words(r) + [address, gas]
    requires callee == address % 0x1_0000_0000_0000_0000_0000_0000_0000_0000_0000_0000
    ensures
      var h, code := Handle(b, m, StaticCall(Ordinary)), CodeFor(b, m, callee);
      var data := BytesAt(m.top.memory, r.argsOffset, r.argsLength);
      if Readable(r) && Runs(b, code) then
        Entered(h, m, base, r, Child(true, ByCall, m.top.contract, callee, 0, code, data),
                [])
      else h.Raised?
  {
    StaticCallOpEnters(b, m, base, r, address, gas, callee);
  }

  /** With fewer words on the stack, calls fail. */
  lemma CallsNeedOperands(b: Backend, m: Machine, callee: Callee)
    ensures |m.top.stack| < 7 ==> Handle(b, m, Call(callee)).Raised? && Handle(b, m, CallCode(callee)).Raised?
    ensures |m.top.stack| < 6 ==> Handle(b, m, DelegateCall(callee)).Raised? && Handle(b, m, StaticCall(callee)).Raised?
  {
  }

  /** So do the other opcodes that need words. */
  lemma OperandsNeeded(b: Backend, m: Machine, address: Address)
    ensures |m.top.stack| < 4 ==> Handle(b, m, Create2(address)).Raised?
    ensures |m.top.stack| < 3 ==> Handle(b, m, Create(address)).Raised?
    ensures |m.top.stack| < 2 ==>
      Handle(b, m, SStore).Raised? && Handle(b, m, Return).Raised? && Handle(b, m, Revert).Raised?
    ensures |m.top.stack| < 1 ==> Handle(b, m, SelfDestruct).Raised?
  {
  }

  // ---- Creations -------------------------------------------------------------------------------

  /** The journal's nonce, when it can be read. */
  function NonceAt(b: Backend, m: Machine, a: Address): Journal.Result<nat> {
    NonceOver(Nonce(b.world, a), m.log, a)
  }

  /** The creator can count one more nonce. */
  predicate CanCount(b: Backend, m: Machine) {
    NonceAt(b, m, m.top.contract).Ok? && NonceAt(b, m, m.top.contract).value < U64_MAX
  }

  /** Initialization code that starts as a container is for creators that are containers themselves, and
      has to parse and validate. */
  predicate Initializes(b: Backend, m: Machine, init: seq<Byte>) {
    HasEofMagic(init) ==>
      HasEofMagic(CodeFor(b, m, m.top.contract)) && init !in b.unparsable && init !in b.unvalidated
  }

  /** Nothing has been at the address, once the creator's nonce is counted. */
  predicate Vacant(b: Backend, m: Machine, address: Address) {
    && address != m.top.contract && NonceAt(b, m, address) == Journal.Ok(0) && CodeFor(b, m, address) == []
  }

  /** The creator while it waits, with nothing to be answered. */
  ghost predicate WaitsForCreation(f: Frame, base: seq<Word>, offset: Word, length: Word, g: Frame)
    requires MemOk(f.memory)
  {
    && TouchedBy(f.memory, offset, length, g.memory)
    && g == f.(stack := base, memory := g.memory, returnData := [], returnOffset := 0, returnLength := 0)
  }

  /** The machine `n` runs `init` as the new contract; the creator's nonce is counted before the snapshot,
      the new contract's after it, and then the value is paid. */
  ghost predicate Creates(m: Machine, base: seq<Word>, offset: Word, length: Word, value: Word, init: seq<Byte>,
                          address: Address, n: Machine)
    requires MemOk(m.top.memory)
  {
    && n.top == Child(m.top.isStatic, ByCreate, m.top.contract, address, value, init, [])
    && |n.parents| == |m.parents| + 1 && n.parents[..|m.parents|] == m.parents
    && WaitsForCreation(m.top, base, offset, length, n.parents[|m.parents|])
    && n.marks == m.marks + [|m.log| + 1]
    && n.log == m.log + [EvmIncrementNonce(m.top.contract), EvmIncrementNonce(address)]
                + Payment(m.top.contract, address, value)
  }

  /** What a log reads as once one more nonce is counted in it. */
  lemma CountedLog(n: nat, balance: Word, code: seq<Byte>, log: seq<Action>, creator: Address, a: Address)
    ensures
      var counted := log + [EvmIncrementNonce(creator)];
      && CodeOver(code, counted, a) == CodeOver(code, log, a)
      && BalanceOver(balance, counted, a) == BalanceOver(balance, log, a)
      && (a != creator ==> NonceOver(n, counted, a) == NonceOver(n, log, a))
  {
    assert Init(log + [EvmIncrementNonce(creator)]) == log;
  }

  lemma CountedNonce(n: nat, log: seq<Action>, creator: Address)
    requires NonceOver(n, log, creator).Ok? && NonceOver(n, log, creator).value < U64_MAX
    ensures
      var counted := log + [EvmIncrementNonce(creator)];
      NonceOver(n, counted, creator) == Journal.Ok(NonceOver(n, log, creator).value + 1)
  {
    assert Init(log + [EvmIncrementNonce(creator)]) == log;
  }

  lemma CountedReads(b: Backend, m: Machine, a: Address)
    requires CanCount(b, m)
    ensures
      var counted := Append(m, [EvmIncrementNonce(m.top.contract)]);
      && CodeFor(b, counted, a) == CodeFor(b, m, a)
      && (a != m.top.contract ==> NonceAt(b, counted, a) == NonceAt(b, m, a))
      && NonceAt(b, counted, m.top.contract) == Journal.Ok(NonceAt(b, m, m.top.contract).value + 1)
      && JournalBalance(b, counted, a) == JournalBalance(b, m, a)
  {
    CountedLog(Nonce(b.world, a), Balance(b.world, a), Code(b.world, a), m.log, m.top.contract, a);
    CountedNonce(Nonce(b.world, m.top.contract), m.log, m.top.contract);
  }

  lemma CreateImplMeans(b: Backend, m: Machine, f: Frame, base: seq<Word>, offset: Word, length: Word, value: Word,
                        address: Address, init: seq<Byte>)
    requires MemOk(m.top.memory) && TouchedBy(m.top.memory, offset, length, f.memory)
    requires f == m.top.(stack := base, memory := f.memory)
    ensures
      var h := CreateImpl(b, m.(top := f), address, value, init);
      if CanCount(b, m) && Initializes(b, m, init) && Vacant(b, m, address) && Affords(b, m, value) then
        h.Next? && h.flow == Noop && Creates(m, base, offset, length, value, init, address, h.machine)
      else h.Raised?
  {
    var n := m.(top := f);
    if CanCount(b, m) {
      CountedReads(b, n, address);
      CountedReads(b, n, m.top.contract);
      var top := f.(returnData := [], returnOffset := 0, returnLength := 0);
      CountedMeans(b, m, Append(n, [EvmIncrementNonce(m.top.contract)]).(top := top), base, offset, length, value,
                   address, init);
    }
  }

  /** The frame of a creation, entered from `n`, where the creator's nonce is counted already. */
  function CreationFrom(n: Machine, address: Address, value: Word, init: seq<Byte>): Machine {
    Machine(Child(n.top.isStatic, ByCreate, n.top.contract, address, value, init, []), n.parents + [n.top],
            n.log + [EvmIncrementNonce(address)] + Payment(n.top.contract, address, value), n.marks + [|n.log|])
  }

  lemma CountedEnters(b: Backend, n: Machine, address: Address, value: Word, init: seq<Byte>)
    ensures
      var h := CreateCounted(b, n, address, value, init);
      if Initializes(b, n, init) && NonceAt(b, n, address) == Journal.Ok(0) && CodeFor(b, n, address) == []
         && Affords(b, n, value) then h == Next(CreationFrom(n, address, value, init), Noop)
      else h.Raised?
  {
    PaidLog(n.log + [EvmIncrementNonce(address)]);
  }

  lemma PaidLog(log: seq<Action>)
    ensures log + [] == log
  {
  }

  lemma CreationIs(m: Machine, n: Machine, base: seq<Word>, offset: Word, length: Word, value: Word, address: Address,
                   init: seq<Byte>)
    requires MemOk(m.top.memory) && WaitsForCreation(m.top, base, offset, length, n.top)
    requires n.log == m.log + [EvmIncrementNonce(m.top.contract)] && n.parents == m.parents && n.marks == m.marks
    ensures Creates(m, base, offset, length, value, init, address, CreationFrom(n, address, value, init))
  {
    assert (n.parents + [n.top])[..|m.parents|] == m.parents;
    assert n.log + [EvmIncrementNonce(address)]
        == m.log + [EvmIncrementNonce(m.top.contract), EvmIncrementNonce(address)];
  }

  lemma CountedMeans(b: Backend, m: Machine, n: Machine, base: seq<Word>, offset: Word, length: Word, value: Word,
                     address: Address, init: seq<Byte>)
    requires MemOk(m.top.memory) && WaitsForCreation(m.top, base, offset, length, n.top)
    requires n.log == m.log + [EvmIncrementNonce(m.top.contract)] && n.parents == m.parents && n.marks == m.marks
    requires CodeFor(b, n, m.top.contract) == CodeFor(b, m, m.top.contract)
    requires CodeFor(b, n, address) == CodeFor(b, m, address)
    requires NonceAt(b, n, address) == Journal.Ok(0)
             <==> address != m.top.contract && NonceAt(b, m, address) == Journal.Ok(0)
    requires JournalBalance(b, n, m.top.contract) == JournalBalance(b, m, m.top.contract)
    ensures
      var h := CreateCounted(b, n, address, value, init);
      if Initializes(b, m, init) && Vacant(b, m, address) && Affords(b, m, value) then
        h.Next? && h.flow == Noop && Creates(m, base, offset, length, value, init, address, h.machine)
      else h.Raised?
  {
    CountedEnters(b, n, address, value, init);
    CreationIs(m, n, base, offset, length, value, address, init);
  }

  lemma CreateOpMeans(b: Backend, m: Machine, base: seq<Word>, operands: nat, value: Word, offset: Word, length: Word,
                      address: Address)
    requires MemOk(m.top.memory) && operands >= 3 && |m.top.stack| == |base| + operands
    requires m.top.stack[..|base|] == base && Operand(m.top, 0) == value
    requires Operand(m.top, 1) == offset && Operand(m.top, 2) == length
    ensures
      var h, init := CreateOp(b, m, operands, address), BytesAt(m.top.memory, offset, length);
      if !m.top.isStatic && offset <= USIZE_MAX && length <= USIZE_MAX && InReach(offset, length) && CanCount(b, m)
         && Initializes(b, m, init) && Vacant(b, m, address) && Affords(b, m, value) then
        h.Next? && h.flow == Noop && Creates(m, base, offset, length, value, init, address, h.machine)
      else h.Raised?
  {
    if !m.top.isStatic && offset <= USIZE_MAX && length <= USIZE_MAX {
      ReadGives(Pop(m.top, operands), offset, length);
      var r := ReadBuffer(Pop(m.top, operands), offset, length);
      if r.Got? {
        CreateImplMeans(b, m, r.frame, base, offset, length, value, address, r.data);
      }
    }
  }

  /** CREATE takes value, offset and length from the top. */
  lemma CreateEnters(b: Backend, m: Machine, base: seq<Word>, value: Word, offset: Word, length: Word, address: Address)
    requires MemOk(m.top.memory) && m.top.stack == base + [length, offset, value]
    ensures
      var h, init := Handle(b, m, Create(address)), BytesAt(m.top.memory, offset, length);
      if !m.top.isStatic && offset <= USIZE_MAX && length <= USIZE_MAX && InReach(offset, length) && CanCount(b, m)
         && Initializes(b, m, init) && Vacant(b, m, address) && Affords(b, m, value) then
        h.Next? && h.flow == Noop && Creates(m, base, offset, length, value, init, address, h.machine)
      else h.Raised?
  {
    CreateOpMeans(b, m, base, 3, value, offset, length, address);
  }

  /** CREATE2 takes the same and a salt below, which only the address depends on. */
  lemma Create2Enters(b: Backend, m: Machine, base: seq<Word>, value: Word, offset: Word, length: Word, salt: Word,
                      address: Address)
    requires MemOk(m.top.memory) && m.top.stack == base + [salt, length, offset, value]
    ensures
      var h, init := Handle(b, m, Create2(address)), BytesAt(m.top.memory, offset, length);
      if !m.top.isStatic && offset <= USIZE_MAX && length <= USIZE_MAX && InReach(offset, length) && CanCount(b, m)
         && Initializes(b, m, init) && Vacant(b, m, address) && Affords(b, m, value) then
        h.Next? && h.flow == Noop && Creates(m, base, offset, length, value, init, address, h.machine)
      else h.Raised?
  {
    CreateOpMeans(b, m, base, 4, value, offset, length, address);
  }
}
