/** Memories and stacks of running frames are in order, so a running machine can always be saved. Only an
    error on a memory range in the outermost frame leaves a machine that cannot. */
module FrameMemory {
  import opened Opcodes
  import opened WordArithmetic
  import opened StorageLayout
  import opened Accounts
  import opened Journal
  import opened CallFrames
  import opened EvmMemory

  predicate Tidy(f: Frame) {
    MemOk(f.memory) && |f.stack| <= OPERANDS
  }

  predicate TidyAll(frames: seq<Frame>) {
    forall i :: 0 <= i < |frames| ==> Tidy(frames[i])
  }

  predicate TidyMachine(m: Machine) {
    Tidy(m.top) && TidyAll(m.parents)
  }

  /** The size is beyond the capacity. */
  predicate Broken(m: Mem) {
    m.size > |m.data|
  }

  /** The error after which a memory is broken: its range is out of limits and did not overflow. */
  predicate Breaks(error: Failure) {
    error.MemoryAccessOutOfLimits? && !Overflows(error.offset, error.length)
  }

  /** After an error everything is in order except for the current memory, which is broken by exactly the
      errors that break one; a range that is reported out of limits is. */
  predicate TidyHandled(h: Handled) {
    match h
    case Panicked => true
    case Next(m, _) => TidyMachine(m)
    case Raised(m, error) =>
      && TidyAll(m.parents) && |m.top.stack| <= OPERANDS
      && (error.MemoryAccessOutOfLimits? ==> !Reachable(error.offset, error.length))
      && if Breaks(error) then Broken(m.top.memory) else MemOk(m.top.memory)
  }

  // ---- Memory ----------------------------------------------------------------------------------

  lemma BrokenGrowth(m: Mem, offset: nat, length: nat)
    requires MemOk(m) && !Reachable(offset, length) && !Overflows(offset, length)
    ensures Broken(Mem(m.data, RoundUp(offset + length)))
  {
  }

  lemma ReadTidy(f: Frame, offset: nat, length: nat)
    requires Tidy(f)
    ensures
      match ReadBuffer(f, offset, length)
      case Got(g, _) => Tidy(g) && g == f.(memory := g.memory)
      case Lost(g) =>
        && g == f.(memory := g.memory) && !Reachable(offset, length)
        && if Breaks(MemoryAccessOutOfLimits(offset, length)) then Broken(g.memory) else MemOk(g.memory)
  {
    if length > 0 {
      ReallocatedMeaning(f.memory, offset, length);
      if !Reachable(offset, length) && !Overflows(offset, length) {
        BrokenGrowth(f.memory, offset, length);
      }
    }
  }

  lemma WriteTidy(f: Frame, offset: nat, bytes: seq<Byte>)
    requires Tidy(f)
    ensures
      match WriteMemory(f, offset, bytes)
      case Wrote(g) => Tidy(g) && g == f.(memory := g.memory)
      case Unwritten(g) =>
        && g == f.(memory := g.memory) && !Reachable(offset, |bytes|)
        && if Breaks(MemoryAccessOutOfLimits(offset, |bytes|)) then Broken(g.memory) else MemOk(g.memory)
  {
    if bytes != [] {
      WriteMeaning(f.memory, offset, bytes);
      ReallocatedMeaning(f.memory, offset, |bytes|);
      if !Reachable(offset, |bytes|) && !Overflows(offset, |bytes|) {
        BrokenGrowth(f.memory, offset, |bytes|);
      }
    }
  }

  // ---- Leaving frames --------------------------------------------------------------------------

  lemma JoinTidy(m: Machine)
    requires TidyAll(m.parents) && m.parents != []
    ensures TidyMachine(Join(m))
  {
  }

  lemma AfterCreateTidy(m: Machine, result: Word)
    requires TidyMachine(m)
    ensures TidyHandled(AfterCreate(m, result))
  {
  }

  lemma AfterCallTidy(m: Machine, data: seq<Byte>, flag: Word)
    requires TidyMachine(m)
    ensures TidyHandled(AfterCall(m, data, flag))
  {
    WriteTidy(m.top, m.top.returnOffset, Padded(data, 0, m.top.returnLength));
    var w := WriteRange(m.top, data);
    if w.Wrote? {
      AfterCreateTidy(m.(top := w.frame), flag);
    }
  }

  lemma ReturnDataTidy(h: Handled, data: seq<Byte>)
    requires TidyHandled(h)
    ensures TidyHandled(WithReturnData(h, data))
  {
  }

  lemma DeliverTidy(m: Machine, data: seq<Byte>, word: Word)
    requires TidyAll(m.parents) && m.parents != []
    ensures TidyHandled(AfterCall(Join(m), data, word)) && TidyHandled(AfterCreate(Join(m), word))
    ensures TidyHandled(WithReturnData(AfterCall(Join(m), data, word), data))
    ensures TidyHandled(WithReturnData(AfterCreate(Join(m), word), data))
  {
    JoinTidy(m);
    AfterCallTidy(Join(m), data, word);
    AfterCreateTidy(Join(m), word);
    ReturnDataTidy(AfterCall(Join(m), data, word), data);
    ReturnDataTidy(AfterCreate(Join(m), word), data);
  }

  lemma LeaveTidy(m: Machine, exit: Flow)
    requires TidyMachine(m)
    ensures TidyHandled(Leave(m, exit))
  {
    if m.marks != [] && m.parents != [] {
      var n := CommitSnapshot(m).value;
      DeliverTidy(n, [], 1);
      DeliverTidy(n, [], 0);
    }
  }

  lemma ReturnTidy(b: Backend, m: Machine, data: seq<Byte>)
    requires TidyMachine(m)
    ensures TidyHandled(ReturnImpl(b, m, data))
  {
    if m.marks != [] && m.parents != [] {
      var deployed := if m.top.reason == ByCreate then Append(m, [EvmSetCode(m.top.contract, data)]) else m;
      var n := CommitSnapshot(deployed).value;
      DeliverTidy(n, if m.top.reason == ByCreate then [] else data, 1);
      DeliverTidy(n, data, m.top.contract);
    }
  }

  /** A revert drops the current frame, or leaves the outermost one as it is. */
  lemma RevertTidy(m: Machine, data: seq<Byte>)
    requires TidyAll(m.parents)
    ensures
      var h := RevertImpl(m, data);
      if m.parents != [] then TidyHandled(h)
      else h.Panicked? || (h.Next? && h.flow == Reverted(data) && h.machine.top == m.top && h.machine.parents == [])
  {
    if RevertSnapshot(m).Some? && m.parents != [] {
      var n := RevertSnapshot(m).value;
      DeliverTidy(n, data, 0);
    }
  }

  // ---- Handlers --------------------------------------------------------------------------------

  lemma ComputeTidy(m: Machine, stack: seq<Word>, target: nat)
    requires TidyMachine(m)
    ensures TidyHandled(ComputeOp(m, stack, target))
  {
  }

  lemma LoadTidy(m: Machine, offset: nat, length: nat, stack: seq<Word>, target: nat)
    requires TidyMachine(m)
    ensures TidyHandled(LoadOp(m, offset, length, stack, target))
  {
    ReadTidy(m.top, offset, length);
    var read := ReadBuffer(m.top, offset, length);
    if read.Got? {
      ComputeTidy(m.(top := read.frame), stack, target);
    }
  }

  lemma StoreTidy(m: Machine, offset: nat, bytes: seq<Byte>, stack: seq<Word>, target: nat)
    requires TidyMachine(m)
    ensures TidyHandled(StoreOp(m, offset, bytes, stack, target))
  {
    WriteTidy(m.top, offset, bytes);
    var w := WriteMemory(m.top, offset, bytes);
    if w.Wrote? {
      ComputeTidy(m.(top := w.frame), stack, target);
    }
  }

  lemma PopTidy(f: Frame, n: nat)
    requires Tidy(f) && n <= |f.stack|
    ensures Tidy(Pop(f, n))
  {
  }

  lemma LogTidy(m: Machine, topics: nat)
    requires TidyMachine(m)
    ensures TidyHandled(LogOp(m, topics))
  {
    if |m.top.stack| >= 2 {
      PopTidy(m.top, 2);
      ReadTidy(Pop(m.top, 2), Operand(m.top, 0), Operand(m.top, 1));
    }
  }

  lemma EnterTidy(m: Machine, parent: Frame, child: Frame)
    requires TidyAll(m.parents) && Tidy(parent) && child.stack == [] && child.memory == EMPTY
    ensures TidyMachine(Snapshot(m.(top := child, parents := m.parents + [parent])))
  {
    EmptyOk();
  }

  lemma NativeTidy(b: Backend, m: Machine, address: Address, callee: Callee)
    requires TidyMachine(m)
    ensures TidyHandled(CallNative(b, m, address, callee))
  {
    if callee.Native? && !NativeRefuses(m.top, address, callee) && callee.output.Some? {
      ReturnTidy(b, Append(m, NativeActions(m.top, callee)), callee.output.value);
    }
  }

  lemma PreparedTidy(m: Machine, hasValue: bool)
    requires TidyMachine(m)
    ensures
      match PrepareCall(m.top, hasValue)
      case Ready(input) => Tidy(input.frame)
      case NotReady(f, error) => TidyHandled(Raised(m.(top := f), error))
  {
    var n := if hasValue then 7 else 6;
    if |m.top.stack| >= n {
      var g := Pop(m.top, n).(returnData := [], returnOffset := Operand(m.top, n - 2),
                              returnLength := RangeLength(Operand(m.top, n - 2), Operand(m.top, n - 1)));
      ReadTidy(g, Operand(m.top, n - 4), Operand(m.top, n - 3));
    }
  }

  /** The entered frame of a call, whatever it then does at once. */
  lemma EnteredTidy(b: Backend, m: Machine, input: CallInput, caller: Address, contract: Address, value: Word,
                    code: seq<Byte>)
    requires TidyMachine(m) && Tidy(input.frame)
    ensures TidyMachine(Enter(m, input, caller, contract, value, code))
    ensures TidyMachine(m.(top := input.frame))
  {
    var child := Enter(m, input, caller, contract, value, code).top;
    EnterTidy(m, input.frame, child);
  }

  lemma CallTidy(b: Backend, m: Machine, callee: Callee)
    requires TidyMachine(m)
    ensures TidyHandled(CallOp(b, m, callee))
  {
    PreparedTidy(m, true);
    if PrepareCall(m.top, true).Ready? {
      var input := PrepareCall(m.top, true).input;
      var code := JournalCode(b, m, input.address);
      EnteredTidy(b, m, input, m.top.contract, input.address, input.value, code);
      var t := Transfer(Enter(m, input, m.top.contract, input.address, input.value, code), m.top.contract,
                        input.address, input.value);
      NativeTidy(b, t, input.address, callee);
    }
  }

  lemma CallCodeTidy(b: Backend, m: Machine, callee: Callee)
    requires TidyMachine(m)
    ensures TidyHandled(CallCodeOp(b, m, callee))
  {
    PreparedTidy(m, true);
    if PrepareCall(m.top, true).Ready? {
      var input := PrepareCall(m.top, true).input;
      var code := JournalCode(b, m, input.address);
      EnteredTidy(b, m, input, m.top.contract, m.top.contract, input.value, code);
      NativeTidy(b, Enter(m, input, m.top.contract, m.top.contract, input.value, code), input.address, callee);
    }
  }

  lemma DelegateCallTidy(b: Backend, m: Machine, callee: Callee)
    requires TidyMachine(m)
    ensures TidyHandled(DelegateCallOp(b, m, callee))
  {
    PreparedTidy(m, false);
    if PrepareCall(m.top, false).Ready? {
      var input := PrepareCall(m.top, false).input;
      var code := JournalCode(b, m, input.address);
      EnteredTidy(b, m, input, m.top.caller, m.top.contract, m.top.value, code);
      NativeTidy(b, Enter(m, input, m.top.caller, m.top.contract, m.top.value, code), input.address, callee);
    }
  }

  lemma StaticCallTidy(b: Backend, m: Machine, callee: Callee)
    requires TidyMachine(m)
    ensures TidyHandled(StaticCallOp(b, m, callee))
  {
    PreparedTidy(m, false);
    if PrepareCall(m.top, false).Ready? {
      var input := PrepareCall(m.top, false).input;
      var code := JournalCode(b, m, input.address);
      EnteredTidy(b, m, input, m.top.contract, input.address, 0, code);
      var n := Enter(m, input, m.top.contract, input.address, 0, code);
      NativeTidy(b, n.(top := n.top.(isStatic := true)), input.address, callee);
    }
  }

  lemma CreateImplTidy(b: Backend, m: Machine, address: Address, value: Word, init: seq<Byte>)
    requires TidyMachine(m)
    ensures TidyHandled(CreateImpl(b, m, address, value, init))
  {
    var creator := m.top.contract;
    var top := m.top.(returnData := [], returnOffset := 0, returnLength := 0);
    var counted := Append(m, [EvmIncrementNonce(creator)]).(top := top);
    var forked := Snapshot(Fork(counted, ByCreate, creator, address, value, init, []));
    EnterTidy(counted, top, forked.top);
  }

  lemma CreateTidy(b: Backend, m: Machine, operands: nat, address: Address)
    requires TidyMachine(m) && operands >= 3
    ensures TidyHandled(CreateOp(b, m, operands, address))
  {
    if |m.top.stack| >= operands {
      PopTidy(m.top, operands);
      ReadTidy(Pop(m.top, operands), Operand(m.top, 1), Operand(m.top, 2));
      var read := ReadBuffer(Pop(m.top, operands), Operand(m.top, 1), Operand(m.top, 2));
      if read.Got? {
        CreateImplTidy(b, m.(top := read.frame), address, Operand(m.top, 0), read.data);
      }
    }
  }

  lemma ReturnOpTidy(b: Backend, m: Machine)
    requires TidyMachine(m)
    ensures TidyHandled(ReturnOp(b, m)) && TidyHandled(RevertOp(m))
  {
    if |m.top.stack| >= 2 {
      PopTidy(m.top, 2);
      ReadTidy(Pop(m.top, 2), Operand(m.top, 0), Operand(m.top, 1));
      var read := ReadBuffer(Pop(m.top, 2), Operand(m.top, 0), Operand(m.top, 1));
      if read.Got? {
        ReturnTidy(b, m.(top := read.frame), read.data);
        RevertTidy(m.(top := read.frame), read.data);
      }
    }
  }

  lemma SelfDestructTidy(b: Backend, m: Machine)
    requires TidyMachine(m)
    ensures TidyHandled(SelfDestructOp(b, m))
  {
    if |m.top.stack| >= 1 {
      PopTidy(m.top, 1);
      var n := m.(top := Pop(m.top, 1));
      var balance := JournalBalance(b, n, m.top.contract);
      if balance.Ok? {
        var t := Transfer(n, m.top.contract, Operand(m.top, 0) % ADDRESS_RANGE, balance.value);
        LeaveTidy(Append(t, [EvmSelfDestruct(m.top.contract)]), Suicided);
      }
    }
  }

  lemma HandleTidy(b: Backend, m: Machine, i: Instruction)
    requires TidyMachine(m)
    ensures TidyHandled(Handle(b, m, i))
  {
    match i
    case Compute(stack, target) => ComputeTidy(m, stack, target);
    case Load(offset, length, stack, target) => LoadTidy(m, offset, length, stack, target);
    case Store(offset, bytes, stack, target) => StoreTidy(m, offset, bytes, stack, target);
    case Fault =>
    case SStore =>
    case Log(topics) => LogTidy(m, topics);
    case Create(address) => CreateTidy(b, m, 3, address);
    case Create2(address) => CreateTidy(b, m, 4, address);
    case Call(callee) => CallTidy(b, m, callee);
    case CallCode(callee) => CallCodeTidy(b, m, callee);
    case DelegateCall(callee) => DelegateCallTidy(b, m, callee);
    case StaticCall(callee) => StaticCallTidy(b, m, callee);
    case Return => ReturnOpTidy(b, m);
    case Revert => ReturnOpTidy(b, m);
    case SelfDestruct => SelfDestructTidy(b, m);
    case Stop => LeaveTidy(m, Stopped);
  }

  // ---- Steps -----------------------------------------------------------------------------------

  /** The step's error is one on a memory range of the outermost frame that did not overflow. */
  predicate LosesMemory(h: Handled) {
    h.Raised? && h.machine.parents == [] && Breaks(h.error)
  }

  /** A machine that keeps running is in order. A machine that exits is in order unless the outermost
      frame was reverted for an error that breaks its memory. */
  lemma StepTidy(b: Backend, m: Machine, i: Instruction, message: seq<Byte>)
    requires TidyMachine(m)
    ensures
      match Step(b, m, i, message)
      case Running(n) => TidyMachine(n)
      case Exited(n, _) =>
        && |n.top.stack| <= OPERANDS && TidyAll(n.parents)
        && if LosesMemory(Handle(b, m, i)) then Broken(n.top.memory) else MemOk(n.top.memory)
      case _ => true
  {
    HandleTidy(b, m, i);
    RecoverTidy(Handle(b, m, i), message);
  }

  lemma RecoverTidy(h: Handled, message: seq<Byte>)
    requires TidyHandled(h)
    ensures
      match Recover(h, message)
      case Running(n) => TidyMachine(n)
      case Exited(n, _) =>
        && |n.top.stack| <= OPERANDS && TidyAll(n.parents)
        && if LosesMemory(h) then Broken(n.top.memory) else MemOk(n.top.memory)
      case _ => true
  {
    if h.Raised? {
      RevertTidy(h.machine, message);
    }
  }

  /** A new machine is in order. */
  lemma NewMachineTidy(b: Backend, chainId: Word, trx: Transaction, origin: Address, created: Address)
    requires NewMachine(b, chainId, trx, origin, created).Some?
    ensures TidyMachine(NewMachine(b, chainId, trx, origin, created).value)
  {
    EmptyOk();
  }
}
