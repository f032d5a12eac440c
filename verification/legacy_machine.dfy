/** The machine changed in place, over a journal object: each handler is proved to do what
    `CallFrames.Handle` says, and the execution loop what its steps say. */
module LegacyMachine {
  import opened Opcodes
  import opened WordArithmetic
  import opened StorageLayout
  import opened Accounts
  import opened Journal
  import opened WordBytes
  import opened CallFrames
  import EvmMemory

  /** A handler's return: a flow, an error, or none because an assertion failed. */
  datatype Signal = Proceed(flow: Flow) | Failed(error: Failure) | Panic

  function Told(r: Signal, m: Machine): Handled {
    match r
    case Proceed(flow) => Next(m, flow)
    case Failed(error) => Raised(m, error)
    case Panic => Panicked
  }

  /** What one call of the execution loop ends with. */
  datatype Execution = Finish(status: ExitStatus) | StepLimit | Abort | Crash

  // ---- The loop as a function --------------------------------------------------------------------

  /** The opcode that a machine is about to run and the message of its error, if it has one; any
      function of the machine's state will do. */
  type Decode = Machine -> (Instruction, seq<Byte>)

  /** The step a machine takes by itself. */
  function OwnStep(b: Backend, decode: Decode, m: Machine): Outcome {
    Step(b, m, decode(m).0, decode(m).1)
  }

  /** `next` is that step as a value, so that runs can be spoken of without its details. */
  ghost predicate Follows(next: Machine -> Outcome, b: Backend, decode: Decode) {
    forall m: Machine {:trigger OwnStep(b, decode, m)} :: next(m) == OwnStep(b, decode, m)
  }

  function After(next: Machine -> Outcome, m: Machine, n: nat): Outcome {
    if n == 0 then Running(m) else
      match After(next, m, n - 1)
      case Running(k) => next(k)
      case o => o
  }

  class Evm {
    var frame: Frame
    var parents: seq<Frame>
    const state: ExecutorState

    function View(): Machine
      reads this, state
    {
      Machine(frame, parents, state.actions, state.stack)
    }

    /** `deserialize_from` for the machine and its journal. */
    constructor (m: Machine)
      ensures View() == m && fresh(state)
    {
      var journal := new ExecutorState();
      journal.actions, journal.stack := m.log, m.marks;
      frame, parents, state := m.top, m.parents, journal;
    }

    method Fork(reason: Reason, caller: Address, contract: Address, value: Word, code: seq<Byte>, callData: seq<Byte>)
      modifies this
      ensures View() == CallFrames.Fork(old(View()), reason, caller, contract, value, code, callData)
    {
      parents := parents + [frame];
      frame := Frame(frame.isStatic, reason, caller, contract, value, code, callData, [], EvmMemory.EMPTY, 0, [], 0, 0);
    }

    /** The frame that is left is returned. */
    method Join() returns (returned: Frame)
      requires parents != []
      modifies this
      ensures View() == CallFrames.Join(old(View())) && returned == old(frame)
    {
      returned := frame;
      frame, parents := Last(parents), Init(parents);
    }

    method TransferTokens(b: Backend, source: Address, target: Address, value: Word) returns (ok: bool)
      requires CanPay(b, View(), source, value)
      modifies state
      ensures ok && View() == Transfer(old(View()), source, target, value)
    {
      var r := state.Transfer(b.world, source, target, value);
      ok := r.Ok?;
      assert state.actions + [] == state.actions;
    }

    method PushWord(v: Word) returns (ok: bool)
      modifies this`frame
      ensures ok <==> CallFrames.Push(old(frame), v).Some?
      ensures frame == if ok then CallFrames.Push(old(frame), v).value else old(frame)
    {
      ok := |frame.stack| < OPERANDS;
      if ok {
        frame := frame.(stack := frame.stack + [v]);
      }
    }

    /** The memory's bytes and size are kept as a value; `EvmMemory.Memory` is proved to change them the
        same way. */
    method ReadRange(offset: nat, length: nat) returns (r: Read)
      modifies this`frame
      ensures r == ReadBuffer(old(frame), offset, length) && frame == r.frame
    {
      r := ReadBuffer(frame, offset, length);
      frame := r.frame;
    }

    method WriteBytes(offset: nat, bytes: seq<Byte>) returns (ok: bool)
      modifies this`frame
      ensures frame == WriteMemory(old(frame), offset, bytes).frame
      ensures ok <==> WriteMemory(old(frame), offset, bytes).Wrote?
    {
      var w := WriteMemory(frame, offset, bytes);
      frame := w.frame;
      ok := w.Wrote?;
    }

    method DeliverCall(data: seq<Byte>, flag: Word) returns (r: Signal)
      modifies this`frame
      ensures Told(r, View()) == AfterCall(old(View()), data, flag)
    {
      var offset, length := frame.returnOffset, frame.returnLength;
      var ok := WriteBytes(offset, EvmMemory.Padded(data, 0, length));
      if !ok {
        return Failed(MemoryAccessOutOfLimits(offset, length));
      }
      ok := PushWord(flag);
      r := if ok then Proceed(Continue) else Failed(OtherFailure);
    }

    method DeliverCreate(result: Word) returns (r: Signal)
      modifies this`frame
      ensures Told(r, View()) == AfterCreate(old(View()), result)
    {
      var ok := PushWord(result);
      r := if ok then Proceed(Continue) else Failed(OtherFailure);
    }

    method OpcodeReturnImpl(b: Backend, data: seq<Byte>) returns (r: Signal)
      modifies this, state
      ensures Told(r, View()) == ReturnImpl(b, old(View()), data)
    {
      var output := data;
      if frame.reason == ByCreate {
        output := [];
        if ForkFails(b, ByCreate, data) {
          return Failed(OtherFailure);
        }
        var logged := state.SetCode(frame.contract, data);
        if logged.Err? {
          return Failed(OtherFailure);
        }
      }
      var panicked := state.CommitSnapshot();
      if panicked {
        return Panic;
      }
      if parents == [] {
        return Proceed(Returned(output));
      }
      var returned := Join();
      if returned.reason == ByCall {
        r := DeliverCall(output, 1);
        if r.Proceed? {
          frame := frame.(returnData := output);
        }
      } else {
        r := DeliverCreate(returned.contract);
      }
    }

    method OpcodeRevertImpl(data: seq<Byte>) returns (r: Signal)
      modifies this, state
      ensures Told(r, View()) == RevertImpl(old(View()), data)
    {
      var panicked := state.RevertSnapshot();
      if panicked {
        return Panic;
      }
      if parents == [] {
        return Proceed(Reverted(data));
      }
      var returned := Join();
      if returned.reason == ByCall {
        r := DeliverCall(data, 0);
      } else {
        r := DeliverCreate(0);
      }
      if r.Proceed? {
        frame := frame.(returnData := data);
      }
    }

    /** `opcode_stop`, and the part of `opcode_selfdestruct` after its effects. */
    method OpcodeStop(exit: Flow) returns (r: Signal)
      modifies this, state
      ensures Told(r, View()) == Leave(old(View()), exit)
    {
      var panicked := state.CommitSnapshot();
      if panicked {
        return Panic;
      }
      if parents == [] {
        return Proceed(exit);
      }
      var returned := Join();
      if returned.reason == ByCall {
        r := DeliverCall([], 1);
      } else {
        r := DeliverCreate(0);
      }
    }

    method OpcodeSStore() returns (r: Signal)
      modifies this, state
      ensures Told(r, View()) == SStoreOp(old(View()))
    {
      if frame.isStatic || |frame.stack| < 2 {
        return Failed(OtherFailure);
      }
      var index, value := Operand(frame, 0), Operand(frame, 1);
      frame := Pop(frame, 2);
      state.Push(EvmSetStorage(frame.contract, index, WordToBytes(value)));
      r := Proceed(Continue);
    }

    method OpcodeSelfDestruct(b: Backend) returns (r: Signal)
      modifies this, state
      ensures Told(r, View()) == SelfDestructOp(b, old(View()))
    {
      if frame.isStatic || |frame.stack| < 1 {
        return Failed(OtherFailure);
      }
      var heir := Operand(frame, 0) % ADDRESS_RANGE;
      frame := Pop(frame, 1);
      var balance := state.Balance(b.world, frame.contract);
      if balance.Err? {
        return Failed(OtherFailure);
      }
      var _ := TransferTokens(b, frame.contract, heir, balance.value);
      state.Push(EvmSelfDestruct(frame.contract));
      r := OpcodeStop(Suicided);
    }

    method OpcodeReturn(b: Backend) returns (r: Signal)
      modifies this, state
      ensures Told(r, View()) == ReturnOp(b, old(View()))
    {
      if |frame.stack| < 2 || !Usize(frame, 0) || !Usize(frame, 1) {
        return Failed(OtherFailure);
      }
      var offset, length := Operand(frame, 0), Operand(frame, 1);
      frame := Pop(frame, 2);
      var read := ReadRange(offset, length);
      if read.Lost? {
        return Failed(MemoryAccessOutOfLimits(offset, length));
      }
      r := OpcodeReturnImpl(b, read.data);
    }

    method OpcodeRevert() returns (r: Signal)
      modifies this, state
      ensures Told(r, View()) == RevertOp(old(View()))
    {
      if |frame.stack| < 2 || !Usize(frame, 0) || !Usize(frame, 1) {
        return Failed(OtherFailure);
      }
      var offset, length := Operand(frame, 0), Operand(frame, 1);
      frame := Pop(frame, 2);
      var read := ReadRange(offset, length);
      if read.Lost? {
        return Failed(MemoryAccessOutOfLimits(offset, length));
      }
      r := OpcodeRevertImpl(read.data);
    }

    method OpcodeCreate(b: Backend, operands: nat, address: Address) returns (r: Signal)
      requires operands >= 3
      modifies this, state
      ensures Told(r, View()) == CreateOp(b, old(View()), operands, address)
    {
      if frame.isStatic || |frame.stack| < operands || !Usize(frame, 1) || !Usize(frame, 2) {
        return Failed(OtherFailure);
      }
      var value, offset, length := Operand(frame, 0), Operand(frame, 1), Operand(frame, 2);
      frame := Pop(frame, operands);
      var read := ReadRange(offset, length);
      if read.Lost? {
        return Failed(MemoryAccessOutOfLimits(offset, length));
      }
      r := OpcodeCreateImpl(b, address, value, read.data);
    }

    /** Reading the initialization code once more, as the source does here, finds it touched already. */
    method OpcodeCreateImpl(b: Backend, address: Address, value: Word, init: seq<Byte>) returns (r: Signal)
      modifies this, state
      ensures Told(r, View()) == CreateImpl(b, old(View()), address, value, init)
    {
      var creator := frame.contract;
      var nonce := state.Nonce(b.world, creator);
      if nonce.Err? || nonce.value >= U64_MAX {
        return Failed(OtherFailure);
      }
      state.Push(EvmIncrementNonce(creator));
      frame := frame.(returnData := [], returnOffset := 0, returnLength := 0);
      assert View() == Append(old(View()), [EvmIncrementNonce(creator)])
                       .(top := old(frame).(returnData := [], returnOffset := 0, returnLength := 0));
      r := CreateFrom(b, address, value, init);
    }

    method CreateFrom(b: Backend, address: Address, value: Word, init: seq<Byte>) returns (r: Signal)
      modifies this, state
      ensures Told(r, View()) == CreateCounted(b, old(View()), address, value, init)
    {
      var creator := frame.contract;
      var creatorCode := state.Code(b.world, creator);
      if !HasEofMagic(creatorCode) && HasEofMagic(init) {
        return Failed(OtherFailure);
      }
      if ForkFails(b, ByCreate, init) {
        return Failed(OtherFailure);
      }
      ForkForCreation(creator, address, value, init);
      r := StartCreation(b, creator, address, value);
    }

    method ForkForCreation(creator: Address, address: Address, value: Word, init: seq<Byte>)
      modifies this, state
      ensures View() == CallFrames.Snapshot(CallFrames.Fork(old(View()), ByCreate, creator, address, value, init, []))
    {
      Fork(ByCreate, creator, address, value, init, []);
      state.Snapshot();
    }

    /** The second half of the above, in the frame of the creation. */
    method StartCreation(b: Backend, creator: Address, address: Address, value: Word) returns (r: Signal)
      modifies this, state
      ensures Told(r, View()) ==
              if !Unused(b, old(View()), address) || !CanPay(b, old(View()), creator, value)
              then Raised(old(View()), OtherFailure)
              else Next(Transfer(Append(old(View()), [EvmIncrementNonce(address)]), creator, address, value), Noop)
    {
      var nonce := state.Nonce(b.world, address);
      var existing := state.Code(b.world, address);
      if nonce != Ok(0) || existing != [] {
        return Failed(OtherFailure);
      }
      var balance := state.Balance(b.world, creator);
      if balance.Err? || balance.value < value {
        return Failed(OtherFailure);
      }
      IncrementKeepsBalance(b, View(), creator, address);
      state.Push(EvmIncrementNonce(address));
      var _ := TransferTokens(b, creator, address, value);
      r := Proceed(Noop);
    }

    method OpcodeCallPrecompileImpl(b: Backend, address: Address, callee: Callee) returns (r: Signal)
      modifies this, state
      ensures Told(r, View()) == CallNative(b, old(View()), address, callee)
    {
      if callee.Ordinary? {
        return Proceed(Noop);
      }
      if NativeRefuses(frame, address, callee) {
        return Failed(OtherFailure);
      }
      state.actions := state.actions + Queue(callee.queued);
      if callee.output.None? {
        return Failed(OtherFailure);
      }
      ghost var before := old(View());
      assert state.actions + [] == state.actions;
      if callee.withdraws {
        state.Push(NeonWithdraw(frame.contract, frame.value));
      }
      assert View() == Append(before, NativeActions(before.top, callee));
      r := OpcodeReturnImpl(b, callee.output.value);
    }

    /** The operands of a call in order, its return range, and the call data read from memory. */
    method TakeCallOperands(hasValue: bool) returns (r: Prepared)
      modifies this`frame
      ensures r == PrepareCall(old(frame), hasValue)
      ensures frame == if r.Ready? then r.input.frame else r.frame
    {
      var n := if hasValue then 7 else 6;
      if |frame.stack| < n || !Usize(frame, n - 4) || !Usize(frame, n - 3) || !Usize(frame, n - 2)
        || !Usize(frame, n - 1) {
        return NotReady(frame, OtherFailure);
      }
      var address: Address := Operand(frame, 1) % ADDRESS_RANGE;
      var value: Word := if hasValue then Operand(frame, 2) else 0;
      var argsOffset, argsLength := Operand(frame, n - 4), Operand(frame, n - 3);
      var returnOffset, returnLength := Operand(frame, n - 2), Operand(frame, n - 1);
      frame := Pop(frame, n);
      frame := frame.(returnData := [], returnOffset := returnOffset,
                      returnLength := RangeLength(returnOffset, returnLength));
      var read := ReadRange(argsOffset, argsLength);
      if read.Lost? {
        return NotReady(frame, MemoryAccessOutOfLimits(argsOffset, argsLength));
      }
      r := Ready(CallInput(frame, address, value, read.data));
    }

    method OpcodeCall(b: Backend, callee: Callee) returns (r: Signal)
      modifies this, state
      ensures Told(r, View()) == CallOp(b, old(View()), callee)
    {
      var context := frame;
      var prepared := TakeCallOperands(true);
      if prepared.NotReady? {
        return Failed(prepared.error);
      }
      var input, caller := prepared.input, context.contract;
      var code := state.Code(b.world, input.address);
      if ForkFails(b, ByCall, code) {
        return Failed(OtherFailure);
      }
      Fork(ByCall, caller, input.address, input.value, code, input.data);
      state.Snapshot();
      if frame.isStatic && input.value != 0 {
        return Failed(OtherFailure);
      }
      var balance := state.Balance(b.world, caller);
      if balance.Err? || balance.value < input.value {
        return Failed(OtherFailure);
      }
      var _ := TransferTokens(b, caller, input.address, input.value);
      r := OpcodeCallPrecompileImpl(b, input.address, callee);
    }

    method OpcodeCallCode(b: Backend, callee: Callee) returns (r: Signal)
      modifies this, state
      ensures Told(r, View()) == CallCodeOp(b, old(View()), callee)
    {
      var context := frame;
      var prepared := TakeCallOperands(true);
      if prepared.NotReady? {
        return Failed(prepared.error);
      }
      var input, contract := prepared.input, context.contract;
      var code := state.Code(b.world, input.address);
      if ForkFails(b, ByCall, code) {
        return Failed(OtherFailure);
      }
      Fork(ByCall, contract, contract, input.value, code, input.data);
      state.Snapshot();
      var balance := state.Balance(b.world, contract);
      if balance.Err? || balance.value < input.value {
        return Failed(OtherFailure);
      }
      r := OpcodeCallPrecompileImpl(b, input.address, callee);
    }

    method OpcodeDelegateCall(b: Backend, callee: Callee) returns (r: Signal)
      modifies this, state
      ensures Told(r, View()) == DelegateCallOp(b, old(View()), callee)
    {
      var context := frame;
      var prepared := TakeCallOperands(false);
      if prepared.NotReady? {
        return Failed(prepared.error);
      }
      var input := prepared.input;
      var code := state.Code(b.world, input.address);
      if ForkFails(b, ByCall, code) {
        return Failed(OtherFailure);
      }
      Fork(ByCall, context.caller, context.contract, context.value, code, input.data);
      state.Snapshot();
      r := OpcodeCallPrecompileImpl(b, input.address, callee);
    }

    method OpcodeStaticCall(b: Backend, callee: Callee) returns (r: Signal)
      modifies this, state
      ensures Told(r, View()) == StaticCallOp(b, old(View()), callee)
    {
      var context := frame;
      var prepared := TakeCallOperands(false);
      if prepared.NotReady? {
        return Failed(prepared.error);
      }
      var input, caller := prepared.input, context.contract;
      var code := state.Code(b.world, input.address);
      if ForkFails(b, ByCall, code) {
        return Failed(OtherFailure);
      }
      Fork(ByCall, caller, input.address, 0, code, input.data);
      frame := frame.(isStatic := true);
      state.Snapshot();
      r := OpcodeCallPrecompileImpl(b, input.address, callee);
    }

    method OpcodeLog(topics: nat) returns (r: Signal)
      modifies this`frame
      ensures Told(r, View()) == LogOp(old(View()), topics)
    {
      if frame.isStatic || |frame.stack| < 2 || !Usize(frame, 0) || !Usize(frame, 1) {
        return Failed(OtherFailure);
      }
      var offset, length := Operand(frame, 0), Operand(frame, 1);
      frame := Pop(frame, 2);
      var read := ReadRange(offset, length);
      if read.Lost? {
        return Failed(MemoryAccessOutOfLimits(offset, length));
      }
      if |frame.stack| < topics {
        return Failed(OtherFailure);
      }
      frame := Pop(frame, topics);
      r := Proceed(Continue);
    }

    method GoOn(stack: seq<Word>, target: nat) returns (r: Signal)
      modifies this`frame
      ensures Told(r, View()) == ComputeOp(old(View()), stack, target)
    {
      if |stack| > OPERANDS {
        return Failed(OtherFailure);
      }
      frame := frame.(stack := stack);
      r := Proceed(Jump(target));
    }

    /** The opcodes that enter a frame. */
    method ExecuteCall(b: Backend, i: Instruction) returns (r: Signal)
      requires i.Create? || i.Create2? || i.Call? || i.CallCode? || i.DelegateCall? || i.StaticCall?
      modifies this, state
      ensures Told(r, View()) == Handle(b, old(View()), i)
    {
      match i {
        case Create(address) =>
          var nonce := state.Nonce(b.world, frame.contract);
          if nonce.Err? {
            return Failed(OtherFailure);
          }
          r := OpcodeCreate(b, 3, address);
        case Create2(address) => r := OpcodeCreate(b, 4, address);
        case Call(callee) => r := OpcodeCall(b, callee);
        case CallCode(callee) => r := OpcodeCallCode(b, callee);
        case DelegateCall(callee) => r := OpcodeDelegateCall(b, callee);
        case StaticCall(callee) => r := OpcodeStaticCall(b, callee);
      }
    }

    method ExecuteOpcode(b: Backend, i: Instruction) returns (r: Signal)
      modifies this, state
      ensures Told(r, View()) == Handle(b, old(View()), i)
    {
      match i {
        case Compute(stack, target) => r := GoOn(stack, target);
        case Load(offset, length, stack, target) =>
          var read := ReadRange(offset, length);
          if read.Lost? {
            return Failed(MemoryAccessOutOfLimits(offset, length));
          }
          r := GoOn(stack, target);
        case Store(offset, bytes, stack, target) =>
          var ok := WriteBytes(offset, bytes);
          if !ok {
            return Failed(MemoryAccessOutOfLimits(offset, |bytes|));
          }
          r := GoOn(stack, target);
        case Fault => r := Failed(OtherFailure);
        case SStore => r := OpcodeSStore();
        case Log(topics) => r := OpcodeLog(topics);
        case Return => r := OpcodeReturn(b);
        case Revert => r := OpcodeRevert();
        case SelfDestruct => r := OpcodeSelfDestruct(b);
        case Stop => r := OpcodeStop(Stopped);
        case _ => r := ExecuteCall(b, i);
      }
    }

    /** The body of the execution loop; `StepLimit` stands for going on. */
    method TakeStep(b: Backend, decode: Decode, ghost next: Machine -> Outcome) returns (r: Execution)
      requires Follows(next, b, decode)
      modifies this, state
      ensures Came(r, View()) == next(old(View()))
    {
      assert next(View()) == OwnStep(b, decode, View());
      var (i, message) := decode(View());
      var result := ExecuteOpcode(b, i);
      if result.Failed? {
        result := OpcodeRevertImpl(message);
        if result.Failed? {
          return Abort;
        }
      }
      if result == Panic {
        return Crash;
      }
      r := FollowFlow(result.flow);
    }

    method FollowFlow(flow: Flow) returns (r: Execution)
      modifies this`frame
      ensures Came(r, View()) == Advance(old(View()), flow)
    {
      r := StepLimit;
      match flow {
        case Continue => frame := frame.(pc := frame.pc + 1);
        case Noop =>
        case Jump(target) => frame := frame.(pc := target);
        case Stopped => r := Finish(Halt);
        case Returned(data) => r := Finish(Output(data));
        case Reverted(data) => r := Finish(RevertedWith(data));
        case Suicided => r := Finish(Suicide);
      }
    }

    /** `execute`: the number of steps counts the one that was not taken because of the limit. When the
        frame runs as a precompiled contract, `native` is that contract's answer. */
    method Execute(b: Backend, decode: Decode, native: Option<seq<Byte>>, limit: nat, ghost next: Machine -> Outcome)
      returns (r: Execution, steps: nat)
      requires Follows(next, b, decode)
      modifies this, state
      ensures native.Some? ==> steps == 0 && r != StepLimit && Came(r, View()) == NativeExit(old(View()), native.value)
      ensures native.None? ==> if r == StepLimit then steps == limit + 1 else 1 <= steps <= limit
      ensures native.None? ==> Came(r, View()) == After(next, old(View()), if r == StepLimit then limit else steps)
      ensures native.None? && r != StepLimit ==> After(next, old(View()), steps - 1).Running?
    {
      steps := 0;
      if native.Some? {
        var panicked := state.CommitSnapshot();
        return if panicked then Crash else Finish(Output(native.value)), steps;
      }
      while true
        invariant steps <= limit
        invariant After(next, old(View()), steps) == Running(View())
        decreases limit - steps
      {
        steps := steps + 1;
        if steps > limit {
          return StepLimit, steps;
        }
        r := TakeStep(b, decode, next);
        if r != StepLimit {
          return;
        }
      }
    }
  }

  /** A transaction sent to a precompiled contract ends before its first step. */
  function NativeExit(m: Machine, value: seq<Byte>): Outcome {
    match CommitSnapshot(m)
    case None => Crashed
    case Some(n) => Exited(n, Output(value))
  }

  function Came(r: Execution, m: Machine): Outcome {
    match r
    case Finish(status) => Exited(m, status)
    case StepLimit => Running(m)
    case Abort => Aborted
    case Crash => Crashed
  }

  lemma IncrementKeepsBalance(b: Backend, m: Machine, a: Address, address: Address)
    ensures JournalBalance(b, Append(m, [EvmIncrementNonce(address)]), a) == JournalBalance(b, m, a)
  {
    assert Init(m.log + [EvmIncrementNonce(address)]) == m.log;
  }
}
