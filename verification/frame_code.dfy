/** An address without code: frames that run as it have nothing to run, so no log deploys to it or
    destroys it. */
module FrameCode {
  import opened Opcodes
  import opened WordArithmetic
  import opened StorageLayout
  import opened Accounts
  import opened Journal
  import opened Apply
  import opened CallFrames
  import opened FrameLaws
  import FrameCoverage

  // ---- What is assumed of instructions ---------------------------------------------------------

  /** Reading past the end of the code gives STOP, so a frame without code does nothing else. */
  predicate Decoded(m: Machine, i: Instruction) {
    m.top.code == [] ==> i == Stop
  }

  /** Nobody creates at `c`, or creations there fail because its nonce has been used. */
  predicate Taken(b: Backend, m: Machine, i: Instruction, c: Address) {
    (i.Create? || i.Create2?) && i.address == c ==> JournalNonce(b, m, c) != Journal.Ok(0)
  }

  predicate Used(b: Backend, m: Machine, c: Address) {
    Nonce(b.world, c) > 0 || (m.log != [] && m.log[0] == EvmIncrementNonce(c))
  }

  /** A used nonce protects an address from creations. */
  lemma UsedIsTaken(b: Backend, m: Machine, c: Address)
    requires Used(b, m, c)
    ensures JournalNonce(b, m, c) != Journal.Ok(0)
  {
    if JournalNonce(b, m, c).Ok? {
      NonceGrows(Nonce(b.world, c), m.log, c);
    }
  }

  // ---- The invariant ---------------------------------------------------------------------------

  predicate LogClean(log: seq<Action>, c: Address) {
    Deployed(log, c) == None && c !in Destroyed(log)
  }

  predicate FrameClean(f: Frame, c: Address) {
    f.contract == c ==> f.code == [] && f.reason == ByCall
  }

  predicate FramesClean(frames: seq<Frame>, c: Address) {
    forall i :: 0 <= i < |frames| ==> FrameClean(frames[i], c)
  }

  predicate Clean(m: Machine, c: Address) {
    LogClean(m.log, c) && FrameClean(m.top, c) && FramesClean(m.parents, c)
  }

  /** A frame that raised an error is left anyway. */
  predicate CleanHandled(h: Handled, c: Address) {
    match h
    case Panicked => true
    case Next(m, _) => Clean(m, c)
    case Raised(m, _) => LogClean(m.log, c) && FramesClean(m.parents, c)
  }

  predicate Harmless(action: Action, c: Address) {
    (action.EvmSetCode? || action.EvmSelfDestruct?) ==> action.address != c
  }

  lemma AppendClean(log: seq<Action>, action: Action, c: Address)
    requires LogClean(log, c) && Harmless(action, c)
    ensures LogClean(log + [action], c)
  {
    assert Init(log + [action]) == log;
  }

  lemma {:induction false} PrefixClean(log: seq<Action>, n: nat, c: Address)
    requires n <= |log| && LogClean(log, c)
    ensures LogClean(log[..n], c)
    decreases |log|
  {
    if n == |log| {
      assert log[..n] == log;
    } else {
      assert Init(log)[..n] == log[..n];
      PrefixClean(Init(log), n, c);
    }
  }

  lemma {:induction false} QueueClean(log: seq<Action>, ids: seq<nat>, c: Address)
    requires LogClean(log, c)
    ensures LogClean(log + Queue(ids), c)
    decreases |ids|
  {
    if ids == [] {
      assert log + [] == log;
    } else {
      QueueClean(log, Init(ids), c);
      AppendClean(log + Queue(Init(ids)), ExternalInstruction(Last(ids)), c);
      assert log + Queue(ids) == log + Queue(Init(ids)) + [ExternalInstruction(Last(ids))];
    }
  }

  lemma TransferClean(m: Machine, source: Address, target: Address, value: Word, c: Address)
    requires LogClean(m.log, c)
    ensures LogClean(Transfer(m, source, target, value).log, c)
  {
    AppendClean(m.log, NeonTransfer(source, target, value), c);
  }

  // ---- Leaving frames --------------------------------------------------------------------------

  lemma DeliverClean(m: Machine, data: seq<Byte>, word: Word, c: Address)
    requires LogClean(m.log, c) && FramesClean(m.parents, c) && m.parents != []
    ensures CleanHandled(AfterCall(Join(m), data, word), c) && CleanHandled(AfterCreate(Join(m), word), c)
    ensures CleanHandled(WithReturnData(AfterCall(Join(m), data, word), data), c)
    ensures CleanHandled(WithReturnData(AfterCreate(Join(m), word), data), c)
  {
  }

  lemma LeaveClean(m: Machine, exit: Flow, c: Address)
    requires Clean(m, c)
    ensures CleanHandled(Leave(m, exit), c)
  {
    if m.marks != [] && m.parents != [] {
      DeliverClean(CommitSnapshot(m).value, [], 1, c);
      DeliverClean(CommitSnapshot(m).value, [], 0, c);
    }
  }

  lemma ReturnClean(b: Backend, m: Machine, data: seq<Byte>, c: Address)
    requires Clean(m, c)
    ensures CleanHandled(ReturnImpl(b, m, data), c)
  {
    var deployed := if m.top.reason == ByCreate then Append(m, [EvmSetCode(m.top.contract, data)]) else m;
    if m.top.reason == ByCreate {
      AppendClean(m.log, EvmSetCode(m.top.contract, data), c);
    }
    if m.marks != [] && m.parents != [] {
      DeliverClean(CommitSnapshot(deployed).value, if m.top.reason == ByCreate then [] else data, 1, c);
      DeliverClean(CommitSnapshot(deployed).value, data, m.top.contract, c);
    }
  }

  /** A revert leaves a clean machine, or the outermost frame with a clean log. */
  lemma RevertClean(m: Machine, data: seq<Byte>, c: Address)
    requires LogClean(m.log, c) && FramesClean(m.parents, c)
    ensures
      var h := RevertImpl(m, data);
      if m.parents != [] then CleanHandled(h, c)
      else h.Panicked? || (h.Next? && h.flow == Reverted(data) && LogClean(h.machine.log, c))
  {
    if RevertSnapshot(m).Some? {
      var n := RevertSnapshot(m).value;
      if Last(m.marks) <= |m.log| {
        PrefixClean(m.log, Last(m.marks), c);
      }
      if m.parents != [] {
        DeliverClean(n, data, 0, c);
      }
    }
  }

  // ---- Handlers of frames that run as someone else ----------------------------------------------

  lemma NativeClean(b: Backend, m: Machine, address: Address, callee: Callee, c: Address)
    requires Clean(m, c)
    ensures CleanHandled(CallNative(b, m, address, callee), c)
  {
    if callee.Native? && !NativeRefuses(m.top, address, callee) {
      QueueClean(m.log, callee.queued, c);
      if callee.output.Some? {
        var done := Append(m, NativeActions(m.top, callee));
        if callee.withdraws {
          AppendClean(m.log + Queue(callee.queued), NeonWithdraw(m.top.contract, m.top.value), c);
          assert done.log == m.log + Queue(callee.queued) + [NeonWithdraw(m.top.contract, m.top.value)];
        } else {
          assert done.log == m.log + Queue(callee.queued);
        }
        ReturnClean(b, done, callee.output.value, c);
      }
    }
  }

  lemma CodeOfClean(b: Backend, m: Machine, c: Address)
    requires Code(b.world, c) == [] && LogClean(m.log, c)
    ensures JournalCode(b, m, c) == []
  {
  }

  lemma PreparedSame(f: Frame, hasValue: bool)
    ensures
      match PrepareCall(f, hasValue)
      case Ready(input) => input.frame.contract == f.contract && input.frame.code == f.code
        && input.frame.reason == f.reason
      case NotReady(_, _) => true
  {
  }

  lemma EnteredClean(m: Machine, input: CallInput, caller: Address, contract: Address, value: Word, code: seq<Byte>,
                     c: Address)
    requires Clean(m, c) && FrameClean(input.frame, c) && (contract == c ==> code == [])
    ensures Clean(Enter(m, input, caller, contract, value, code), c)
  {
  }

  lemma CallClean(b: Backend, m: Machine, callee: Callee, c: Address)
    requires Clean(m, c) && Code(b.world, c) == []
    ensures CleanHandled(CallOp(b, m, callee), c)
  {
    PreparedSame(m.top, true);
    if PrepareCall(m.top, true).Ready? {
      var input := PrepareCall(m.top, true).input;
      var code := JournalCode(b, m, input.address);
      CodeOfClean(b, m, c);
      EnteredClean(m, input, m.top.contract, input.address, input.value, code, c);
      var n := Enter(m, input, m.top.contract, input.address, input.value, code);
      TransferClean(n, m.top.contract, input.address, input.value, c);
      NativeClean(b, Transfer(n, m.top.contract, input.address, input.value), input.address, callee, c);
    }
  }

  lemma CallCodeClean(b: Backend, m: Machine, callee: Callee, c: Address)
    requires Clean(m, c) && m.top.contract != c
    ensures CleanHandled(CallCodeOp(b, m, callee), c)
  {
    PreparedSame(m.top, true);
    if PrepareCall(m.top, true).Ready? {
      var input := PrepareCall(m.top, true).input;
      var code := JournalCode(b, m, input.address);
      EnteredClean(m, input, m.top.contract, m.top.contract, input.value, code, c);
      NativeClean(b, Enter(m, input, m.top.contract, m.top.contract, input.value, code), input.address, callee, c);
    }
  }

  lemma DelegateCallClean(b: Backend, m: Machine, callee: Callee, c: Address)
    requires Clean(m, c) && m.top.contract != c
    ensures CleanHandled(DelegateCallOp(b, m, callee), c)
  {
    PreparedSame(m.top, false);
    if PrepareCall(m.top, false).Ready? {
      var input := PrepareCall(m.top, false).input;
      var code := JournalCode(b, m, input.address);
      EnteredClean(m, input, m.top.caller, m.top.contract, m.top.value, code, c);
      NativeClean(b, Enter(m, input, m.top.caller, m.top.contract, m.top.value, code), input.address, callee, c);
    }
  }

  lemma StaticCallClean(b: Backend, m: Machine, callee: Callee, c: Address)
    requires Clean(m, c) && Code(b.world, c) == []
    ensures CleanHandled(StaticCallOp(b, m, callee), c)
  {
    PreparedSame(m.top, false);
    if PrepareCall(m.top, false).Ready? {
      var input := PrepareCall(m.top, false).input;
      var code := JournalCode(b, m, input.address);
      CodeOfClean(b, m, c);
      EnteredClean(m, input, m.top.contract, input.address, 0, code, c);
      var n := Enter(m, input, m.top.contract, input.address, 0, code);
      NativeClean(b, n.(top := n.top.(isStatic := true)), input.address, callee, c);
    }
  }

  lemma CreateImplClean(b: Backend, m: Machine, address: Address, value: Word, init: seq<Byte>, c: Address)
    requires Clean(m, c) && (address == c ==> JournalNonce(b, m, c) != Journal.Ok(0))
    ensures CleanHandled(CreateImpl(b, m, address, value, init), c)
  {
    if !NonceSpent(b, m) {
      var top := m.top.(returnData := [], returnOffset := 0, returnLength := 0);
      var counted := Append(m, [EvmIncrementNonce(m.top.contract)]).(top := top);
      AppendClean(m.log, EvmIncrementNonce(m.top.contract), c);
      if address == c {
        CountedStays(b, m, m.top.contract, c);
      }
      CreateCountedClean(b, counted, address, value, init, c);
    }
  }

  lemma CreateCountedClean(b: Backend, m: Machine, address: Address, value: Word, init: seq<Byte>, c: Address)
    requires Clean(m, c) && (address == c ==> JournalNonce(b, m, c) != Journal.Ok(0))
    ensures CleanHandled(CreateCounted(b, m, address, value, init), c)
  {
    var forked := Snapshot(Fork(m, ByCreate, m.top.contract, address, value, init, []));
    assert FramesClean(forked.parents, c) && forked.log == m.log;
    if address == c {
      assert JournalNonce(b, forked, c) == JournalNonce(b, m, c);
    } else {
      CreatedClean(m, forked, address, value, c);
    }
  }

  /** The entered frame of a creation elsewhere. */
  lemma CreatedClean(counted: Machine, forked: Machine, address: Address, value: Word, c: Address)
    requires Clean(counted, c) && address != c && forked.log == counted.log && forked.top.contract == address
    requires forked.parents == counted.parents + [counted.top]
    ensures Clean(forked, c)
    ensures Clean(Transfer(Append(forked, [EvmIncrementNonce(address)]), counted.top.contract, address, value), c)
  {
    AppendClean(forked.log, EvmIncrementNonce(address), c);
    TransferClean(Append(forked, [EvmIncrementNonce(address)]), counted.top.contract, address, value, c);
  }

  lemma CountedStays(b: Backend, m: Machine, creator: Address, c: Address)
    requires JournalNonce(b, m, c) != Journal.Ok(0)
    ensures JournalNonce(b, Append(m, [EvmIncrementNonce(creator)]), c) != Journal.Ok(0)
  {
    assert Init(m.log + [EvmIncrementNonce(creator)]) == m.log;
  }

  lemma CreateClean(b: Backend, m: Machine, operands: nat, address: Address, c: Address)
    requires Clean(m, c) && operands >= 3 && (address == c ==> JournalNonce(b, m, c) != Journal.Ok(0))
    ensures CleanHandled(CreateOp(b, m, operands, address), c)
  {
    if !(m.top.isStatic || |m.top.stack| < operands || !Usize(m.top, 1) || !Usize(m.top, 2)) {
      match ReadBuffer(Pop(m.top, operands), Operand(m.top, 1), Operand(m.top, 2))
      case Lost(_) =>
      case Got(f, init) => CreateImplClean(b, m.(top := f), address, Operand(m.top, 0), init, c);
    }
  }

  lemma SelfDestructClean(b: Backend, m: Machine, c: Address)
    requires Clean(m, c) && m.top.contract != c
    ensures CleanHandled(SelfDestructOp(b, m), c)
  {
    if !(m.top.isStatic || |m.top.stack| < 1) {
      var n := m.(top := Pop(m.top, 1));
      var balance := JournalBalance(b, n, m.top.contract);
      if balance.Ok? {
        var heir := Operand(m.top, 0) % ADDRESS_RANGE;
        var t := Transfer(n, m.top.contract, heir, balance.value);
        TransferClean(n, m.top.contract, heir, balance.value, c);
        AppendClean(t.log, EvmSelfDestruct(m.top.contract), c);
        LeaveClean(Append(t, [EvmSelfDestruct(m.top.contract)]), Suicided, c);
      }
    }
  }

  lemma ReturnOpClean(b: Backend, m: Machine, c: Address)
    requires Clean(m, c)
    ensures CleanHandled(ReturnOp(b, m), c)
  {
    if |m.top.stack| >= 2 && Usize(m.top, 0) && Usize(m.top, 1) {
      var read := ReadBuffer(Pop(m.top, 2), Operand(m.top, 0), Operand(m.top, 1));
      if read.Got? {
        ReturnClean(b, m.(top := read.frame), read.data, c);
      }
    }
  }

  /** REVERT leaves the outermost frame with a clean log, or a clean machine. */
  lemma RevertOpClean(m: Machine, c: Address)
    requires Clean(m, c)
    ensures
      var h := RevertOp(m);
      CleanHandled(h, c) || (h.Next? && h.flow.Reverted? && LogClean(h.machine.log, c))
  {
    if |m.top.stack| >= 2 && Usize(m.top, 0) && Usize(m.top, 1) {
      var read := ReadBuffer(Pop(m.top, 2), Operand(m.top, 0), Operand(m.top, 1));
      if read.Got? {
        RevertClean(m.(top := read.frame), read.data, c);
      }
    }
  }

  lemma HandleClean(b: Backend, m: Machine, i: Instruction, c: Address)
    requires Clean(m, c) && Code(b.world, c) == [] && Decoded(m, i) && Taken(b, m, i, c) && i != Revert
    ensures CleanHandled(Handle(b, m, i), c)
  {
    if m.top.contract == c {
      LeaveClean(m, Stopped, c);
    } else {
      match i
      case SStore =>
        if SStoreOp(m).Next? {
          AppendClean(m.log, Last(SStoreOp(m).machine.log), c);
        }
      case Return => ReturnOpClean(b, m, c);
      case SelfDestruct => SelfDestructClean(b, m, c);
      case Stop => LeaveClean(m, Stopped, c);
      case _ =>
        if EntersFrames(i) {
          EntersClean(b, m, i, c);
        } else {
          QuietClean(b, m, i, c);
        }
    }
  }

  lemma EntersClean(b: Backend, m: Machine, i: Instruction, c: Address)
    requires Clean(m, c) && Code(b.world, c) == [] && Taken(b, m, i, c) && m.top.contract != c && EntersFrames(i)
    ensures CleanHandled(Handle(b, m, i), c)
  {
    if i.Create? {
      CreateClean(b, m, 3, i.address, c);
    } else if i.Create2? {
      CreateClean(b, m, 4, i.address, c);
    } else {
      CallsClean(b, m, i, c);
    }
  }

  lemma CallsClean(b: Backend, m: Machine, i: Instruction, c: Address)
    requires Clean(m, c) && Code(b.world, c) == [] && m.top.contract != c
    requires i.Call? || i.CallCode? || i.DelegateCall? || i.StaticCall?
    ensures CleanHandled(Handle(b, m, i), c)
  {
    match i
    case Call(callee) => CallClean(b, m, callee, c);
    case CallCode(callee) => CallCodeClean(b, m, callee, c);
    case DelegateCall(callee) => DelegateCallClean(b, m, callee, c);
    case StaticCall(callee) => StaticCallClean(b, m, callee, c);
  }

  lemma QuietClean(b: Backend, m: Machine, i: Instruction, c: Address)
    requires Clean(m, c) && (i.Compute? || i.Load? || i.Store? || i.Fault? || i.Log?)
    ensures CleanHandled(Handle(b, m, i), c)
  {
  }

  /** A step leaves a clean machine running, or exits with a clean log. */
  lemma StepClean(b: Backend, m: Machine, i: Instruction, message: seq<Byte>, c: Address)
    requires Clean(m, c) && Code(b.world, c) == [] && Decoded(m, i) && Taken(b, m, i, c)
    ensures
      match CallFrames.Step(b, m, i, message)
      case Running(n) => Clean(n, c)
      case Exited(n, _) => LogClean(n.log, c)
      case _ => true
  {
    if i == Revert {
      RevertOpClean(m, c);
    } else {
      HandleClean(b, m, i, c);
    }
    RecoverClean(Handle(b, m, i), message, c);
  }

  lemma RecoverClean(h: Handled, message: seq<Byte>, c: Address)
    requires CleanHandled(h, c) || (h.Next? && h.flow.Reverted? && LogClean(h.machine.log, c))
    ensures
      match Recover(h, message)
      case Running(n) => Clean(n, c)
      case Exited(n, _) => LogClean(n.log, c)
      case _ => true
  {
    if h.Raised? {
      RevertClean(h.machine, message, c);
    }
  }

  // ---- Whole runs ------------------------------------------------------------------------------

  /** A run whose backend may be another one at every step: between the iterations of a transaction gas is
      paid, tokens are deposited, and accounts that the transaction does not hold change. */
  function Ran(bs: seq<Backend>, m: Machine, trace: Trace): CallFrames.Outcome
    requires |bs| == |trace|
    decreases |trace|
  {
    if trace == [] then Running(m) else
      match Ran(Init(bs), m, Init(trace))
      case Running(n) => CallFrames.Step(Last(bs), n, Last(trace).0, Last(trace).1)
      case o => o
  }

  function Same(b: Backend, n: nat): seq<Backend> {
    seq(n, _ => b)
  }

  lemma {:induction false} OneBackend(b: Backend, m: Machine, trace: Trace)
    ensures Ran(Same(b, |trace|), m, trace) == Run(b, m, trace)
    decreases |trace|
  {
    if trace != [] {
      assert Init(Same(b, |trace|)) == Same(b, |trace| - 1);
      OneBackend(b, m, Init(trace));
    }
  }

  lemma {:induction false} RanKeeps(bs: seq<Backend>, m: Machine, trace: Trace)
    requires |bs| == |trace| && Good(m)
    ensures
      var o := Ran(bs, m, trace);
      && (o.Running? ==> Good(o.machine) && o.machine.log[0] == m.log[0])
      && (o.Exited? ==> FrameLaws.Finished(o.machine) && o.machine.log[0] == m.log[0])
    decreases |trace|
  {
    if trace != [] {
      RanKeeps(Init(bs), m, Init(trace));
      var before := Ran(Init(bs), m, Init(trace));
      if before.Running? {
        StepKeeps(Last(bs), before.machine, Last(trace).0, Last(trace).1, 0);
        SameStart(before.machine, CallFrames.Step(Last(bs), before.machine, Last(trace).0, Last(trace).1));
      }
    }
  }

  predicate AllCodeless(bs: seq<Backend>, c: Address) {
    forall i :: 0 <= i < |bs| ==> Code(bs[i].world, c) == []
  }

  /** Frames without code only stop, and nothing is created at `c` while its nonce is unused. */
  predicate Sensible(bs: seq<Backend>, m: Machine, trace: Trace, c: Address)
    requires |bs| == |trace|
    decreases |trace|
  {
    trace != [] ==>
      && Sensible(Init(bs), m, Init(trace), c)
      && (Ran(Init(bs), m, Init(trace)).Running? ==>
          var n := Ran(Init(bs), m, Init(trace)).machine;
          Decoded(n, Last(trace).0) && (Used(Last(bs), n, c) || Taken(Last(bs), n, Last(trace).0, c)))
  }

  predicate CleanOutcome(o: CallFrames.Outcome, c: Address) {
    match o
    case Running(n) => Clean(n, c)
    case Exited(n, _) => LogClean(n.log, c)
    case _ => true
  }

  lemma {:induction false} RunClean(bs: seq<Backend>, m: Machine, trace: Trace, c: Address)
    requires |bs| == |trace| && Clean(m, c) && AllCodeless(bs, c) && Sensible(bs, m, trace, c)
    ensures CleanOutcome(Ran(bs, m, trace), c)
    decreases |trace|
  {
    if trace != [] {
      var b := bs[|bs| - 1];
      RunClean(Init(bs), m, Init(trace), c);
      var before := Ran(Init(bs), m, Init(trace));
      if before.Running? {
        if Used(b, before.machine, c) {
          UsedIsTaken(b, before.machine, c);
        }
        StepClean(b, before.machine, Last(trace).0, Last(trace).1, c);
      }
    }
  }

  lemma NewMachineClean(b: Backend, chainId: Word, trx: Transaction, origin: Address, created: Address, c: Address)
    requires NewMachine(b, chainId, trx, origin, created).Some? && Code(b.world, c) == []
    requires trx.target.None? ==> created != c
    ensures Clean(NewMachine(b, chainId, trx, origin, created).value, c)
  {
    var first := [EvmIncrementNonce(origin)];
    assert LogClean([], c);
    AppendClean([], EvmIncrementNonce(origin), c);
    assert [] + first == first;
    AppendClean(first, EvmIncrementNonce(created), c);
    assert first + [EvmIncrementNonce(created)] == [EvmIncrementNonce(origin), EvmIncrementNonce(created)];
    var m := NewMachine(b, chainId, trx, origin, created).value;
    var start := m.(log := if trx.target.Some? then first else first + [EvmIncrementNonce(created)]);
    TransferClean(start, origin, if trx.target.Some? then trx.target.value else created, trx.value, c);
  }

  /** Whatever a transaction runs, its log neither deploys to nor destroys an address that carries no
      code. */
  lemma CodelessIsSpared(b: Backend, bs: seq<Backend>, chainId: Word, trx: Transaction, origin: Address,
                         created: Address, trace: Trace, c: Address)
    requires NewMachine(b, chainId, trx, origin, created).Some? && Code(b.world, c) == []
    requires |bs| == |trace| && AllCodeless(bs, c) && (trx.target.None? ==> created != c)
    requires
      var m := NewMachine(b, chainId, trx, origin, created).value;
      Sensible(bs, m, trace, c) && Ran(bs, m, trace).Exited?
    ensures LogClean(Ran(bs, NewMachine(b, chainId, trx, origin, created).value, trace).machine.log, c)
  {
    NewMachineClean(b, chainId, trx, origin, created, c);
    RunClean(bs, NewMachine(b, chainId, trx, origin, created).value, trace, c);
  }

  /** The origin needs nothing said about creations: its own nonce increment protects it. */
  lemma OriginIsUsed(b: Backend, bs: seq<Backend>, chainId: Word, trx: Transaction, origin: Address,
                     created: Address, trace: Trace, now: Backend)
    requires NewMachine(b, chainId, trx, origin, created).Some? && |bs| == |trace|
    ensures
      var o := Ran(bs, NewMachine(b, chainId, trx, origin, created).value, trace);
      o.Running? ==> Used(now, o.machine, origin)
  {
    FrameCoverage.NewMachineGood(b, chainId, trx, origin, created);
    RanKeeps(bs, NewMachine(b, chainId, trx, origin, created).value, trace);
  }

  /** In every machine of the run, a frame without code only stops. */
  predicate AllDecoded(bs: seq<Backend>, m: Machine, trace: Trace)
    requires |bs| == |trace|
    decreases |trace|
  {
    trace != [] ==>
      && AllDecoded(Init(bs), m, Init(trace))
      && (Ran(Init(bs), m, Init(trace)).Running? ==>
          Decoded(Ran(Init(bs), m, Init(trace)).machine, Last(trace).0))
  }

  lemma {:induction false} OriginSensible(b: Backend, bs: seq<Backend>, chainId: Word, trx: Transaction,
                                          origin: Address, created: Address, trace: Trace)
    requires NewMachine(b, chainId, trx, origin, created).Some? && |bs| == |trace|
    requires AllDecoded(bs, NewMachine(b, chainId, trx, origin, created).value, trace)
    ensures Sensible(bs, NewMachine(b, chainId, trx, origin, created).value, trace, origin)
    decreases |trace|
  {
    if trace != [] {
      OriginSensible(b, Init(bs), chainId, trx, origin, created, Init(trace));
      OriginIsUsed(b, Init(bs), chainId, trx, origin, created, Init(trace), Last(bs));
    }
  }

  /** No transaction deploys to its origin or destroys it, provided its account carries no code. */
  lemma OriginIsSpared(b: Backend, bs: seq<Backend>, chainId: Word, trx: Transaction, origin: Address,
                       created: Address, trace: Trace)
    requires NewMachine(b, chainId, trx, origin, created).Some? && (trx.target.None? ==> created != origin)
    requires |bs| == |trace| && AllCodeless(bs, origin)
    requires
      var m := NewMachine(b, chainId, trx, origin, created).value;
      AllDecoded(bs, m, trace) && Ran(bs, m, trace).Exited?
    ensures LogClean(Ran(bs, NewMachine(b, chainId, trx, origin, created).value, trace).machine.log, origin)
  {
    OriginSensible(b, bs, chainId, trx, origin, created, trace);
    CodelessIsSpared(b, bs, chainId, trx, origin, created, trace, origin);
  }
}
