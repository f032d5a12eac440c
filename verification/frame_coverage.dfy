/** Where calls start and end in the log, and that every reachable log is covered by balances. */
module FrameCoverage {
  import opened Opcodes
  import opened WordArithmetic
  import opened StorageLayout
  import opened Accounts
  import opened Ledgers
  import opened Journal
  import opened CallFrames
  import opened FrameLaws

  // ---- Entering a frame ------------------------------------------------------------------------

  /** What the calling frame itself logs before the snapshot: creators count their nonce. */
  function OwnPart(m: Machine, i: Instruction): seq<Action> {
    if i.Create? || i.Create2? then [EvmIncrementNonce(m.top.contract)] else []
  }

  /** A frame entered by `i` has its mark right after the caller's own part. */
  predicate EntersAt(m: Machine, own: seq<Action>, h: Handled) {
    !h.Panicked? && Depth(h.machine) > Depth(m) ==>
      && Depth(h.machine) == Depth(m) + 1
      && h.machine.marks == m.marks + [|m.log + own|]
      && m.log + own <= h.machine.log
  }

  lemma NativeEnters(b: Backend, m: Machine, n: Machine, address: Address, callee: Callee)
    requires Depth(n) == Depth(m) + 1 && EntersAt(m, [], Raised(n, OtherFailure))
    ensures EntersAt(m, [], CallNative(b, n, address, callee))
  {
  }

  lemma CallEnters(b: Backend, m: Machine, callee: Callee)
    ensures EntersAt(m, [], CallOp(b, m, callee))
  {
    if PrepareCall(m.top, true).Ready? {
      var input := PrepareCall(m.top, true).input;
      var n := Enter(m, input, m.top.contract, input.address, input.value, JournalCode(b, m, input.address));
      assert EntersAt(m, [], Raised(n, OtherFailure));
      NativeEnters(b, m, Transfer(n, m.top.contract, input.address, input.value), input.address, callee);
    }
  }

  lemma CallCodeEnters(b: Backend, m: Machine, callee: Callee)
    ensures EntersAt(m, [], CallCodeOp(b, m, callee))
  {
    if PrepareCall(m.top, true).Ready? {
      var input := PrepareCall(m.top, true).input;
      var n := Enter(m, input, m.top.contract, m.top.contract, input.value, JournalCode(b, m, input.address));
      NativeEnters(b, m, n, input.address, callee);
    }
  }

  lemma DelegateCallEnters(b: Backend, m: Machine, callee: Callee)
    ensures EntersAt(m, [], DelegateCallOp(b, m, callee))
  {
    if PrepareCall(m.top, false).Ready? {
      var input := PrepareCall(m.top, false).input;
      var n := Enter(m, input, m.top.caller, m.top.contract, m.top.value, JournalCode(b, m, input.address));
      NativeEnters(b, m, n, input.address, callee);
    }
  }

  lemma StaticCallEnters(b: Backend, m: Machine, callee: Callee)
    ensures EntersAt(m, [], StaticCallOp(b, m, callee))
    ensures EntersQuietly(m, StaticCallOp(b, m, callee))
  {
    if PrepareCall(m.top, false).Ready? {
      var input := PrepareCall(m.top, false).input;
      var n := Entered(m, input, m.top.contract, input.address, 0, JournalCode(b, m, input.address), true);
      NativeEnters(b, m, n, input.address, callee);
    }
  }

  lemma CreateEnters(b: Backend, m: Machine, operands: nat, address: Address)
    requires operands >= 3
    ensures EntersAt(m, [EvmIncrementNonce(m.top.contract)], CreateOp(b, m, operands, address))
  {
    var h := CreateOp(b, m, operands, address);
    if !h.Panicked? && Depth(h.machine) > Depth(m) {
      var read := ReadBuffer(Pop(m.top, operands), Operand(m.top, 1), Operand(m.top, 2));
      CreateImplEnters(b, m, m.(top := read.frame), address, Operand(m.top, 0), read.data);
    }
  }

  lemma CreateImplEnters(b: Backend, m: Machine, p: Machine, address: Address, value: Word, init: seq<Byte>)
    requires p == m.(top := p.top) && p.top.contract == m.top.contract
    ensures EntersAt(m, [EvmIncrementNonce(m.top.contract)], CreateImpl(b, p, address, value, init))
  {
  }

  lemma HandleEnters(b: Backend, m: Machine, i: Instruction)
    requires Good(m)
    ensures EntersAt(m, OwnPart(m, i), Handle(b, m, i))
  {
    if EntersFrames(i) {
      FramesEnter(b, m, i);
    } else if i == Revert {
      HandleCourse(b, m, i);
    } else {
      OthersStay(b, m, i);
    }
  }

  lemma FramesEnter(b: Backend, m: Machine, i: Instruction)
    requires EntersFrames(i)
    ensures EntersAt(m, OwnPart(m, i), Handle(b, m, i))
  {
    match i
    case Create(address) => CreateEnters(b, m, 3, address);
    case Create2(address) => CreateEnters(b, m, 4, address);
    case Call(callee) => CallEnters(b, m, callee);
    case CallCode(callee) => CallCodeEnters(b, m, callee);
    case DelegateCall(callee) => DelegateCallEnters(b, m, callee);
    case StaticCall(callee) => StaticCallEnters(b, m, callee);
  }

  lemma OthersStay(b: Backend, m: Machine, i: Instruction)
    requires !EntersFrames(i) && i != Revert
    ensures Stays(m, Handle(b, m, i))
  {
    match i
    case Return => ReturnOpStays(b, m);
    case SelfDestruct => SelfDestructStays(b, m);
    case Stop => LeaveStays(m, Stopped);
    case _ =>
  }

  predicate Stays(m: Machine, h: Handled) {
    h.Panicked? || Depth(h.machine) <= Depth(m)
  }

  lemma LeaveStays(m: Machine, exit: Flow)
    ensures Stays(m, Leave(m, exit))
  {
  }

  lemma ReturnOpStays(b: Backend, m: Machine)
    ensures Stays(m, ReturnOp(b, m))
  {
  }

  lemma SelfDestructStays(b: Backend, m: Machine)
    ensures Stays(m, SelfDestructOp(b, m))
  {
  }

  /** A call or creation that fails at once leaves nothing but the caller's own part. */
  lemma FailedEntryIsAtomic(b: Backend, m: Machine, i: Instruction, message: seq<Byte>)
    requires Good(m) && Handle(b, m, i).Raised? && Depth(Handle(b, m, i).machine) == Depth(m) + 1
    requires Step(b, m, i, message).Running? && Depth(Step(b, m, i, message).machine) == Depth(m)
    ensures Step(b, m, i, message).machine.log == m.log + OwnPart(m, i)
  {
    HandleEnters(b, m, i);
    HandleCourse(b, m, i);
    RevertRolls(Handle(b, m, i).machine, message);
  }

  /** A step that enters a frame. */
  predicate Enters(b: Backend, m: Machine, i: Instruction, message: seq<Byte>) {
    Step(b, m, i, message).Running? && Depth(Step(b, m, i, message).machine) == Depth(m) + 1
  }

  /** A call or creation that is entered, runs for as long as it likes with any nested activity, and is
      then left by a revert leaves the log as it was before the call, apart from the creator's nonce. If
      callers are reverted along with it, the log is as it was at the outermost one's snapshot. */
  lemma RevertedCallRestoresLog(b: Backend, m: Machine, i: Instruction, message: seq<Byte>, trace: Trace,
                                last: Instruction, reason: seq<Byte>)
    requires Good(m) && Enters(b, m, i, message)
    requires
      var entered := Step(b, m, i, message).machine;
      && StaysAbove(b, entered, trace, Depth(m))
      && LeavesByRevert(b, Run(b, entered, trace).machine, last, reason)
    ensures
      var after := Step(b, Run(b, Step(b, m, i, message).machine, trace).machine, last, reason).machine;
      && (Depth(after) == Depth(m) ==> after.log == m.log + OwnPart(m, i))
      && (Depth(after) < Depth(m) ==>
          m.marks[Depth(after)] <= |m.log| && after.log == m.log[..m.marks[Depth(after)]])
  {
    var entered := Step(b, m, i, message).machine;
    StepKeeps(b, m, i, message, Depth(m) - 1);
    EnteredMark(b, m, i, message);
    var after := Step(b, Run(b, entered, trace).machine, last, reason).machine;
    if Depth(after) <= Depth(m) {
      RevertedCallIsAtomic(b, entered, trace, last, reason);
      RestoredCut(m, entered, OwnPart(m, i), Depth(after), after.log);
    }
  }

  lemma RestoredCut(m: Machine, entered: Machine, own: seq<Action>, k: nat, log: seq<Action>)
    requires Good(m) && Good(entered) && Below(m, entered, Depth(m) - 1) && k <= Depth(m) < |entered.marks|
    requires entered.marks[Depth(m)] == |m.log + own| && m.log + own <= entered.log
    requires entered.marks[k] <= |entered.log| && log == entered.log[..entered.marks[k]]
    ensures k == Depth(m) ==> log == m.log + own
    ensures k < Depth(m) ==> m.marks[k] <= |m.log| && log == m.log[..m.marks[k]]
  {
    if k < Depth(m) {
      SameCut(m, entered, Depth(m) - 1, k);
    }
  }

  /** A revert never enters a frame. */
  lemma RevertsDoNotEnter(via: Machine, h: Handled)
    requires Rolls(via, h) && h.Next? && h.flow == Continue
    ensures Depth(h.machine) < Depth(via)
  {
  }

  lemma EnteredByHandler(b: Backend, m: Machine, i: Instruction, message: seq<Byte>)
    requires Good(m) && Enters(b, m, i, message)
    ensures i != Revert && Handle(b, m, i).Next? && Behaves(m, Handle(b, m, i))
  {
    HandleEnters(b, m, i);
    HandleCourse(b, m, i);
    EnteringCourse(m, i, Handle(b, m, i), message);
  }

  lemma EnteringCourse(m: Machine, i: Instruction, h: Handled, message: seq<Byte>)
    requires Good(m) && Course(m, i, h) && EntersAt(m, OwnPart(m, i), h)
    requires Recover(h, message).Running? && Depth(Recover(h, message).machine) == Depth(m) + 1
    ensures i != Revert && h.Next?
  {
    if h.Raised? {
      RevertRolls(h.machine, message);
      RevertsDoNotEnter(h.machine, RevertImpl(h.machine, message));
    } else if i == Revert && h.flow == Continue {
      RevertsDoNotEnter(m, h);
    }
  }

  lemma EnteredMark(b: Backend, m: Machine, i: Instruction, message: seq<Byte>)
    requires Good(m) && Enters(b, m, i, message)
    ensures
      var entered := Step(b, m, i, message).machine;
      && |entered.marks| == Depth(m) + 1 && entered.marks[Depth(m)] == |m.log + OwnPart(m, i)|
      && m.log + OwnPart(m, i) <= entered.log
  {
    HandleEnters(b, m, i);
    EnteredByHandler(b, m, i, message);
    MarkAtEntry(m, OwnPart(m, i), Handle(b, m, i), message);
  }

  lemma MarkAtEntry(m: Machine, own: seq<Action>, h: Handled, message: seq<Byte>)
    requires Good(m) && EntersAt(m, own, h) && h.Next? && Recover(h, message).Running?
    requires Depth(Recover(h, message).machine) == Depth(m) + 1
    ensures
      var entered := Recover(h, message).machine;
      && entered.marks == m.marks + [|m.log + own|] && |m.marks| == Depth(m) && m.log + own <= entered.log
  {
  }

  /** A static call that is entered logs nothing however long it runs, and however it ends: when control
      is back in the calling frame the log is what it was before the call. */
  lemma StaticCallLeavesLog(b: Backend, m: Machine, callee: Callee, message: seq<Byte>, trace: Trace, last: Instruction,
                            reason: seq<Byte>)
    requires Good(m) && Enters(b, m, StaticCall(callee), message)
    requires
      var entered := Step(b, m, StaticCall(callee), message).machine;
      && StaysAbove(b, entered, trace, Depth(m))
      && Step(b, Run(b, entered, trace).machine, last, reason).Running?
    ensures
      var n := Run(b, Step(b, m, StaticCall(callee), message).machine, trace).machine;
      var after := Step(b, n, last, reason).machine;
      && n.log == m.log
      && (Depth(after) == Depth(m) ==> after.log == m.log)
      && (Depth(after) < Depth(m) ==>
          m.marks[Depth(after)] <= |m.log| && after.log == m.log[..m.marks[Depth(after)]])
  {
    var i := StaticCall(callee);
    var entered := Step(b, m, i, message).machine;
    StepKeeps(b, m, i, message, Depth(m) - 1);
    StaticEntry(b, m, callee, message);
    StaticRunIsQuiet(b, entered, trace);
    RunBelow(b, entered, trace, Depth(m));
    var n := Run(b, entered, trace).machine;
    var after := Step(b, n, last, reason).machine;
    if Depth(after) <= Depth(m) {
      if LeavesByRevert(b, n, last, reason) {
        RevertedCallRestoresLog(b, m, i, message, trace, last, reason);
        assert m.log + [] == m.log;
      } else {
        LeftAtOnce(b, n, last, reason);
      }
    }
  }

  lemma StaticEntry(b: Backend, m: Machine, callee: Callee, message: seq<Byte>)
    requires Good(m) && Enters(b, m, StaticCall(callee), message)
    ensures
      var entered := Step(b, m, StaticCall(callee), message).machine;
      entered.log == m.log && entered.top.isStatic
  {
    var i := StaticCall(callee);
    StaticHandled(b, m, callee);
    EnteredByHandler(b, m, i, message);
    QuietEntry(m, Handle(b, m, i), message);
  }

  predicate EntersQuietly(m: Machine, h: Handled) {
    h.Next? && Depth(h.machine) > Depth(m) ==> h.machine.top.isStatic && h.machine.log == m.log
  }

  lemma StaticHandled(b: Backend, m: Machine, callee: Callee)
    ensures EntersQuietly(m, Handle(b, m, StaticCall(callee)))
  {
    StaticCallEnters(b, m, callee);
  }

  lemma QuietEntry(m: Machine, h: Handled, message: seq<Byte>)
    requires Behaves(m, h) && h.Next? && Recover(h, message).Running?
    requires EntersQuietly(m, h)
    requires Depth(Recover(h, message).machine) == Depth(m) + 1
    ensures Recover(h, message).machine.top.isStatic && Recover(h, message).machine.log == m.log
  {
  }

  /** Leaving a static frame without a revert goes one level up and does not touch the log. */
  lemma LeftAtOnce(b: Backend, n: Machine, i: Instruction, message: seq<Byte>)
    requires Good(n) && n.top.isStatic && Step(b, n, i, message).Running? && !LeavesByRevert(b, n, i, message)
    requires Depth(Step(b, n, i, message).machine) < Depth(n)
    ensures Step(b, n, i, message).machine.log == n.log && Depth(Step(b, n, i, message).machine) + 1 == Depth(n)
  {
    HandleCourse(b, n, i);
    LeftByCourse(n, i, Handle(b, n, i), message);
  }

  lemma LeftByCourse(n: Machine, i: Instruction, h: Handled, message: seq<Byte>)
    requires Good(n) && n.top.isStatic && Course(n, i, h) && h.Next? && i != Revert
    requires Recover(h, message).Running? && Depth(Recover(h, message).machine) < Depth(n)
    ensures Recover(h, message).machine.log == n.log && Depth(Recover(h, message).machine) + 1 == Depth(n)
  {
  }

  // ---- Coverage --------------------------------------------------------------------------------

  predicate Cov(b: Backend, m: Machine) {
    Covered(Balances(b.world), m.log)
  }

  predicate CovHandled(b: Backend, h: Handled) {
    h.Panicked? || Cov(b, h.machine)
  }

  /** The ledger value of an account over the log. */
  function Funds(b: Backend, m: Machine, a: Address): int {
    Get(Ledger(Balances(b.world), m.log), a)
  }

  lemma CanPayFunds(b: Backend, m: Machine, a: Address, value: Word)
    requires JournalBalance(b, m, a).Ok?
    ensures JournalBalance(b, m, a).value == Funds(b, m, a)
  {
    ReadIsLedger(Balances(b.world), Balance(b.world, a), m.log, a);
  }

  lemma AppendOne(b: Backend, m: Machine, action: Action)
    requires Cov(b, m) && Affordable(Ledger(Balances(b.world), m.log), action)
    ensures Cov(b, Append(m, [action]))
    ensures Ledger(Balances(b.world), m.log + [action]) == Move(Ledger(Balances(b.world), m.log), action)
  {
    assert Init(m.log + [action]) == m.log;
  }

  lemma TransferCov(b: Backend, m: Machine, source: Address, target: Address, value: Word)
    requires Cov(b, m) && value <= Funds(b, m, source)
    ensures Cov(b, Transfer(m, source, target, value))
    ensures value <= Funds(b, Transfer(m, source, target, value), target) || value == 0
  {
    if value != 0 && source != target {
      AppendOne(b, m, NeonTransfer(source, target, value));
      LedgerConserves(Balances(b.world), m.log);
    }
  }

  lemma {:induction false} QueueCov(b: Backend, m: Machine, ids: seq<nat>)
    requires Cov(b, m)
    ensures Cov(b, Append(m, Queue(ids)))
    ensures Ledger(Balances(b.world), m.log + Queue(ids)) == Ledger(Balances(b.world), m.log)
    decreases |ids|
  {
    if ids == [] {
      assert m.log + [] == m.log;
    } else {
      var before := Append(m, Queue(Init(ids)));
      QueueCov(b, m, Init(ids));
      AppendOne(b, before, ExternalInstruction(Last(ids)));
      assert m.log + Queue(ids) == before.log + [ExternalInstruction(Last(ids))];
    }
  }

  lemma LeaveCov(b: Backend, m: Machine, exit: Flow)
    requires Cov(b, m)
    ensures CovHandled(b, Leave(m, exit))
  {
  }

  lemma ReturnLog(b: Backend, m: Machine, data: seq<Byte>)
    ensures
      var h := ReturnImpl(b, m, data);
      h.Panicked? || h.machine.log == m.log || h.machine.log == m.log + [EvmSetCode(m.top.contract, data)]
  {
  }

  lemma ReturnCov(b: Backend, m: Machine, data: seq<Byte>)
    requires Cov(b, m)
    ensures CovHandled(b, ReturnImpl(b, m, data))
  {
    ReturnLog(b, m, data);
    AppendOne(b, m, EvmSetCode(m.top.contract, data));
  }

  lemma RevertCov(b: Backend, m: Machine, data: seq<Byte>)
    requires Cov(b, m)
    ensures CovHandled(b, RevertImpl(m, data))
  {
    if m.marks != [] && Last(m.marks) <= |m.log| {
      PrefixCovered(Balances(b.world), m.log, Last(m.marks));
    }
  }

  lemma NativeCov(b: Backend, m: Machine, address: Address, callee: Callee)
    requires Cov(b, m)
    requires callee.Native? && callee.withdraws && m.top.contract == address ==> m.top.value <= Funds(b, m, address)
    ensures CovHandled(b, CallNative(b, m, address, callee))
  {
    if callee.Native? && !NativeRefuses(m.top, address, callee) {
      QueueCov(b, m, callee.queued);
      var queued := Append(m, Queue(callee.queued));
      if callee.output.Some? {
        var done := Append(m, NativeActions(m.top, callee));
        if callee.withdraws {
          AppendOne(b, queued, NeonWithdraw(address, m.top.value));
          assert done.log == queued.log + [NeonWithdraw(address, m.top.value)];
        } else {
          assert done.log == queued.log;
        }
        ReturnCov(b, done, callee.output.value);
      }
    }
  }

  /** No frame that runs as an extension delegate-calls that extension: extensions have no code of
      their own to do it with. */
  predicate Genuine(m: Machine, i: Instruction) {
    i.DelegateCall? && i.callee.Native? && i.callee.withdraws && PrepareCall(m.top, false).Ready? ==>
      PrepareCall(m.top, false).input.address != m.top.contract
  }

  lemma CallCov(b: Backend, m: Machine, callee: Callee)
    requires Cov(b, m)
    ensures CovHandled(b, CallOp(b, m, callee))
  {
    if PrepareCall(m.top, true).Ready? {
      var input := PrepareCall(m.top, true).input;
      var n := Enter(m, input, m.top.contract, input.address, input.value, JournalCode(b, m, input.address));
      if CanPay(b, n, m.top.contract, input.value) {
        CanPayFunds(b, n, m.top.contract, input.value);
        TransferCov(b, n, m.top.contract, input.address, input.value);
        var t := Transfer(n, m.top.contract, input.address, input.value);
        if input.value == 0 {
          LedgerConserves(Balances(b.world), t.log);
        }
        NativeCov(b, t, input.address, callee);
      }
    }
  }

  lemma CallCodeCov(b: Backend, m: Machine, callee: Callee)
    requires Cov(b, m)
    ensures CovHandled(b, CallCodeOp(b, m, callee))
  {
    if PrepareCall(m.top, true).Ready? {
      var input := PrepareCall(m.top, true).input;
      var n := Enter(m, input, m.top.contract, m.top.contract, input.value, JournalCode(b, m, input.address));
      if CanPay(b, n, m.top.contract, input.value) {
        CanPayFunds(b, n, m.top.contract, input.value);
        NativeCov(b, n, input.address, callee);
      }
    }
  }

  lemma DelegateCallCov(b: Backend, m: Machine, callee: Callee)
    requires Cov(b, m) && Genuine(m, DelegateCall(callee))
    ensures CovHandled(b, DelegateCallOp(b, m, callee))
  {
    if PrepareCall(m.top, false).Ready? {
      var input := PrepareCall(m.top, false).input;
      var n := Enter(m, input, m.top.caller, m.top.contract, m.top.value, JournalCode(b, m, input.address));
      NativeCov(b, n, input.address, callee);
    }
  }

  lemma StaticCallCov(b: Backend, m: Machine, callee: Callee)
    requires Cov(b, m)
    ensures CovHandled(b, StaticCallOp(b, m, callee))
  {
    if PrepareCall(m.top, false).Ready? {
      var input := PrepareCall(m.top, false).input;
      var n := Entered(m, input, m.top.contract, input.address, 0, JournalCode(b, m, input.address), true);
      LedgerConserves(Balances(b.world), m.log);
      NativeCov(b, n, input.address, callee);
    }
  }

  lemma CreateImplCov(b: Backend, m: Machine, address: Address, value: Word, init: seq<Byte>)
    requires Cov(b, m)
    ensures CovHandled(b, CreateImpl(b, m, address, value, init))
  {
    var creator := m.top.contract;
    AppendOne(b, m, EvmIncrementNonce(creator));
    var top := m.top.(returnData := [], returnOffset := 0, returnLength := 0);
    var counted := Append(m, [EvmIncrementNonce(creator)]).(top := top);
    var forked := Snapshot(Fork(counted, ByCreate, creator, address, value, init, []));
    if CanPay(b, forked, creator, value) {
      CanPayFunds(b, forked, creator, value);
      AppendOne(b, forked, EvmIncrementNonce(address));
      TransferCov(b, Append(forked, [EvmIncrementNonce(address)]), creator, address, value);
    }
  }

  lemma CreateCov(b: Backend, m: Machine, operands: nat, address: Address)
    requires Cov(b, m) && operands >= 3
    ensures CovHandled(b, CreateOp(b, m, operands, address))
  {
    if !(m.top.isStatic || |m.top.stack| < operands || !Usize(m.top, 1) || !Usize(m.top, 2)) {
      var read := ReadBuffer(Pop(m.top, operands), Operand(m.top, 1), Operand(m.top, 2));
      if read.Got? {
        CreateImplCov(b, m.(top := read.frame), address, Operand(m.top, 0), read.data);
      }
    }
  }

  lemma SelfDestructCov(b: Backend, m: Machine)
    requires Cov(b, m)
    ensures CovHandled(b, SelfDestructOp(b, m))
  {
    if !(m.top.isStatic || |m.top.stack| < 1) {
      var n := m.(top := Pop(m.top, 1));
      var balance := JournalBalance(b, n, m.top.contract);
      if balance.Ok? {
        CanPayFunds(b, n, m.top.contract, balance.value);
        TransferCov(b, n, m.top.contract, Operand(m.top, 0) % ADDRESS_RANGE, balance.value);
        var t := Transfer(n, m.top.contract, Operand(m.top, 0) % ADDRESS_RANGE, balance.value);
        AppendOne(b, t, EvmSelfDestruct(m.top.contract));
        LeaveCov(b, Append(t, [EvmSelfDestruct(m.top.contract)]), Suicided);
      }
    }
  }

  lemma ReturnOpCov(b: Backend, m: Machine)
    requires Cov(b, m)
    ensures CovHandled(b, ReturnOp(b, m)) && CovHandled(b, RevertOp(m))
  {
    if |m.top.stack| >= 2 && Usize(m.top, 0) && Usize(m.top, 1) {
      var read := ReadBuffer(Pop(m.top, 2), Operand(m.top, 0), Operand(m.top, 1));
      if read.Got? {
        ReturnCov(b, m.(top := read.frame), read.data);
        RevertCov(b, m.(top := read.frame), read.data);
      }
    }
  }

  lemma HandleCov(b: Backend, m: Machine, i: Instruction)
    requires Cov(b, m) && Genuine(m, i)
    ensures CovHandled(b, Handle(b, m, i))
  {
    if EntersFrames(i) {
      EntersCov(b, m, i);
    } else {
      OthersCov(b, m, i);
    }
  }

  lemma EntersCov(b: Backend, m: Machine, i: Instruction)
    requires Cov(b, m) && Genuine(m, i) && EntersFrames(i)
    ensures CovHandled(b, Handle(b, m, i))
  {
    if i.Create? {
      CreateCov(b, m, 3, i.address);
    } else if i.Create2? {
      CreateCov(b, m, 4, i.address);
    } else {
      CallsCov(b, m, i);
    }
  }

  lemma CallsCov(b: Backend, m: Machine, i: Instruction)
    requires Cov(b, m) && Genuine(m, i) && (i.Call? || i.CallCode? || i.DelegateCall? || i.StaticCall?)
    ensures CovHandled(b, Handle(b, m, i))
  {
    match i
    case Call(callee) => CallCov(b, m, callee);
    case CallCode(callee) => CallCodeCov(b, m, callee);
    case DelegateCall(callee) => DelegateCallCov(b, m, callee);
    case StaticCall(callee) => StaticCallCov(b, m, callee);
  }

  lemma OthersCov(b: Backend, m: Machine, i: Instruction)
    requires Cov(b, m) && !EntersFrames(i)
    ensures CovHandled(b, Handle(b, m, i))
  {
    match i
    case SStore =>
      if SStoreOp(m).Next? {
        AppendOne(b, m, Last(SStoreOp(m).machine.log));
      }
    case Return => ReturnOpCov(b, m);
    case Revert => ReturnOpCov(b, m);
    case SelfDestruct => SelfDestructCov(b, m);
    case Stop => LeaveCov(b, m, Stopped);
    case _ =>
  }

  lemma StepCov(b: Backend, m: Machine, i: Instruction, message: seq<Byte>)
    requires Cov(b, m) && Genuine(m, i)
    ensures
      var o := Step(b, m, i, message);
      o.Running? || o.Exited? ==> Cov(b, o.machine)
  {
    HandleCov(b, m, i);
    RecoverCov(b, Handle(b, m, i), message);
  }

  lemma RecoverCov(b: Backend, h: Handled, message: seq<Byte>)
    requires CovHandled(b, h)
    ensures
      var o := Recover(h, message);
      o.Running? || o.Exited? ==> Cov(b, o.machine)
  {
    if h.Raised? {
      RevertCov(b, h.machine, message);
    }
  }

  predicate AllGenuine(b: Backend, m: Machine, trace: Trace)
    decreases |trace|
  {
    trace != [] ==>
      && AllGenuine(b, m, Init(trace))
      && (Run(b, m, Init(trace)).Running? ==> Genuine(Run(b, m, Init(trace)).machine, Last(trace).0))
  }

  /** Every log a transaction can build, at any moment and on any exit, is covered by the balances it
      was built over. */
  lemma {:induction false} RunCovered(b: Backend, m: Machine, trace: Trace)
    requires Cov(b, m) && AllGenuine(b, m, trace)
    ensures
      var o := Run(b, m, trace);
      o.Running? || o.Exited? ==> Cov(b, o.machine)
    decreases |trace|
  {
    if trace != [] {
      RunCovered(b, m, Init(trace));
      var before := Run(b, m, Init(trace));
      if before.Running? {
        StepCov(b, before.machine, Last(trace).0, Last(trace).1);
      }
    }
  }

  /** A new machine starts well: one mark over the origin's nonce increment, and a covered log. */
  lemma NewMachineGood(b: Backend, chainId: Word, trx: Transaction, origin: Address, created: Address)
    requires NewMachine(b, chainId, trx, origin, created).Some?
    ensures
      var m := NewMachine(b, chainId, trx, origin, created).value;
      Good(m) && Cov(b, m) && m.log[0] == EvmIncrementNonce(origin) && trx.nonce == Nonce(b.world, origin)
  {
    var first := [EvmIncrementNonce(origin)];
    var second := first + [EvmIncrementNonce(created)];
    StartCovered(Balances(b.world), origin, created);
    var target := if trx.target.Some? then trx.target.value else created;
    var frame := NewMachine(b, chainId, trx, origin, created).value.top;
    var start := Machine(frame, [], if trx.target.Some? then first else second, [1]);
    assert Good(start) && second == [EvmIncrementNonce(origin), EvmIncrementNonce(created)];
    assert NewMachine(b, chainId, trx, origin, created).value == Transfer(start, origin, target, trx.value);
    TransferGood(start, origin, target, trx.value);
    TransferCov(b, start, origin, target, trx.value);
  }

  lemma StartCovered(m: map<Address, int>, origin: Address, created: Address)
    ensures
      var first := [EvmIncrementNonce(origin)];
      var second := first + [EvmIncrementNonce(created)];
      Covered(m, first) && Covered(m, second) && Ledger(m, first) == m && Ledger(m, second) == m
  {
    var first := [EvmIncrementNonce(origin)];
    var second := first + [EvmIncrementNonce(created)];
    assert Init(first) == [] && Init(second) == first;
    assert Covered(m, []) && Ledger(m, []) == m;
    assert Covered(m, first) && Ledger(m, first) == m;
  }
}
