/** What calls, creations and self-destructs do to the journal's reads, and what the caller sees of a
    callee that fails. */
module FrameEffects {
  import opened Opcodes
  import opened WordArithmetic
  import opened StorageLayout
  import opened Accounts
  import opened Ledgers
  import opened Journal
  import opened CallFrames
  import opened FrameLaws
  import opened FrameCoverage
  import opened FrameOperands
  import opened FrameAnswers
  import Conservation
  import EvmMemory

  lemma TransferFunds(b: Backend, m: Machine, source: Address, target: Address, value: Word, a: Address)
    ensures Funds(b, Transfer(m, source, target, value), a) ==
            Funds(b, m, a) + (if a == target then value as int else 0) - (if a == source then value as int else 0)
  {
    var action := NeonTransfer(source, target, value);
    assert Init(m.log + [action]) == m.log && Last(m.log + [action]) == action;
    Conservation.MoveGet(Ledger(Balances(b.world), m.log), action, a);
  }

  lemma SilentFunds(b: Backend, m: Machine, action: Action, a: Address)
    requires !action.NeonTransfer? && !action.NeonWithdraw?
    ensures Funds(b, Append(m, [action]), a) == Funds(b, m, a)
  {
    assert Init(m.log + [action]) == m.log && Last(m.log + [action]) == action;
  }

  /** Entering a CALL moves the value, the third word from the top, from the calling contract to the
      address in the second word, and no other balance. */
  lemma CallMovesValue(b: Backend, m: Machine, base: seq<Word>, r: Ranges, value: Word, address: Word, gas: Word,
                       callee: Address, a: Address)
    requires EvmMemory.MemOk(m.top.memory) && m.top.stack == base + Words(r) + [value, address, gas]
    requires callee == address % 0x1_0000_0000_0000_0000_0000_0000_0000_0000_0000_0000
    requires Handle(b, m, Call(Ordinary)).Next?
    ensures Funds(b, Handle(b, m, Call(Ordinary)).machine, a) ==
            Funds(b, m, a) + (if a == callee then value as int else 0) - (if a == m.top.contract then value as int
              else 0)
  {
    FrameOperands.CallEnters(b, m, base, r, value, address, gas, callee);
    TransferFunds(b, m, m.top.contract, callee, value, a);
    PaymentIsTransfer(m, m.top.contract, callee, value);
  }

  lemma PaymentIsTransfer(m: Machine, source: Address, target: Address, value: Word)
    ensures Transfer(m, source, target, value).log == m.log + Payment(source, target, value)
  {
    assert m.log + [] == m.log;
  }

  /** A self-destructing contract leaves its whole balance to the heir in the top word, and keeps it only
      when it is its own heir. */
  lemma SelfDestructMovesBalance(b: Backend, m: Machine, base: seq<Word>, word: Word, heir: Address)
    requires m.top.stack == base + [word]
    requires heir == word % 0x1_0000_0000_0000_0000_0000_0000_0000_0000_0000_0000
    requires Handle(b, m, SelfDestruct).Next?
    ensures
      var n, contract := Handle(b, m, SelfDestruct).machine, m.top.contract;
      if heir == contract then Funds(b, n, contract) == Funds(b, m, contract)
      else Funds(b, n, contract) == 0 && Funds(b, n, heir) == Funds(b, m, heir) + Funds(b, m, contract)
  {
    var p, contract := m.(top := Pop(m.top, 1)), m.top.contract;
    var balance := JournalBalance(b, p, contract).value;
    CanPayFunds(b, p, contract, balance);
    var t := Transfer(p, contract, heir, balance);
    TransferFunds(b, p, contract, heir, balance, contract);
    TransferFunds(b, p, contract, heir, balance, heir);
    SilentFunds(b, t, EvmSelfDestruct(contract), contract);
    SilentFunds(b, t, EvmSelfDestruct(contract), heir);
    LeaveLog(Append(t, [EvmSelfDestruct(contract)]), Suicided);
  }

  lemma LeaveLog(m: Machine, exit: Flow)
    ensures Leave(m, exit).Panicked? || Leave(m, exit).machine.log == m.log
  {
  }

  lemma CountNonce(b: Backend, m: Machine, a: Address, c: Address)
    requires JournalNonce(b, m, c).Ok? && (a == c ==> JournalNonce(b, m, c).value < U64_MAX)
    ensures JournalNonce(b, Append(m, [EvmIncrementNonce(a)]), c)
         == Journal.Ok(JournalNonce(b, m, c).value + if a == c then 1 else 0)
  {
    assert Init(m.log + [EvmIncrementNonce(a)]) == m.log;
  }

  lemma TransferNonce(b: Backend, m: Machine, source: Address, target: Address, value: Word, c: Address)
    ensures JournalNonce(b, Transfer(m, source, target, value), c) == JournalNonce(b, m, c)
  {
    assert Init(m.log + [NeonTransfer(source, target, value)]) == m.log;
  }

  /** The log of a creation that is entered. */
  lemma CreationLog(b: Backend, m: Machine, address: Address, value: Word, init: seq<Byte>)
    requires CreateImpl(b, m, address, value, init).Next?
    ensures
      var counted := Append(m, [EvmIncrementNonce(m.top.contract)]);
      && JournalNonce(b, m, m.top.contract).Ok? && JournalNonce(b, m, m.top.contract).value < U64_MAX
      && JournalNonce(b, counted, address) == Journal.Ok(0)
      && CreateImpl(b, m, address, value, init).machine.log
         == Transfer(Append(counted, [EvmIncrementNonce(address)]), m.top.contract, address, value).log
  {
  }

  /** A creation that is entered has counted one nonce for the creator and starts the new account at
      nonce one. */
  lemma CreationCountsNonces(b: Backend, m: Machine, address: Address, value: Word, init: seq<Byte>)
    requires CreateImpl(b, m, address, value, init).Next?
    ensures
      var log := CreateImpl(b, m, address, value, init).machine.log;
      NoncesCounted(b, m, log, m.top.contract, address)
  {
    CreationLog(b, m, address, value, init);
    NoncesAfter(b, m, m.top.contract, address, value);
  }

  predicate NoncesCounted(b: Backend, m: Machine, log: seq<Action>, creator: Address, address: Address) {
    && address != creator
    && NonceOver(Nonce(b.world, address), log, address) == Journal.Ok(1)
    && JournalNonce(b, m, creator).Ok?
    && NonceOver(Nonce(b.world, creator), log, creator) == Journal.Ok(JournalNonce(b, m, creator).value + 1)
  }

  lemma NoncesAfter(b: Backend, m: Machine, creator: Address, address: Address, value: Word)
    requires JournalNonce(b, m, creator).Ok? && JournalNonce(b, m, creator).value < U64_MAX
    requires JournalNonce(b, Append(m, [EvmIncrementNonce(creator)]), address) == Journal.Ok(0)
    ensures
      var started := Append(Append(m, [EvmIncrementNonce(creator)]), [EvmIncrementNonce(address)]);
      NoncesCounted(b, m, Transfer(started, creator, address, value).log, creator, address)
  {
    var counted := Append(m, [EvmIncrementNonce(creator)]);
    var started := Append(counted, [EvmIncrementNonce(address)]);
    CountNonce(b, m, creator, creator);
    CountNonce(b, counted, address, address);
    CountNonce(b, counted, address, creator);
    TransferNonce(b, started, creator, address, value, address);
    TransferNonce(b, started, creator, address, value, creator);
  }

  /** A creation frame that returns has deployed what it returned, at its own address. */
  lemma CreationDeploysCode(b: Backend, m: Machine, data: seq<Byte>)
    requires m.top.reason == ByCreate && Deployed(m.log, m.top.contract) == None
    requires ReturnImpl(b, m, data).Next?
    ensures JournalCode(b, ReturnImpl(b, m, data).machine, m.top.contract) == data
    ensures m.parents != [] ==> Last(ReturnImpl(b, m, data).machine.top.stack) == m.top.contract
  {
    var action := EvmSetCode(m.top.contract, data);
    assert Init(m.log + [action]) == m.log && Last(m.log + [action]) == action;
    assert Deployed(m.log + [action], m.top.contract) == Some(data);
  }

  /** A call whose callee fails in its first step: the caller goes on behind the call with a zero on its
      stack and the error's message as return data and in its answer range, and the log is as before. */
  lemma FailingCallee(b: Backend, m: Machine, base: seq<Word>, r: Ranges, value: Word, address: Word, gas: Word,
                      callee: Address, message: seq<Byte>)
    requires EvmMemory.MemOk(m.top.memory) && m.top.stack == base + Words(r) + [value, address, gas]
    requires callee == address % 0x1_0000_0000_0000_0000_0000_0000_0000_0000_0000_0000
    requires Handle(b, m, Call(Ordinary)).Next? && m.marks != [] && |m.top.stack| <= 127
    requires InReach(r.answerOffset, r.answerLength)
    ensures
      var entered := Step(b, m, Call(Ordinary), []);
      && entered.Running?
      && var after := Step(b, entered.machine, Fault, message);
      && after.Running? && after.machine.log == m.log && after.machine.parents == m.parents
      && after.machine.marks == m.marks && after.machine.top.pc == m.top.pc + 1
      && after.machine.top.stack == base + [0] && after.machine.top.returnData == message
      && exists touched ::
        && TouchedBy(m.top.memory, r.argsOffset, r.argsLength, touched)
        && FilledBy(touched, r.answerOffset, r.answerLength, message, after.machine.top.memory)
  {
    FrameOperands.CallEnters(b, m, base, r, value, address, gas, callee);
    var n := Handle(b, m, Call(Ordinary)).machine;
    CallStep(b, m);
    FaultStep(b, n, message);
    RevertMeans(n, message);
    CallerResumes(m, base, r, n, RevertImpl(n, message), message);
  }

  lemma CallerResumes(m: Machine, base: seq<Word>, r: Ranges, n: Machine, h: Handled, message: seq<Byte>)
    requires EvmMemory.MemOk(m.top.memory) && m.marks != [] && |base| < 127 && n.top.reason == ByCall
    requires |n.parents| == |m.parents| + 1 && n.parents[..|m.parents|] == m.parents
    requires Waits(m.top, base, r, n.parents[|m.parents|]) && InReach(r.answerOffset, r.answerLength)
    requires r.answerOffset + r.answerLength <= EvmMemory.USIZE_MAX || r.answerLength == 0
    requires n.marks == m.marks + [|m.log|] && m.log <= n.log && RolledBack(n, message, h)
    ensures
      var after := Recover(h, message);
      && after.Running? && after.machine.log == m.log && after.machine.parents == m.parents
      && after.machine.marks == m.marks && after.machine.top.pc == m.top.pc + 1
      && after.machine.top.stack == base + [0] && after.machine.top.returnData == message
      && exists touched ::
        && TouchedBy(m.top.memory, r.argsOffset, r.argsLength, touched)
        && FilledBy(touched, r.answerOffset, r.answerLength, message, after.machine.top.memory)
  {
    var p := n.parents[|m.parents|];
    assert Last(n.parents) == p && Init(n.parents) == m.parents && Init(n.marks) == m.marks;
    assert n.log[..|m.log|] == m.log;
    assert TouchedBy(m.top.memory, r.argsOffset, r.argsLength, p.memory);
  }

  lemma CallStep(b: Backend, m: Machine)
    requires Handle(b, m, Call(Ordinary)).Next? && Handle(b, m, Call(Ordinary)).flow == Noop
    ensures Step(b, m, Call(Ordinary), []) == Running(Handle(b, m, Call(Ordinary)).machine)
  {
  }

  lemma FaultStep(b: Backend, n: Machine, message: seq<Byte>)
    ensures Handle(b, n, Fault) == Raised(n, OtherFailure)
    ensures Step(b, n, Fault, message) == Recover(Raised(n, OtherFailure), message)
  {
  }

  // ---- The return range ------------------------------------------------------------------------

  predicate Blank(s: seq<Byte>, from: nat, to: nat)
    requires to <= |s|
  {
    forall i :: from <= i < to ==> s[i] == 0
  }

  /** A callee's answer fills the whole return range, with zeros behind the data. */
  lemma ReturnRangeIsPadded(f: Frame, data: seq<Byte>)
    requires EvmMemory.MemOk(f.memory) && f.returnLength > 0 && EvmMemory.Reachable(f.returnOffset, f.returnLength)
    ensures
      var touched := EvmMemory.Touched(EvmMemory.Used(f.memory), f.returnOffset, f.returnLength);
      var w := WriteRange(f, data);
      && w.Wrote? && EvmMemory.MemOk(w.frame.memory)
      && EvmMemory.Used(w.frame.memory)
         == EvmMemory.Overwritten(touched, f.returnOffset, EvmMemory.Padded(data, 0, f.returnLength))
  {
    EvmMemory.WriteMeaning(f.memory, f.returnOffset, EvmMemory.Padded(data, 0, f.returnLength));
  }

  /** That is what writing the data alone would leave exactly when the old bytes of the range behind the
      data were zero already. */
  lemma PaddingShowsIff(touched: seq<Byte>, offset: nat, data: seq<Byte>, length: nat)
    requires offset + length <= |touched|
    ensures
      var n := if |data| <= length then |data| else length;
      EvmMemory.Overwritten(touched, offset, EvmMemory.Padded(data, 0, length))
      == EvmMemory.Overwritten(touched, offset, data[..n])
      <==> Blank(touched, offset + n, offset + length)
  {
    var n := if |data| <= length then |data| else length;
    var a := EvmMemory.Overwritten(touched, offset, EvmMemory.Padded(data, 0, length));
    var c := EvmMemory.Overwritten(touched, offset, data[..n]);
    assert forall i :: offset + n <= i < offset + length ==> a[i] == 0 && c[i] == touched[i];
    assert forall i :: 0 <= i < |a| && !(offset + n <= i < offset + length) ==> a[i] == c[i];
    if a == c {
      assert forall i :: offset + n <= i < offset + length ==> touched[i] == c[i] == a[i];
    }
  }

  /** A called frame that ends by STOP clears its caller's whole return range: memory that was there is
      overwritten although no data was returned. */
  lemma StopClearsReturnRange(m: Machine)
    requires m.parents != [] && m.marks != [] && m.top.reason == ByCall
    requires
      var caller := Last(m.parents);
      && EvmMemory.MemOk(caller.memory) && caller.returnLength > 0 && |caller.stack| < OPERANDS
      && EvmMemory.Reachable(caller.returnOffset, caller.returnLength)
    ensures
      var h := Leave(m, Stopped);
      var caller := Last(m.parents);
      var end := caller.returnOffset + caller.returnLength;
      && h.Next? && h.machine.top.stack == caller.stack + [1]
      && EvmMemory.MemOk(h.machine.top.memory) && end <= |EvmMemory.Used(h.machine.top.memory)|
      && Blank(EvmMemory.Used(h.machine.top.memory), caller.returnOffset, end)
  {
    ReturnRangeIsPadded(Last(m.parents), []);
  }

  /** For instance, ones become zeros. */
  lemma OnesBecomeZeros()
    ensures
      var ones := EvmMemory.Padded([1, 1, 1, 1], 0, 32);
      var f := OuterFrame(ByCall, 0, 0, 0, [], []).(memory := EvmMemory.LoadMem(ones), returnOffset := 0,
                                                    returnLength := 4);
      && EvmMemory.MemOk(f.memory) && EvmMemory.Used(f.memory)[..4] == [1, 1, 1, 1]
      && WriteRange(f, []).Wrote?
      && EvmMemory.MemOk(WriteRange(f, []).frame.memory)
      && EvmMemory.Used(WriteRange(f, []).frame.memory)[..4] == [0, 0, 0, 0]
  {
    var ones := EvmMemory.Padded([1, 1, 1, 1], 0, 32);
    var f := OuterFrame(ByCall, 0, 0, 0, [], []).(memory := EvmMemory.LoadMem(ones), returnOffset := 0,
                                                  returnLength := 4);
    EvmMemory.LoadedOk(ones);
    ReturnRangeIsPadded(f, []);
    assert EvmMemory.Touched(ones, 0, 4) == ones;
  }
}
