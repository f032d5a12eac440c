/** What frames leave behind: the slot SSTORE writes, what RETURN, STOP, REVERT and SELFDESTRUCT hand to the
    caller or out of the transaction, what an extension answers, and where a transaction starts. */
module FrameAnswers {
  import opened Opcodes
  import opened WordArithmetic
  import opened WordBytes
  import opened StorageLayout
  import opened Accounts
  import opened Journal
  import opened CallFrames
  import opened EvmMemory
  import opened FrameOperands

  // ---- SSTORE ----------------------------------------------------------------------------------

  /** SSTORE takes the index from the top and the value below it: from then on that slot of the running
      contract reads as the value, and every other slot as before. */
  lemma SStoreWrites(b: Backend, m: Machine, base: seq<Word>, value: Word, index: Word, a: Address, i: Word)
    requires m.top.stack == base + [value, index]
    ensures
      var h := Handle(b, m, SStore);
      if m.top.isStatic then h.Raised?
      else
        && h.Next? && h.flow == Continue
        && h.machine == m.(top := m.top.(stack := base), log := h.machine.log)
        && StorageOver(Storage(b.world, a, i), h.machine.log, a, i) ==
           if a == m.top.contract && i == index then WordToBytes(value)
           else StorageOver(Storage(b.world, a, i), m.log, a, i)
  {
    var write := EvmSetStorage(m.top.contract, index, WordToBytes(value));
    assert Init(m.log + [write]) == m.log && Last(m.log + [write]) == write;
  }

  /** It changes no nonce, balance or code. */
  lemma SStoreSpares(b: Backend, m: Machine, a: Address)
    requires Handle(b, m, SStore).Next?
    ensures
      var n := Handle(b, m, SStore).machine;
      && JournalNonce(b, n, a) == JournalNonce(b, m, a) && JournalBalance(b, n, a) == JournalBalance(b, m, a)
      && JournalCode(b, n, a) == JournalCode(b, m, a)
  {
    var n := Handle(b, m, SStore).machine;
    assert Init(n.log) == m.log;
  }

  /** LOG takes offset, length and its topics; the journal does not see it. */
  lemma LogTakes(b: Backend, m: Machine, base: seq<Word>, topics: seq<Word>, offset: Word, length: Word)
    requires MemOk(m.top.memory) && m.top.stack == base + topics + [length, offset]
    ensures
      var h := Handle(b, m, Log(|topics|));
      if m.top.isStatic || offset > USIZE_MAX || length > USIZE_MAX || !InReach(offset, length) then h.Raised?
      else
        && h.Next? && h.flow == Continue && TouchedBy(m.top.memory, offset, length, h.machine.top.memory)
        && h.machine == m.(top := m.top.(stack := base, memory := h.machine.top.memory))
  {
    if offset <= USIZE_MAX && length <= USIZE_MAX {
      ReadGives(Pop(m.top, 2), offset, length);
      assert m.top.stack[..|m.top.stack| - 2] == base + topics;
      assert (base + topics)[..|base|] == base;
    }
  }

  // ---- Answers to the caller -------------------------------------------------------------------

  /** The caller goes on behind its call: the word is on its stack, its answer range is filled with the
      data, and it has this return data. */
  ghost predicate Resumes(m: Machine, n: Machine, word: Word, data: seq<Byte>, returnData: seq<Byte>)
    requires m.parents != [] && MemOk(Last(m.parents).memory)
  {
    var p := Last(m.parents);
    && n.top == p.(stack := p.stack + [word], memory := n.top.memory, returnData := returnData)
    && FilledBy(p.memory, p.returnOffset, p.returnLength, data, n.top.memory)
    && n.parents == Init(m.parents)
  }

  /** The creator goes on: the word is on its stack, its memory is as it was. */
  predicate ResumesCreator(m: Machine, n: Machine, word: Word, returnData: seq<Byte>)
    requires m.parents != []
  {
    var p := Last(m.parents);
    n.top == p.(stack := p.stack + [word], returnData := returnData) && n.parents == Init(m.parents)
  }

  /** The caller can take an answer. */
  predicate Takes(m: Machine)
    requires m.parents != []
  {
    |Last(m.parents).stack| < 127 && InReach(Last(m.parents).returnOffset, Last(m.parents).returnLength)
  }

  predicate TakesWord(m: Machine)
    requires m.parents != []
  {
    |Last(m.parents).stack| < 127
  }

  /** Both frames are in order, and a snapshot is open for the one that is left. */
  ghost predicate Leavable(m: Machine) {
    MemOk(m.top.memory) && m.marks != [] && (m.parents != [] ==> MemOk(Last(m.parents).memory))
  }

  lemma AfterCallMeans(m: Machine, n: Machine, data: seq<Byte>, word: Word)
    requires m.parents != [] && MemOk(Last(m.parents).memory) && n.parents == m.parents
    ensures
      var h := AfterCall(Join(n), data, word);
      if Takes(m) then
        && h.Next? && h.flow == Continue && h.machine.log == n.log && h.machine.marks == n.marks
        && Resumes(m, h.machine, word, data, Last(m.parents).returnData)
      else h.Raised?
  {
    WriteGives(Last(m.parents), data);
  }

  // ---- RETURN ----------------------------------------------------------------------------------

  predicate Names(m: Machine, offset: Word, length: Word)
  {
    offset <= USIZE_MAX && length <= USIZE_MAX && InReach(offset, length)
  }

  /** RETURN from a call takes offset and length from the top. The transaction returns these bytes, or the
      caller goes on with a one on its stack and the bytes in its range and as its return data. */
  lemma ReturnAnswers(b: Backend, m: Machine, base: seq<Word>, offset: Word, length: Word)
    requires Leavable(m) && m.top.reason == ByCall && m.top.stack == base + [length, offset]
    ensures
      var h, data := Handle(b, m, Return), BytesAt(m.top.memory, offset, length);
      if !Names(m, offset, length) then h.Raised?
      else if m.parents == [] then
        h.Next? && h.flow == Returned(data) && h.machine.log == m.log && h.machine.marks == Init(m.marks)
      else if Takes(m) then
        && h.Next? && h.flow == Continue && h.machine.log == m.log && h.machine.marks == Init(m.marks)
        && Resumes(m, h.machine, 1, data, data)
      else h.Raised?
  {
    if offset <= USIZE_MAX && length <= USIZE_MAX {
      ReadGives(Pop(m.top, 2), offset, length);
      var r := ReadBuffer(Pop(m.top, 2), offset, length);
      if r.Got? {
        ReturnMeans(b, m.(top := r.frame), r.data);
      }
    }
  }

  lemma ReturnMeans(b: Backend, m: Machine, data: seq<Byte>)
    requires m.marks != [] && (m.parents != [] ==> MemOk(Last(m.parents).memory)) && m.top.reason == ByCall
    ensures
      var h := ReturnImpl(b, m, data);
      if m.parents == [] then
        h.Next? && h.flow == Returned(data) && h.machine.log == m.log && h.machine.marks == Init(m.marks)
      else if Takes(m) then
        && h.Next? && h.flow == Continue && h.machine.log == m.log && h.machine.marks == Init(m.marks)
        && Resumes(m, h.machine, 1, data, data)
      else h.Raised?
  {
    if m.parents != [] {
      AfterCallMeans(m, CommitSnapshot(m).value, data, 1);
    }
  }

  /** Code that may be deployed: at most 24576 bytes, and a valid container if it starts as one. */
  predicate Deployable(b: Backend, data: seq<Byte>) {
    |data| <= 0x6000 && (HasEofMagic(data) ==> data !in b.unparsable && data !in b.unvalidated)
  }

  /** RETURN from a creation deploys the bytes at the new address, which its creator gets. */
  lemma ReturnDeploys(b: Backend, m: Machine, base: seq<Word>, offset: Word, length: Word)
    requires Leavable(m) && m.top.reason == ByCreate && m.top.stack == base + [length, offset]
    ensures
      var h, data := Handle(b, m, Return), BytesAt(m.top.memory, offset, length);
      if !Names(m, offset, length) || !Deployable(b, data) then h.Raised?
      else
        var log := m.log + [EvmSetCode(m.top.contract, data)];
        if m.parents == [] then
          h.Next? && h.flow == Returned([]) && h.machine.log == log && h.machine.marks == Init(m.marks)
        else if TakesWord(m) then
          && h.Next? && h.flow == Continue && h.machine.log == log && h.machine.marks == Init(m.marks)
          && ResumesCreator(m, h.machine, m.top.contract, Last(m.parents).returnData)
        else h.Raised?
  {
    if offset <= USIZE_MAX && length <= USIZE_MAX {
      ReadGives(Pop(m.top, 2), offset, length);
      var r := ReadBuffer(Pop(m.top, 2), offset, length);
      if r.Got? {
        DeployMeans(b, m.(top := r.frame), r.data);
      }
    }
  }

  lemma DeployMeans(b: Backend, m: Machine, data: seq<Byte>)
    requires m.marks != [] && m.top.reason == ByCreate
    ensures
      var h := ReturnImpl(b, m, data);
      if !Deployable(b, data) then h.Raised?
      else
        var log := m.log + [EvmSetCode(m.top.contract, data)];
        if m.parents == [] then
          h.Next? && h.flow == Returned([]) && h.machine.log == log && h.machine.marks == Init(m.marks)
        else if TakesWord(m) then
          && h.Next? && h.flow == Continue && h.machine.log == log && h.machine.marks == Init(m.marks)
          && ResumesCreator(m, h.machine, m.top.contract, Last(m.parents).returnData)
        else h.Raised?
  {
  }

  // ---- STOP and SELFDESTRUCT -------------------------------------------------------------------

  /** Leaving without data: a caller gets a one and an answer range of zeros, a creator gets a zero. */
  ghost predicate LeftQuietly(m: Machine, log: seq<Action>, h: Handled, exit: Flow)
    requires m.marks != [] && (m.parents != [] ==> MemOk(Last(m.parents).memory))
  {
    if m.parents == [] then
      h.Next? && h.flow == exit && h.machine.log == log && h.machine.marks == Init(m.marks)
    else if !(if m.top.reason == ByCall then Takes(m) else TakesWord(m)) then h.Raised?
    else
      && h.Next? && h.flow == Continue && h.machine.log == log && h.machine.marks == Init(m.marks)
      && if m.top.reason == ByCall then Resumes(m, h.machine, 1, [], Last(m.parents).returnData)
         else ResumesCreator(m, h.machine, 0, Last(m.parents).returnData)
  }

  lemma LeaveMeans(m: Machine, exit: Flow)
    requires m.marks != [] && (m.parents != [] ==> MemOk(Last(m.parents).memory))
    ensures LeftQuietly(m, m.log, Leave(m, exit), exit)
  {
    if m.parents != [] && m.top.reason == ByCall {
      AfterCallMeans(m, CommitSnapshot(m).value, [], 1);
    }
  }

  lemma StopAnswers(b: Backend, m: Machine)
    requires m.marks != [] && (m.parents != [] ==> MemOk(Last(m.parents).memory))
    ensures LeftQuietly(m, m.log, Handle(b, m, Stop), Stopped)
  {
    LeaveMeans(m, Stopped);
  }

  /** SELFDESTRUCT takes the heir from the top, pays it everything the contract has, and leaves. */
  lemma SelfDestructAnswers(b: Backend, m: Machine, base: seq<Word>, word: Word, heir: Address)
    requires m.marks != [] && (m.parents != [] ==> MemOk(Last(m.parents).memory))
    requires m.top.stack == base + [word]
    requires heir == word % 0x1_0000_0000_0000_0000_0000_0000_0000_0000_0000_0000
    ensures
      var h, balance := Handle(b, m, SelfDestruct), JournalBalance(b, m, m.top.contract);
      if m.top.isStatic || balance.Err? then h.Raised?
      else
        var log := m.log + Payment(m.top.contract, heir, balance.value) + [EvmSelfDestruct(m.top.contract)];
        LeftQuietly(m, log, h, Suicided)
  {
    var balance := JournalBalance(b, m, m.top.contract);
    if !m.top.isStatic && balance.Ok? {
      var n := m.(top := Pop(m.top, 1));
      var paid := Transfer(n, m.top.contract, heir, balance.value);
      assert paid.log == m.log + Payment(m.top.contract, heir, balance.value);
      LeaveMeans(Append(paid, [EvmSelfDestruct(m.top.contract)]), Suicided);
    }
  }

  // ---- REVERT ----------------------------------------------------------------------------------

  /** A snapshot can be reverted: its mark lies in the log, and the outermost one is over the origin's
      nonce increment alone. */
  predicate Revertible(m: Machine) {
    && m.marks != [] && Last(m.marks) <= |m.log|
    && (|m.marks| == 1 ==> Last(m.marks) == 1 && m.log[0].EvmIncrementNonce?)
  }

  /** What was logged since the snapshot is gone, and the caller gets a zero and the bytes. */
  ghost predicate RolledBack(m: Machine, data: seq<Byte>, h: Handled)
    requires Revertible(m) && (m.parents != [] ==> MemOk(Last(m.parents).memory))
  {
    var log := m.log[..Last(m.marks)];
    if m.parents == [] then
      h.Next? && h.flow == Reverted(data) && h.machine.log == log && h.machine.marks == Init(m.marks)
    else if !(if m.top.reason == ByCall then Takes(m) else TakesWord(m)) then h.Raised?
    else
      && h.Next? && h.flow == Continue && h.machine.log == log && h.machine.marks == Init(m.marks)
      && if m.top.reason == ByCall then Resumes(m, h.machine, 0, data, data)
         else ResumesCreator(m, h.machine, 0, data)
  }

  lemma RevertMeans(m: Machine, data: seq<Byte>)
    requires Revertible(m) && (m.parents != [] ==> MemOk(Last(m.parents).memory))
    ensures RolledBack(m, data, RevertImpl(m, data))
  {
    if m.parents != [] && m.top.reason == ByCall {
      AfterCallMeans(m, RevertSnapshot(m).value, data, 0);
    }
  }

  /** REVERT takes offset and length from the top. */
  lemma RevertAnswers(b: Backend, m: Machine, base: seq<Word>, offset: Word, length: Word)
    requires Leavable(m) && Revertible(m) && m.top.stack == base + [length, offset]
    ensures
      var h, data := Handle(b, m, Revert), BytesAt(m.top.memory, offset, length);
      if Names(m, offset, length) then RolledBack(m, data, h) else h.Raised?
  {
    if offset <= USIZE_MAX && length <= USIZE_MAX {
      ReadGives(Pop(m.top, 2), offset, length);
      var r := ReadBuffer(Pop(m.top, 2), offset, length);
      if r.Got? {
        RevertMeans(m.(top := r.frame), r.data);
      }
    }
  }

  // ---- How a transaction ends ------------------------------------------------------------------

  /** The outermost frame of a call ends the transaction: with the bytes it returns or reverts with, or
      without any when it stops. A revert cuts the log back to the open snapshot. */
  lemma OutermostEnds(b: Backend, m: Machine, base: seq<Word>, offset: Word, length: Word, message: seq<Byte>)
    requires Leavable(m) && Revertible(m) && m.parents == [] && m.top.reason == ByCall
    requires m.top.stack == base + [length, offset] && Names(m, offset, length)
    ensures
      var data := BytesAt(m.top.memory, offset, length);
      && EndsWith(Step(b, m, Return, message), Output(data), m.log)
      && EndsWith(Step(b, m, Revert, message), RevertedWith(data), m.log[..Last(m.marks)])
      && EndsWith(Step(b, m, Stop, message), Halt, m.log)
  {
    ReturnAnswers(b, m, base, offset, length);
    RevertAnswers(b, m, base, offset, length);
    StopAnswers(b, m);
    StepEnds(b, m, Return, message);
    StepEnds(b, m, Revert, message);
    StepEnds(b, m, Stop, message);
  }

  predicate EndsWith(o: CallFrames.Outcome, status: ExitStatus, log: seq<Action>) {
    o.Exited? && o.status == status && o.machine.log == log
  }

  lemma StepEnds(b: Backend, m: Machine, i: Instruction, message: seq<Byte>)
    requires Handle(b, m, i).Next?
    ensures
      var h, o := Handle(b, m, i), Step(b, m, i, message);
      && (h.flow.Returned? ==> EndsWith(o, Output(h.flow.data), h.machine.log))
      && (h.flow.Reverted? ==> EndsWith(o, RevertedWith(h.flow.data), h.machine.log))
      && (h.flow.Stopped? ==> EndsWith(o, Halt, h.machine.log))
      && (h.flow.Suicided? ==> EndsWith(o, Suicide, h.machine.log))
  {
  }

  /** So does an error in it, with the error's message, unless it stems from a frame it just entered. */
  lemma OutermostFails(b: Backend, m: Machine, i: Instruction, message: seq<Byte>)
    requires Handle(b, m, i).Raised? && Revertible(Handle(b, m, i).machine) && Handle(b, m, i).machine.parents == []
    ensures
      var n := Handle(b, m, i).machine;
      EndsWith(Step(b, m, i, message), RevertedWith(message), n.log[..Last(n.marks)])
  {
    RevertMeans(Handle(b, m, i).machine, message);
  }

  // ---- Extensions ------------------------------------------------------------------------------

  /** What an extension that is called as itself logs: its external instructions in order, then the
      withdrawal of the value it was paid. */
  function Effects(queued: seq<nat>, withdraws: bool, callee: Address, value: Word): seq<Action> {
    seq(|queued|, i requires 0 <= i < |queued| => ExternalInstruction(queued[i]))
    + if withdraws then [NeonWithdraw(callee, value)] else []
  }

  lemma {:induction false} QueueAt(ids: seq<nat>)
    ensures Queue(ids) == seq(|ids|, i requires 0 <= i < |ids| => ExternalInstruction(ids[i]))
    decreases |ids|
  {
    if ids != [] {
      QueueAt(Init(ids));
      assert ids == Init(ids) + [Last(ids)];
    }
  }

  /** A called extension answers at once: in the frame it runs as, its effects are logged and its output
      is returned; it fails in static mode if it has effects, without a value to withdraw, or by itself. */
  lemma NativeAnswers(b: Backend, m: Machine, address: Address, queued: seq<nat>, withdraws: bool,
                      output: Option<seq<Byte>>)
    requires m.marks != [] && m.parents != [] && MemOk(Last(m.parents).memory) && m.top.reason == ByCall
    ensures
      var h := CallNative(b, m, address, Native(queued, withdraws, output));
      if (m.top.isStatic && (queued != [] || withdraws)) || output.None? || !Takes(m)
         || (withdraws && (m.top.contract != address || m.top.value == 0)) then h.Raised?
      else
        && h.Next? && h.flow == Continue && h.machine.marks == Init(m.marks)
        && h.machine.log == m.log + Effects(queued, withdraws, m.top.contract, m.top.value)
        && Resumes(m, h.machine, 1, output.value, output.value)
  {
    QueueAt(queued);
    var callee := Native(queued, withdraws, output);
    if !NativeRefuses(m.top, address, callee) && output.Some? {
      ReturnMeans(b, Append(m, NativeActions(m.top, callee)), output.value);
    }
  }

  // ---- Transactions ----------------------------------------------------------------------------

  /** A transaction is admitted: its nonce is the origin's and not the last one, its chain is this one, and
      the origin can pay its value and carries no code. */
  predicate Admitted(b: Backend, chainId: Word, trx: Transaction, origin: Address) {
    && trx.nonce == Nonce(b.world, origin) < U64_MAX && (trx.chainId.Some? ==> trx.chainId.value == chainId)
    && Balance(b.world, origin) >= trx.value && Code(b.world, origin) == []
  }

  /** A call starts as the target, with the origin as caller: the nonce is counted, the snapshot taken, and
      the value paid after it. */
  lemma CallStarts(b: Backend, chainId: Word, trx: Transaction, origin: Address, created: Address)
    requires trx.target.Some?
    ensures
      var target := trx.target.value;
      NewMachine(b, chainId, trx, origin, created) ==
      if Admitted(b, chainId, trx, origin) && Runs(b, Code(b.world, target)) then
        Some(Machine(Child(false, ByCall, origin, target, trx.value, Code(b.world, target), trx.data), [],
                     [EvmIncrementNonce(origin)] + Payment(origin, target, trx.value), [1]))
      else None
  {
    assert [EvmIncrementNonce(origin)] + [] == [EvmIncrementNonce(origin)];
  }

  /** A creation starts as the new contract with the transaction's data as its code, provided nothing has
      been at the address. */
  lemma CreationStarts(b: Backend, chainId: Word, trx: Transaction, origin: Address, created: Address)
    requires trx.target.None?
    ensures
      NewMachine(b, chainId, trx, origin, created) ==
      if Admitted(b, chainId, trx, origin) && Nonce(b.world, created) == 0 && Code(b.world, created) == []
         && (HasEofMagic(trx.data) ==> trx.data !in b.unparsable && trx.data !in b.unvalidated) then
        var nonces := [EvmIncrementNonce(origin), EvmIncrementNonce(created)];
        Some(Machine(Child(false, ByCreate, origin, created, trx.value, trx.data, []), [],
                     nonces + Payment(origin, created, trx.value), [1]))
      else None
  {
    var both := [EvmIncrementNonce(origin), EvmIncrementNonce(created)];
    assert both + [] == both;
  }
}
