/** What every run of the legacy machine keeps: snapshot marks match the frames, reverts are atomic,
    static calls leave the log alone, and the log stays covered. */
module FrameLaws {
  import opened Opcodes
  import opened WordArithmetic
  import opened StorageLayout
  import opened Accounts
  import opened Ledgers
  import opened Journal
  import opened CallFrames

  // ---- The invariant ---------------------------------------------------------------------------

  function Depth(m: Machine): nat {
    |m.parents| + 1
  }

  predicate Sorted(marks: seq<nat>) {
    forall i, j :: 0 <= i <= j < |marks| ==> marks[i] <= marks[j]
  }

  /** One mark per frame, in order, within the log, the first one over the origin's nonce increment. */
  predicate Marked(m: Machine) {
    && |m.marks| == Depth(m)
    && Sorted(m.marks)
    && m.marks[0] == 1
    && Last(m.marks) <= |m.log|
    && m.log[0].EvmIncrementNonce?
  }

  function FrameAt(m: Machine, i: nat): Frame
    requires i < Depth(m)
  {
    if i < |m.parents| then m.parents[i] else m.top
  }

  /** From a static frame inwards every frame is static and nothing has been logged since its
      snapshot. */
  predicate StaticQuiet(m: Machine)
    requires Marked(m)
  {
    && (forall i :: 0 <= i < |m.parents| && m.parents[i].isStatic ==> m.top.isStatic && m.marks[i] == |m.log|)
    && (forall i, j :: 0 <= i <= j < |m.parents| && m.parents[i].isStatic ==> m.parents[j].isStatic)
    && (m.top.isStatic ==> Last(m.marks) == |m.log|)
  }

  predicate MayCreate(f: Frame) {
    f.reason == ByCreate ==> !f.isStatic
  }

  predicate Good(m: Machine) {
    && Marked(m)
    && StaticQuiet(m)
    && MayCreate(m.top)
    && forall i :: 0 <= i < |m.parents| ==> MayCreate(m.parents[i])
  }

  /** After the outermost frame is left. */
  predicate Finished(m: Machine) {
    m.parents == [] && m.marks == [] && |m.log| >= 1 && m.log[0].EvmIncrementNonce?
  }

  predicate IsExit(flow: Flow) {
    flow.Stopped? || flow.Returned? || flow.Reverted? || flow.Suicided?
  }

  /** `n` grew out of `m` by appending to the log: the marks they share are the same. */
  predicate Grew(m: Machine, n: Machine) {
    && m.log <= n.log
    && (m.marks <= n.marks || n.marks <= m.marks)
    && (m.top.isStatic ==> n.log == m.log)
    && SameModes(m, n)
  }

  /** Frames present in both are static in both or in neither. */
  predicate SameModes(m: Machine, n: Machine) {
    forall i :: 0 <= i < Depth(m) && i < Depth(n) ==> FrameAt(m, i).isStatic == FrameAt(n, i).isStatic
  }

  /** What every handler but REVERT does. */
  predicate Behaves(m: Machine, h: Handled) {
    match h
    case Panicked => false
    case Raised(n, _) => Good(n) && Grew(m, n) && Depth(n) + 1 >= Depth(m)
    case Next(n, flow) =>
      Grew(m, n) && if IsExit(flow) then Finished(n) && !flow.Reverted? else Good(n) && Depth(n) + 1 >= Depth(m)
  }

  // ---- Primitives ------------------------------------------------------------------------------

  lemma AppendGood(m: Machine, actions: seq<Action>)
    requires Good(m) && (m.top.isStatic ==> actions == [])
    ensures Good(Append(m, actions)) && Grew(m, Append(m, actions))
  {
    assert actions == [] ==> Append(m, actions).log == m.log;
  }

  lemma TopGood(m: Machine, top: Frame)
    requires Good(m) && top.isStatic == m.top.isStatic && top.reason == m.top.reason
    ensures Good(m.(top := top)) && Grew(m, m.(top := top))
  {
  }

  lemma EnterGood(m: Machine, child: Frame)
    requires Good(m) && (m.top.isStatic ==> child.isStatic) && MayCreate(child)
    ensures
      var n := Snapshot(m.(top := child, parents := m.parents + [m.top]));
      Good(n) && n.log == m.log && m.marks <= n.marks
  {
    var n := Snapshot(m.(top := child, parents := m.parents + [m.top]));
    assert Sorted(n.marks);
    forall i | 0 <= i < |n.parents| && n.parents[i].isStatic ensures n.top.isStatic && n.marks[i] == |n.log| {
      if i < |m.parents| {
        assert m.parents[i].isStatic;
      }
    }
    forall i, j | 0 <= i <= j < |n.parents| && n.parents[i].isStatic ensures n.parents[j].isStatic {
      if i < |m.parents| {
        assert m.parents[i].isStatic;
      }
    }
  }

  lemma JoinGood(m: Machine)
    requires Good(m) && m.parents != []
    ensures
      var n := Join(CommitSnapshot(m).value);
      CommitSnapshot(m).Some? && Good(n) && n.log == m.log && n.marks <= m.marks && SameModes(m, n)
  {
    var n := Join(CommitSnapshot(m).value);
    assert Sorted(n.marks);
    assert n.top.isStatic ==> m.parents[|n.parents|].isStatic;
  }

  lemma RevertGood(m: Machine)
    requires Good(m)
    ensures RevertSnapshot(m).Some?
    ensures
      var n := RevertSnapshot(m).value;
      && n.log == m.log[..Last(m.marks)] && n.marks == Init(m.marks)
      && (m.parents == [] ==> Finished(n) && n.log == m.log[..1])
      && (m.parents != [] ==> Good(Join(n)) && SameModes(m, Join(n)))
  {
    var n := RevertSnapshot(m).value;
    if m.parents != [] {
      var k := Join(n);
      assert Sorted(k.marks);
      forall i | 0 <= i < |m.parents| && m.parents[i].isStatic ensures n.log == m.log {
        assert m.top.isStatic;
      }
      assert k.top == m.parents[|k.parents|];
    }
  }

  lemma AfterGood(m: Machine, data: seq<Byte>, word: Word)
    requires Good(m)
    ensures Delivers(m, AfterCall(m, data, word)) && Delivers(m, AfterCreate(m, word))
    ensures Delivers(m, WithReturnData(AfterCall(m, data, word), data))
    ensures Delivers(m, WithReturnData(AfterCreate(m, word), data))
  {
  }

  /** Same journal and frames, only the current frame's contents may differ. */
  predicate Delivers(m: Machine, h: Handled) {
    match h
    case Panicked => false
    case Raised(n, _) => Alike(m, n)
    case Next(n, flow) => Alike(m, n) && flow == Continue
  }

  predicate Alike(m: Machine, n: Machine) {
    n == m.(top := n.top) && n.top.isStatic == m.top.isStatic && n.top.reason == m.top.reason
  }

  lemma AlikeGood(m: Machine, n: Machine)
    requires Good(m) && Alike(m, n)
    ensures Good(n)
  {
    TopGood(m, n.top);
  }

  // ---- Leaving ---------------------------------------------------------------------------------

  lemma DeliveredBehaves(m: Machine, joined: Machine, h: Handled)
    requires Good(joined) && joined.log == m.log && joined.marks <= m.marks && Delivers(joined, h)
    requires SameModes(m, joined) && Depth(joined) + 1 == Depth(m)
    ensures Behaves(m, h)
  {
    match h
    case Next(n, _) => AlikeGood(joined, n);
    case Raised(n, _) => AlikeGood(joined, n);
  }

  lemma LeaveBehaves(m: Machine, exit: Flow)
    requires Good(m) && IsExit(exit) && !exit.Reverted?
    ensures Behaves(m, Leave(m, exit))
  {
    if m.parents != [] {
      JoinGood(m);
      var joined := Join(CommitSnapshot(m).value);
      AfterGood(joined, [], 1);
      AfterGood(joined, [], 0);
      DeliveredBehaves(m, joined, Leave(m, exit));
    }
  }

  lemma BehavesTrans(m: Machine, n: Machine, h: Handled)
    requires Grew(m, n) && n.marks == m.marks && n.parents == m.parents && n.top.isStatic == m.top.isStatic
    requires Behaves(n, h)
    ensures Behaves(m, h)
  {
  }

  lemma ReturnBehaves(b: Backend, m: Machine, data: seq<Byte>)
    requires Good(m)
    ensures Behaves(m, ReturnImpl(b, m, data))
  {
    var h := ReturnImpl(b, m, data);
    if m.top.reason == ByCreate && (ForkFails(b, ByCreate, data) || |data| > CODE_SIZE_LIMIT) {
      RaisedBehaves(m);
    } else {
      var action := [EvmSetCode(m.top.contract, data)];
      var deployed := if m.top.reason == ByCreate then Append(m, action) else m;
      if m.top.reason == ByCreate {
        AppendGood(m, action);
      }
      LeftBehaves(m, deployed, data, h);
    }
  }

  lemma LeftBehaves(m: Machine, deployed: Machine, data: seq<Byte>, h: Handled)
    requires Good(deployed) && Grew(m, deployed) && deployed.marks == m.marks && deployed.top == m.top
    requires deployed.parents == m.parents
    requires
      var n := CommitSnapshot(deployed).value;
      var output := if m.top.reason == ByCreate then [] else data;
      CommitSnapshot(deployed).Some? && h ==
        if n.parents == [] then Next(n, Returned(output))
        else if m.top.reason == ByCall then WithReturnData(AfterCall(Join(n), output, 1), output)
        else AfterCreate(Join(n), m.top.contract)
    ensures Behaves(m, h)
  {
    if m.parents != [] {
      JoinGood(deployed);
      var joined := Join(CommitSnapshot(deployed).value);
      AfterGood(joined, if m.top.reason == ByCreate then [] else data, 1);
      AfterGood(joined, data, m.top.contract);
      DeliveredBehaves(deployed, joined, h);
      BehavesTrans(m, deployed, h);
    }
  }

  // ---- Handlers --------------------------------------------------------------------------------

  /** A handler that first changes the current frame's contents or, outside static mode, appends. */
  lemma AfterTop(m: Machine, top: Frame, h: Handled)
    requires Good(m) && top.isStatic == m.top.isStatic && top.reason == m.top.reason
    requires Behaves(m.(top := top), h)
    ensures Behaves(m, h)
  {
    TopGood(m, top);
    BehavesTrans(m, m.(top := top), h);
  }

  lemma AfterAppend(m: Machine, actions: seq<Action>, h: Handled)
    requires Good(m) && (m.top.isStatic ==> actions == []) && Behaves(Append(m, actions), h)
    ensures Behaves(m, h)
  {
    AppendGood(m, actions);
    BehavesTrans(m, Append(m, actions), h);
  }

  lemma RaisedBehaves(m: Machine)
    requires Good(m)
    ensures forall error: Failure :: Behaves(m, Raised(m, error))
  {
  }

  lemma SStoreBehaves(m: Machine)
    requires Good(m)
    ensures Behaves(m, SStoreOp(m))
  {
    if SStoreOp(m).Next? {
      TopGood(m, Pop(m.top, 2));
      AppendGood(m.(top := Pop(m.top, 2)), [Last(SStoreOp(m).machine.log)]);
    }
  }

  lemma LogBehaves(m: Machine, topics: nat)
    requires Good(m)
    ensures Behaves(m, LogOp(m, topics))
  {
    TopGood(m, LogOp(m, topics).machine.top);
  }

  lemma TransferGood(m: Machine, source: Address, target: Address, value: Word)
    requires Good(m) && (m.top.isStatic ==> value == 0)
    ensures Good(Transfer(m, source, target, value)) && Grew(m, Transfer(m, source, target, value))
    ensures Transfer(m, source, target, value) == m.(log := Transfer(m, source, target, value).log)
  {
    if value != 0 {
      AppendGood(m, [NeonTransfer(source, target, value)]);
    }
  }

  lemma NativeBehaves(b: Backend, m: Machine, address: Address, callee: Callee)
    requires Good(m)
    ensures Behaves(m, CallNative(b, m, address, callee))
  {
    if callee.Native? && !NativeRefuses(m.top, address, callee) {
      if callee.output.None? {
        AppendGood(m, Queue(callee.queued));
      } else {
        AppendGood(m, NativeActions(m.top, callee));
        ReturnBehaves(b, Append(m, NativeActions(m.top, callee)), callee.output.value);
        AfterAppend(m, NativeActions(m.top, callee), CallNative(b, m, address, callee));
      }
    }
  }

  /** From the parent's point of view, whatever the entered frame does at once. */
  lemma EnteredBehaves(m: Machine, n: Machine, h: Handled)
    requires Good(m) && Good(n) && n.log == m.log && n.marks == m.marks + [|m.log|] && SameModes(m, n)
    requires m.top.isStatic ==> n.top.isStatic
    requires Behaves(n, h) && Depth(n) == Depth(m) + 1
    ensures Behaves(m, h)
  {
    if h.Raised? || (h.Next? && !IsExit(h.flow)) {
      var k := h.machine;
      assert m.marks <= k.marks by { assert n.marks <= k.marks || k.marks <= n.marks; }
      SameModesTrans(m, n, k);
    } else if h.Next? {
      SameModesTrans(m, n, h.machine);
    }
  }

  lemma SameModesTrans(m: Machine, n: Machine, k: Machine)
    requires SameModes(m, n) && SameModes(n, k) && Depth(n) >= Depth(m)
    ensures SameModes(m, k)
  {
  }

  lemma PreparedBehaves(m: Machine, hasValue: bool)
    requires Good(m)
    ensures
      match PrepareCall(m.top, hasValue)
      case Ready(input) => input.frame.isStatic == m.top.isStatic && input.frame.reason == m.top.reason
      case NotReady(f, error) => Behaves(m, Raised(m.(top := f), error))
  {
    match PrepareCall(m.top, hasValue)
    case NotReady(f, _) => TopGood(m, f);
    case _ =>
  }

  function Entered(m: Machine, input: CallInput, caller: Address, contract: Address, value: Word, code: seq<Byte>,
                   quiet: bool): Machine
  {
    var n := Enter(m, input, caller, contract, value, code);
    if quiet then n.(top := n.top.(isStatic := true)) else n
  }

  /** What follows from the entered frame also follows from the calling one. */
  lemma EnteredFamily(m: Machine, input: CallInput, n: Machine, h: Handled)
    requires Good(m) && input.frame.isStatic == m.top.isStatic && input.frame.reason == m.top.reason
    requires m.top.isStatic ==> n.top.isStatic
    requires n.top.reason == ByCall && Good(n) && Behaves(n, h)
    requires n == Snapshot(m.(top := n.top, parents := m.parents + [input.frame]))
    ensures Behaves(m, h)
  {
    var p := m.(top := input.frame);
    TopGood(m, input.frame);
    EnteredBehaves(p, n, h);
    AfterTop(m, input.frame, h);
  }

  lemma EnteredGood(m: Machine, input: CallInput, caller: Address, contract: Address, value: Word, code: seq<Byte>,
                    quiet: bool)
    requires Good(m) && input.frame.isStatic == m.top.isStatic && input.frame.reason == m.top.reason
    ensures
      var n := Entered(m, input, caller, contract, value, code, quiet);
      && Good(n) && n.top.reason == ByCall && (m.top.isStatic ==> n.top.isStatic)
      && n == Snapshot(m.(top := n.top, parents := m.parents + [input.frame]))
    ensures Behaves(m, Raised(m.(top := input.frame), OtherFailure))
  {
    var n := Entered(m, input, caller, contract, value, code, quiet);
    TopGood(m, input.frame);
    EnterGood(m.(top := input.frame), n.top);
  }

  lemma CallBehaves(b: Backend, m: Machine, callee: Callee)
    requires Good(m)
    ensures Behaves(m, CallOp(b, m, callee))
  {
    PreparedBehaves(m, true);
    if PrepareCall(m.top, true).Ready? {
      var input := PrepareCall(m.top, true).input;
      var code := JournalCode(b, m, input.address);
      EnteredGood(m, input, m.top.contract, input.address, input.value, code, false);
      if !ForkFails(b, ByCall, code) {
        var n := Enter(m, input, m.top.contract, input.address, input.value, code);
        var h := CallOp(b, m, callee);
        if (n.top.isStatic && input.value != 0) || !CanPay(b, n, m.top.contract, input.value) {
          RaisedBehaves(n);
        } else {
          var t := Transfer(n, m.top.contract, input.address, input.value);
          TransferGood(n, m.top.contract, input.address, input.value);
          NativeBehaves(b, t, input.address, callee);
          BehavesTrans(n, t, h);
        }
        EnteredFamily(m, input, n, h);
      }
    }
  }

  lemma CallCodeBehaves(b: Backend, m: Machine, callee: Callee)
    requires Good(m)
    ensures Behaves(m, CallCodeOp(b, m, callee))
  {
    PreparedBehaves(m, true);
    if PrepareCall(m.top, true).Ready? {
      var input := PrepareCall(m.top, true).input;
      var code := JournalCode(b, m, input.address);
      EnteredGood(m, input, m.top.contract, m.top.contract, input.value, code, false);
      if !ForkFails(b, ByCall, code) {
        var n := Enter(m, input, m.top.contract, m.top.contract, input.value, code);
        RaisedBehaves(n);
        NativeBehaves(b, n, input.address, callee);
        EnteredFamily(m, input, n, CallCodeOp(b, m, callee));
      }
    }
  }

  lemma DelegateCallBehaves(b: Backend, m: Machine, callee: Callee)
    requires Good(m)
    ensures Behaves(m, DelegateCallOp(b, m, callee))
  {
    PreparedBehaves(m, false);
    if PrepareCall(m.top, false).Ready? {
      var input := PrepareCall(m.top, false).input;
      var code := JournalCode(b, m, input.address);
      EnteredGood(m, input, m.top.caller, m.top.contract, m.top.value, code, false);
      if !ForkFails(b, ByCall, code) {
        var n := Enter(m, input, m.top.caller, m.top.contract, m.top.value, code);
        NativeBehaves(b, n, input.address, callee);
        EnteredFamily(m, input, n, DelegateCallOp(b, m, callee));
      }
    }
  }

  lemma StaticCallBehaves(b: Backend, m: Machine, callee: Callee)
    requires Good(m)
    ensures Behaves(m, StaticCallOp(b, m, callee))
  {
    PreparedBehaves(m, false);
    if PrepareCall(m.top, false).Ready? {
      var input := PrepareCall(m.top, false).input;
      var code := JournalCode(b, m, input.address);
      EnteredGood(m, input, m.top.contract, input.address, 0, code, true);
      if !ForkFails(b, ByCall, code) {
        var n := Entered(m, input, m.top.contract, input.address, 0, code, true);
        NativeBehaves(b, n, input.address, callee);
        EnteredFamily(m, input, n, StaticCallOp(b, m, callee));
      }
    }
  }

  lemma CreateCountedBehaves(b: Backend, m: Machine, address: Address, value: Word, init: seq<Byte>)
    requires Good(m) && !m.top.isStatic
    ensures Behaves(m, CreateCounted(b, m, address, value, init))
  {
    var creator := m.top.contract;
    if HasEofMagic(init) && (!HasEofMagic(JournalCode(b, m, creator)) || ForkFails(b, ByCreate, init)) {
      RaisedBehaves(m);
    } else {
      var forked := Snapshot(Fork(m, ByCreate, creator, address, value, init, []));
      EnterGood(m, forked.top);
      CreatedBehaves(b, m, forked, creator, address, value, CreateCounted(b, m, address, value, init));
    }
  }

  lemma CreateImplBehaves(b: Backend, m: Machine, address: Address, value: Word, init: seq<Byte>)
    requires Good(m) && !m.top.isStatic
    ensures Behaves(m, CreateImpl(b, m, address, value, init))
  {
    if NonceSpent(b, m) {
      RaisedBehaves(m);
    } else {
      var top := m.top.(returnData := [], returnOffset := 0, returnLength := 0);
      var appended := Append(m, [EvmIncrementNonce(m.top.contract)]);
      AppendGood(m, [EvmIncrementNonce(m.top.contract)]);
      TopGood(appended, top);
      CreateCountedBehaves(b, appended.(top := top), address, value, init);
      CountedBehaves(m, appended, top, CreateCounted(b, appended.(top := top), address, value, init));
    }
  }

  lemma CountedBehaves(m: Machine, appended: Machine, top: Frame, h: Handled)
    requires Good(m) && Good(appended) && Grew(m, appended)
    requires appended.marks == m.marks && appended.parents == m.parents && appended.top.isStatic == m.top.isStatic
    requires top.isStatic == appended.top.isStatic && top.reason == appended.top.reason
    requires Behaves(appended.(top := top), h)
    ensures Behaves(m, h)
  {
    AfterTop(appended, top, h);
    BehavesTrans(m, appended, h);
  }

  lemma CreatedBehaves(b: Backend, m: Machine, forked: Machine, creator: Address, address: Address, value: Word,
                       h: Handled)
    requires Good(m) && Good(forked) && !m.top.isStatic && !forked.top.isStatic
    requires forked.log == m.log && forked.marks == m.marks + [|m.log|] && SameModes(m, forked)
             && Depth(forked) == Depth(m) + 1
    requires h == if !Unused(b, forked, address) || !CanPay(b, forked, creator, value) then Raised(forked, OtherFailure)
                  else Next(Transfer(Append(forked, [EvmIncrementNonce(address)]), creator, address, value), Noop)
    ensures Behaves(m, h)
  {
    if h.Raised? {
      RaisedBehaves(forked);
    } else {
      var counted := Append(forked, [EvmIncrementNonce(address)]);
      AppendGood(forked, [EvmIncrementNonce(address)]);
      TransferGood(counted, creator, address, value);
      BehavesTrans(forked, counted, h);
    }
    EnteredBehaves(m, forked, h);
  }

  lemma CreateBehaves(b: Backend, m: Machine, operands: nat, address: Address)
    requires Good(m) && operands >= 3
    ensures Behaves(m, CreateOp(b, m, operands, address))
  {
    var h := CreateOp(b, m, operands, address);
    if m.top.isStatic || |m.top.stack| < operands || !Usize(m.top, 1) || !Usize(m.top, 2) {
      RaisedBehaves(m);
    } else {
      var read := ReadBuffer(Pop(m.top, operands), Operand(m.top, 1), Operand(m.top, 2));
      TopGood(m, read.frame);
      if read.Lost? {
        RaisedBehaves(m.(top := read.frame));
      } else {
        CreateImplBehaves(b, m.(top := read.frame), address, Operand(m.top, 0), read.data);
      }
      AfterTop(m, read.frame, h);
    }
  }

  lemma SelfDestructBehaves(b: Backend, m: Machine)
    requires Good(m)
    ensures Behaves(m, SelfDestructOp(b, m))
  {
    if m.top.isStatic || |m.top.stack| < 1 {
      RaisedBehaves(m);
    } else {
      var n := m.(top := Pop(m.top, 1));
      TopGood(m, n.top);
      var h := SelfDestructOp(b, m);
      var balance := JournalBalance(b, n, m.top.contract);
      if balance.Err? {
        RaisedBehaves(n);
      } else {
        var heir := Operand(m.top, 0) % ADDRESS_RANGE;
        var t := Transfer(n, m.top.contract, heir, balance.value);
        TransferGood(n, m.top.contract, heir, balance.value);
        var d := Append(t, [EvmSelfDestruct(m.top.contract)]);
        AppendGood(t, [EvmSelfDestruct(m.top.contract)]);
        LeaveBehaves(d, Suicided);
        BehavesTrans(t, d, h);
        BehavesTrans(n, t, h);
      }
      AfterTop(m, n.top, h);
    }
  }

  lemma ReturnOpBehaves(b: Backend, m: Machine)
    requires Good(m)
    ensures Behaves(m, ReturnOp(b, m))
  {
    if |m.top.stack| < 2 || !Usize(m.top, 0) || !Usize(m.top, 1) {
      RaisedBehaves(m);
    } else {
      var read := ReadBuffer(Pop(m.top, 2), Operand(m.top, 0), Operand(m.top, 1));
      TopGood(m, read.frame);
      if read.Lost? {
        RaisedBehaves(m.(top := read.frame));
      } else {
        ReturnBehaves(b, m.(top := read.frame), read.data);
      }
      AfterTop(m, read.frame, ReturnOp(b, m));
    }
  }

  lemma ComputeBehaves(m: Machine, stack: seq<Word>, target: nat)
    requires Good(m)
    ensures Behaves(m, ComputeOp(m, stack, target))
  {
    TopGood(m, m.top.(stack := stack));
  }

  lemma LoadBehaves(m: Machine, offset: nat, length: nat, stack: seq<Word>, target: nat)
    requires Good(m)
    ensures Behaves(m, LoadOp(m, offset, length, stack, target))
  {
    var f := ReadBuffer(m.top, offset, length).frame;
    TopGood(m, f);
    RaisedBehaves(m.(top := f));
    ComputeBehaves(m.(top := f), stack, target);
    AfterTop(m, f, LoadOp(m, offset, length, stack, target));
  }

  lemma StoreBehaves(m: Machine, offset: nat, bytes: seq<Byte>, stack: seq<Word>, target: nat)
    requires Good(m)
    ensures Behaves(m, StoreOp(m, offset, bytes, stack, target))
  {
    var f := WriteMemory(m.top, offset, bytes).frame;
    TopGood(m, f);
    RaisedBehaves(m.(top := f));
    ComputeBehaves(m.(top := f), stack, target);
    AfterTop(m, f, StoreOp(m, offset, bytes, stack, target));
  }

  lemma HandleBehaves(b: Backend, m: Machine, i: Instruction)
    requires Good(m) && i != Revert
    ensures Behaves(m, Handle(b, m, i))
  {
    if EntersFrames(i) {
      EntersBehaves(b, m, i);
    } else {
      StaysBehaves(b, m, i);
    }
  }

  predicate EntersFrames(i: Instruction) {
    i.Create? || i.Create2? || i.Call? || i.CallCode? || i.DelegateCall? || i.StaticCall?
  }

  lemma StaysBehaves(b: Backend, m: Machine, i: Instruction)
    requires Good(m) && i != Revert && !EntersFrames(i)
    ensures Behaves(m, Handle(b, m, i))
  {
    match i
    case Compute(stack, target) => ComputeBehaves(m, stack, target);
    case Load(offset, length, stack, target) => LoadBehaves(m, offset, length, stack, target);
    case Store(offset, bytes, stack, target) => StoreBehaves(m, offset, bytes, stack, target);
    case Fault => RaisedBehaves(m);
    case SStore => SStoreBehaves(m);
    case Log(topics) => LogBehaves(m, topics);
    case Return => ReturnOpBehaves(b, m);
    case SelfDestruct => SelfDestructBehaves(b, m);
    case Stop => LeaveBehaves(m, Stopped);
  }

  lemma EntersBehaves(b: Backend, m: Machine, i: Instruction)
    requires Good(m) && EntersFrames(i)
    ensures Behaves(m, Handle(b, m, i))
  {
    if i.Create? {
      CreateBehaves(b, m, 3, i.address);
    } else if i.Create2? {
      CreateBehaves(b, m, 4, i.address);
    } else {
      CallsBehave(b, m, i);
    }
  }

  lemma CallsBehave(b: Backend, m: Machine, i: Instruction)
    requires Good(m) && (i.Call? || i.CallCode? || i.DelegateCall? || i.StaticCall?)
    ensures Behaves(m, Handle(b, m, i))
  {
    if i.Call? {
      CallBehaves(b, m, i.callee);
    } else if i.CallCode? {
      CallCodeBehaves(b, m, i.callee);
    } else {
      OtherCallsBehave(b, m, i);
    }
  }

  lemma OtherCallsBehave(b: Backend, m: Machine, i: Instruction)
    requires Good(m) && (i.DelegateCall? || i.StaticCall?)
    ensures Behaves(m, Handle(b, m, i))
  {
    if i.DelegateCall? {
      DelegateCallBehaves(b, m, i.callee);
      assert Handle(b, m, i) == DelegateCallOp(b, m, i.callee);
    } else {
      StaticCallBehaves(b, m, i.callee);
      assert Handle(b, m, i) == StaticCallOp(b, m, i.callee);
    }
  }

  // ---- Reverting -------------------------------------------------------------------------------

  /** A revert of `m`'s current frame: the log is cut at its mark. Only delivering the result to the
      parent can fail. */
  predicate Rolls(m: Machine, h: Handled) {
    match h
    case Panicked => false
    case Raised(n, _) => m.parents != [] && Good(n) && RolledTo(m, n)
    case Next(n, flow) =>
      RolledTo(m, n) &&
      if flow.Reverted? then Finished(n) && m.parents == [] else flow == Continue && Good(n) && m.parents != []
  }

  predicate RolledTo(m: Machine, n: Machine) {
    m.marks != [] && Last(m.marks) <= |m.log| && n.log == m.log[..Last(m.marks)] && n.marks == Init(m.marks)
    && |n.parents| == (if m.parents == [] then 0 else |m.parents| - 1)
    && SameModes(m, n)
  }

  lemma RevertRolls(m: Machine, data: seq<Byte>)
    requires Good(m)
    ensures Rolls(m, RevertImpl(m, data))
  {
    RevertGood(m);
    if m.parents != [] {
      var joined := Join(RevertSnapshot(m).value);
      AfterGood(joined, data, 0);
      DeliveredRolls(m, joined, RevertImpl(m, data));
    }
  }

  lemma DeliveredRolls(m: Machine, joined: Machine, h: Handled)
    requires Good(joined) && m.parents != [] && Delivers(joined, h) && RolledTo(m, joined)
    ensures Rolls(m, h)
  {
    match h {
      case Next(n, _) => AlikeGood(joined, n);
      case Raised(n, _) => AlikeGood(joined, n);
    }
  }

  /** The REVERT opcode itself: an error before the revert, or the revert. */
  predicate Fails(m: Machine, h: Handled) {
    h.Raised? && Behaves(m, h) && Depth(h.machine) == Depth(m)
  }

  lemma RevertOpRolls(m: Machine)
    requires Good(m)
    ensures Fails(m, RevertOp(m)) || Rolls(m, RevertOp(m))
  {
    RaisedBehaves(m);
    if |m.top.stack| >= 2 && Usize(m.top, 0) && Usize(m.top, 1) {
      var read := ReadBuffer(Pop(m.top, 2), Operand(m.top, 0), Operand(m.top, 1));
      TopGood(m, read.frame);
      if read.Got? {
        RevertRolls(m.(top := read.frame), read.data);
      }
    }
  }

  /** What a handler may have done. */
  predicate Course(m: Machine, i: Instruction, h: Handled) {
    if i == Revert then Fails(m, h) || Rolls(m, h) else Behaves(m, h)
  }

  lemma HandleCourse(b: Backend, m: Machine, i: Instruction)
    requires Good(m)
    ensures Course(m, i, Handle(b, m, i))
  {
    if i == Revert {
      RevertOpRolls(m);
    } else {
      HandleBehaves(b, m, i);
    }
  }

  // ---- One step --------------------------------------------------------------------------------

  /** Marks and log below frame `d`'s snapshot are the same in both. */
  predicate Below(m: Machine, n: Machine, d: nat) {
    && d < |m.marks| && d < |n.marks|
    && m.marks[..d + 1] == n.marks[..d + 1]
    && m.marks[d] <= |m.log| && m.marks[d] <= |n.log|
    && n.log[..m.marks[d]] == m.log[..m.marks[d]]
    && d < Depth(m) && d < Depth(n) && FrameAt(m, d).isStatic == FrameAt(n, d).isStatic
  }

  lemma GrewBelow(m: Machine, n: Machine, d: nat)
    requires Good(m) && Grew(m, n) && d < |m.marks| && d < |n.marks| && |n.marks| == Depth(n)
    ensures Below(m, n, d)
  {
  }

  lemma RolledBelow(m: Machine, n: Machine, d: nat)
    requires Good(m) && RolledTo(m, n) && d < |n.marks| && |n.marks| == Depth(n)
    ensures Below(m, n, d)
  {
  }

  lemma BelowTrans(m: Machine, n: Machine, k: Machine, d: nat)
    requires Below(m, n, d) && Below(n, k, d)
    ensures Below(m, k, d)
  {
    assert m.marks[..d + 1][d] == n.marks[..d + 1][d];
  }

  /** What a step keeps of the frames that are there before and after it. */
  predicate Keeps(m: Machine, o: Outcome, d: nat) {
    match o
    case Crashed => false
    case Aborted => true
    case Exited(n, status) =>
      && Finished(n) && m.log != [] && n.log[0] == m.log[0]
      && (status.RevertedWith? ==> n.log == m.log[..1])
    case Running(n) =>
      && Good(n)
      && (d < Depth(m) && d < Depth(n) ==> Below(m, n, d))
  }

  lemma AdvanceGood(n: Machine, pc: nat)
    requires Good(n)
    ensures Good(n.(top := n.top.(pc := pc)))
  {
    TopGood(n, n.top.(pc := pc));
  }

  lemma GrewKeeps(m: Machine, h: Handled, d: nat)
    requires Good(m) && h.Next? && Behaves(m, h)
    ensures Keeps(m, Advance(h.machine, h.flow), d)
  {
    var n := h.machine;
    if !IsExit(h.flow) {
      AdvanceGood(n, match h.flow case Jump(t) => t case Continue => n.top.pc + 1 case _ => n.top.pc);
      GrewBelowToo(m, n, d);
    }
  }

  lemma GrewBelowToo(m: Machine, n: Machine, d: nat)
    requires Good(m) && Good(n) && Grew(m, n)
    ensures d < Depth(m) && d < Depth(n) ==> Below(m, n, d)
  {
    if d < Depth(m) && d < Depth(n) {
      GrewBelow(m, n, d);
    }
  }

  /** From `via`, which `m` grew into, the current frame is reverted. */
  lemma RolledKeeps(m: Machine, via: Machine, h: Handled, d: nat)
    requires Good(m) && Good(via) && Grew(m, via) && h.Next? && Rolls(via, h)
    ensures Keeps(m, Advance(h.machine, h.flow), d)
  {
    var n := h.machine;
    if h.flow.Reverted? {
      assert n.log == via.log[..1] == m.log[..1];
    } else {
      AdvanceGood(n, n.top.pc + 1);
      RolledBelowToo(m, via, n, d);
    }
  }

  lemma RolledBelowToo(m: Machine, via: Machine, n: Machine, d: nat)
    requires Good(m) && Good(via) && Good(n) && Grew(m, via) && RolledTo(via, n)
    ensures d < Depth(m) && d < Depth(n) ==> Below(m, n, d)
  {
    if d < Depth(m) && d < Depth(n) {
      GrewBelow(m, via, d);
      RolledBelow(via, n, d);
      BelowTrans(m, via, n, d);
    }
  }

  /** The frame reverted, its parent could not take the result, and is reverted as well. */
  lemma RolledTwiceKeeps(m: Machine, via: Machine, h: Handled, d: nat)
    requires Good(m) && RolledTo(m, via) && m.parents != [] && Good(via) && h.Next? && Rolls(via, h)
    ensures Keeps(m, Advance(h.machine, h.flow), d)
  {
    var n := h.machine;
    if !h.flow.Reverted? {
      AdvanceGood(n, n.top.pc + 1);
      if d < Depth(m) && d < Depth(n) {
        RolledBelow(m, via, d);
        RolledBelow(via, n, d);
        BelowTrans(m, via, n, d);
      }
    }
  }

  /** Every step of every program keeps the invariant, never fails an assertion, and leaves marks and
      log below the frames it does not leave as they are. */
  lemma StepKeeps(b: Backend, m: Machine, i: Instruction, message: seq<Byte>, d: nat)
    requires Good(m)
    ensures Keeps(m, Step(b, m, i, message), d)
  {
    HandleCourse(b, m, i);
    CourseKeeps(m, i, Handle(b, m, i), message, d);
  }

  lemma CourseKeeps(m: Machine, i: Instruction, h: Handled, message: seq<Byte>, d: nat)
    requires Good(m) && Course(m, i, h)
    ensures Keeps(m, Recover(h, message), d)
  {
    if h.Raised? {
      RaisedKeeps(m, i, h, message, d);
    } else if i == Revert {
      RolledKeeps(m, m, h, d);
    } else {
      GrewKeeps(m, h, d);
    }
  }

  lemma RaisedKeeps(m: Machine, i: Instruction, h: Handled, message: seq<Byte>, d: nat)
    requires Good(m) && Course(m, i, h) && h.Raised?
    ensures Keeps(m, Recover(h, message), d)
  {
    var r := RevertImpl(h.machine, message);
    RevertRolls(h.machine, message);
    if r.Next? {
      if i == Revert && Rolls(m, h) {
        RolledTwiceKeeps(m, h.machine, r, d);
      } else {
        RolledKeeps(m, h.machine, r, d);
      }
    }
  }

  // ---- Whole runs ------------------------------------------------------------------------------

  type Trace = seq<(Instruction, seq<Byte>)>

  /** A run is any sequence of instructions, whatever code they were decoded from. */
  function Run(b: Backend, m: Machine, trace: Trace): Outcome
    decreases |trace|
  {
    if trace == [] then Running(m) else
      match Run(b, m, Init(trace))
      case Running(n) => Step(b, n, Last(trace).0, Last(trace).1)
      case o => o
  }

  /** The frame at index `d` is there at every moment of the run. */
  predicate StaysAbove(b: Backend, m: Machine, trace: Trace, d: nat)
    decreases |trace|
  {
    && Run(b, m, trace).Running? && Depth(Run(b, m, trace).machine) > d
    && (trace != [] ==> StaysAbove(b, m, Init(trace), d))
  }

  /** No run fails an assertion, whatever it does, and every log starts with the origin's nonce
      increment. */
  lemma {:induction false} RunKeeps(b: Backend, m: Machine, trace: Trace)
    requires Good(m)
    ensures
      var o := Run(b, m, trace);
      && o != Crashed
      && (o.Running? ==> Good(o.machine) && o.machine.log[0] == m.log[0])
      && (o.Exited? ==> Finished(o.machine) && o.machine.log[0] == m.log[0])
      && (o.Exited? && o.status.RevertedWith? ==> |o.machine.log| == 1)
    decreases |trace|
  {
    if trace != [] {
      RunKeeps(b, m, Init(trace));
      if Run(b, m, Init(trace)).Running? {
        var n := Run(b, m, Init(trace)).machine;
        StepKeeps(b, n, Last(trace).0, Last(trace).1, 0);
        SameStart(n, Step(b, n, Last(trace).0, Last(trace).1));
      }
    }
  }

  lemma SameStart(m: Machine, o: Outcome)
    requires Good(m) && Keeps(m, o, 0)
    ensures o.Running? ==> o.machine.log[0] == m.log[0]
  {
    if o.Running? {
      assert m.log[..1][0] == m.log[0] && o.machine.log[..1][0] == o.machine.log[0];
    }
  }

  lemma {:induction false} RunBelow(b: Backend, m: Machine, trace: Trace, d: nat)
    requires Good(m) && StaysAbove(b, m, trace, d)
    ensures Good(Run(b, m, trace).machine) && Below(m, Run(b, m, trace).machine, d)
    decreases |trace|
  {
    if trace != [] {
      RunBelow(b, m, Init(trace), d);
      var n := Run(b, m, Init(trace)).machine;
      StepKeeps(b, n, Last(trace).0, Last(trace).1, d);
      BelowTrans(m, n, Run(b, m, trace).machine, d);
    }
  }

  /** A step that leaves frames by reverting: an error was raised, or REVERT was carried out. */
  predicate LeavesByRevert(b: Backend, m: Machine, i: Instruction, message: seq<Byte>) {
    && Step(b, m, i, message).Running?
    && Depth(Step(b, m, i, message).machine) < Depth(m)
    && (Handle(b, m, i).Raised? || i == Revert)
  }

  /** However many levels a step leaves by reverting, the log is cut at the mark of the outermost frame
      it leaves. */
  lemma StepReverts(b: Backend, m: Machine, i: Instruction, message: seq<Byte>)
    requires Good(m) && LeavesByRevert(b, m, i, message)
    ensures
      var k := Depth(Step(b, m, i, message).machine);
      k < |m.marks| && m.marks[k] <= |m.log| && Step(b, m, i, message).machine.log == m.log[..m.marks[k]]
  {
    HandleCourse(b, m, i);
    CourseReverts(m, i, Handle(b, m, i), message);
  }

  lemma CourseReverts(m: Machine, i: Instruction, h: Handled, message: seq<Byte>)
    requires Good(m) && Course(m, i, h) && (h.Raised? || i == Revert)
    requires Recover(h, message).Running? && Depth(Recover(h, message).machine) < Depth(m)
    ensures
      var n := Recover(h, message).machine;
      m.marks[Depth(n)] <= |m.log| && n.log == m.log[..m.marks[Depth(n)]]
  {
    if h.Next? {
      RolledCut(m, m, h);
    } else {
      RaisedReverts(m, i, h, message);
    }
  }

  lemma RaisedReverts(m: Machine, i: Instruction, h: Handled, message: seq<Byte>)
    requires Good(m) && Course(m, i, h) && h.Raised?
    requires Recover(h, message).Running? && Depth(Recover(h, message).machine) < Depth(m)
    ensures
      var n := Recover(h, message).machine;
      m.marks[Depth(n)] <= |m.log| && n.log == m.log[..m.marks[Depth(n)]]
  {
    RevertRolls(h.machine, message);
    if i == Revert && Rolls(m, h) {
      RolledTwiceCut(m, h.machine, RevertImpl(h.machine, message));
    } else {
      RolledCut(m, h.machine, RevertImpl(h.machine, message));
    }
  }

  lemma RolledCut(m: Machine, via: Machine, h: Handled)
    requires Good(m) && Good(via) && Grew(m, via) && Rolls(via, h) && h.Next? && h.flow == Continue
    requires Depth(h.machine) < Depth(m)
    ensures m.marks[Depth(h.machine)] <= |m.log| && h.machine.log == m.log[..m.marks[Depth(h.machine)]]
  {
    var k := Depth(h.machine);
    assert Depth(via) == k + 1;
    assert via.marks[k] == m.marks[k];
  }

  lemma RolledTwiceCut(m: Machine, via: Machine, h: Handled)
    requires Good(m) && Good(via) && m.parents != [] && RolledTo(m, via) && Rolls(via, h) && h.Next?
             && h.flow == Continue
    ensures
      var k := Depth(h.machine);
      k < |m.marks| && m.marks[k] <= |m.log| && h.machine.log == m.log[..m.marks[k]]
  {
    var k := Depth(h.machine);
    assert Depth(via) == k + 1 && Depth(m) == k + 2;
    assert via.marks[k] == m.marks[k] <= Last(m.marks);
  }

  /** Only a revert leaves more than one level. */
  lemma OneLevelOrRevert(b: Backend, m: Machine, i: Instruction, message: seq<Byte>)
    requires Good(m) && Step(b, m, i, message).Running? && Depth(Step(b, m, i, message).machine) + 1 < Depth(m)
    ensures LeavesByRevert(b, m, i, message)
  {
    HandleCourse(b, m, i);
    ManyLevels(m, i, Handle(b, m, i), message);
  }

  lemma ManyLevels(m: Machine, i: Instruction, h: Handled, message: seq<Byte>)
    requires Good(m) && Course(m, i, h)
    requires Recover(h, message).Running? && Depth(Recover(h, message).machine) + 1 < Depth(m)
    ensures h.Raised? || i == Revert
  {
  }

  /** Atomic calls: when frames are left by a revert, whether the one at index `d` failed itself, could
      not take its callee's result, or was left together with a caller that could not take its own, the
      log is exactly as it was at the snapshot of the outermost frame that was left, after any nested
      activity. */
  lemma RevertedCallIsAtomic(b: Backend, entered: Machine, trace: Trace, i: Instruction, message: seq<Byte>)
    requires Good(entered) && StaysAbove(b, entered, trace, |entered.parents|)
    requires LeavesByRevert(b, Run(b, entered, trace).machine, i, message)
    requires Depth(Step(b, Run(b, entered, trace).machine, i, message).machine) <= |entered.parents|
    ensures
      var after := Step(b, Run(b, entered, trace).machine, i, message).machine;
      var k := Depth(after);
      entered.marks[k] <= |entered.log| && after.log == entered.log[..entered.marks[k]]
  {
    var d := |entered.parents|;
    RunBelow(b, entered, trace, d);
    var n := Run(b, entered, trace).machine;
    StepReverts(b, n, i, message);
    SameCut(entered, n, d, Depth(Step(b, n, i, message).machine));
  }

  lemma SameCut(m: Machine, n: Machine, d: nat, k: nat)
    requires Good(m) && Good(n) && Below(m, n, d) && k <= d
    ensures n.marks[k] == m.marks[k] <= |m.log| && m.marks[k] <= |n.log|
    ensures n.log[..n.marks[k]] == m.log[..m.marks[k]]
  {
    assert m.marks[..d + 1][k] == n.marks[..d + 1][k];
    assert m.marks[k] <= m.marks[d];
    assert n.log[..m.marks[d]][..m.marks[k]] == m.log[..m.marks[d]][..m.marks[k]];
  }

  lemma StaticFrameIsQuiet(m: Machine, n: Machine, d: nat)
    requires Good(m) && Good(n) && Below(m, n, d) && FrameAt(m, d).isStatic
    ensures n.log == m.log && n.top.isStatic
  {
    assert m.marks[d] == |m.log| && n.marks[d] == |n.log|;
    assert m.marks[..d + 1][d] == n.marks[..d + 1][d];
    assert m.log[..|m.log|] == m.log && n.log[..|n.log|] == n.log;
  }

  /** Static calls: as long as a static frame is there, nothing is logged and every frame above it is
      static. */
  lemma StaticRunIsQuiet(b: Backend, m: Machine, trace: Trace)
    requires Good(m) && m.top.isStatic && StaysAbove(b, m, trace, |m.parents|)
    ensures Run(b, m, trace).machine.log == m.log && Run(b, m, trace).machine.top.isStatic
  {
    RunBelow(b, m, trace, |m.parents|);
    StaticFrameIsQuiet(m, Run(b, m, trace).machine, |m.parents|);
  }
}
