/** The legacy machine: nested frames over the journal. One instruction is one step; whatever its
    handler returns as an error reverts the frame that is innermost at that point. */
module CallFrames {
  import opened Opcodes
  import opened WordArithmetic
  import opened StorageLayout
  import opened Accounts
  import opened Journal
  import opened WordBytes
  import EvmMemory

  datatype Reason = ByCall | ByCreate

  datatype Frame = Frame(
    isStatic: bool,
    reason: Reason,
    caller: Address,
    contract: Address,
    value: Word,
    code: seq<Byte>,
    callData: seq<Byte>,
    stack: seq<Word>,
    memory: EvmMemory.Mem,
    pc: nat,
    returnData: seq<Byte>,
    returnOffset: nat,
    returnLength: nat)

  /** The current frame, its parents with the outermost first, and the journal's actions and
      snapshot marks. */
  datatype Machine = Machine(top: Frame, parents: seq<Frame>, log: seq<Action>, marks: seq<nat>)

  /** What the machine sees of the chain: the applied accounts and the verdicts of the EOF container
      parser and validator. */
  datatype Chain = Chain(world: World, unparsable: set<seq<Byte>>, unvalidated: set<seq<Byte>>)

  type Backend = b: Chain | WorldOk(b.world) witness Chain(World(map[], map[], {}), {}, {})

  datatype Flow =
    | Continue
    | Noop
    | Jump(target: nat)
    | Stopped
    | Returned(data: seq<Byte>)
    | Reverted(data: seq<Byte>)
    | Suicided

  /** The errors of handlers; only a memory range out of limits is told apart. */
  datatype Failure = MemoryAccessOutOfLimits(offset: nat, length: nat) | OtherFailure

  /** What a handler returns: a flow, an error, or no return because an assertion failed. */
  datatype Handled = Next(machine: Machine, flow: Flow) | Raised(machine: Machine, error: Failure) | Panicked

  /** What a called precompiled contract or extension does: the external instructions it queues,
      whether it withdraws the call's value, and its output unless it fails. */
  datatype Callee = Ordinary | Native(queued: seq<nat>, withdraws: bool, output: Option<seq<Byte>>)

  /** A decoded opcode. `Compute`, `Load` and `Store` stand for the opcodes that only change the current
      frame, with the stack they leave and where they go on: without memory, reading a range of it, and
      writing one. `Fault` stands for any handler that fails before it touches memory, frames or journal.
      The addresses of created contracts come from hashing and are given. */
  datatype Instruction =
    | Compute(stack: seq<Word>, target: nat)
    | Load(offset: nat, length: nat, stack: seq<Word>, target: nat)
    | Store(offset: nat, bytes: seq<Byte>, stack: seq<Word>, target: nat)
    | Fault
    | SStore
    | Log(topics: nat)
    | Create(address: Address)
    | Create2(address: Address)
    | Call(callee: Callee)
    | CallCode(callee: Callee)
    | DelegateCall(callee: Callee)
    | StaticCall(callee: Callee)
    | Return
    | Revert
    | SelfDestruct
    | Stop

  const OPERANDS: nat := 127
  const ADDRESS_RANGE: int := 0x1_0000_0000_0000_0000_0000_0000_0000_0000_0000_0000

  // ---- Reads over the journal ------------------------------------------------------------------

  function JournalNonce(b: Backend, m: Machine, a: Address): Result<nat> {
    NonceOver(Nonce(b.world, a), m.log, a)
  }

  function JournalBalance(b: Backend, m: Machine, a: Address): Result<Word> {
    BalanceOver(Balance(b.world, a), m.log, a)
  }

  function JournalCode(b: Backend, m: Machine, a: Address): seq<Byte> {
    CodeOver(Code(b.world, a), m.log, a)
  }

  predicate CanPay(b: Backend, m: Machine, a: Address, value: Word) {
    JournalBalance(b, m, a).Ok? && JournalBalance(b, m, a).value >= value
  }

  predicate Unused(b: Backend, m: Machine, a: Address) {
    JournalNonce(b, m, a) == Ok(0) && JournalCode(b, m, a) == []
  }

  function Append(m: Machine, actions: seq<Action>): Machine {
    m.(log := m.log + actions)
  }

  function Transfer(m: Machine, source: Address, target: Address, value: Word): Machine {
    if value == 0 || source == target then m else Append(m, [NeonTransfer(source, target, value)])
  }

  // ---- Operands and memory ---------------------------------------------------------------------

  function Operand(f: Frame, i: nat): Word
    requires i < |f.stack|
  {
    f.stack[|f.stack| - 1 - i]
  }

  predicate Usize(f: Frame, i: nat)
    requires i < |f.stack|
  {
    Operand(f, i) <= EvmMemory.USIZE_MAX
  }

  function Pop(f: Frame, n: nat): Frame
    requires n <= |f.stack|
  {
    f.(stack := f.stack[..|f.stack| - n])
  }

  function Push(f: Frame, v: Word): Option<Frame> {
    if |f.stack| >= OPERANDS then None else Some(f.(stack := f.stack + [v]))
  }

  datatype Read = Got(frame: Frame, data: seq<Byte>) | Lost(frame: Frame)

  function ReadBuffer(f: Frame, offset: nat, length: nat): Read {
    match EvmMemory.ReadMem(f.memory, offset, length)
    case Missed(m) => Lost(f.(memory := m))
    case Grew(m) => Got(f.(memory := m), if length == 0 then [] else m.data[offset..offset + length])
  }

  datatype Written = Wrote(frame: Frame) | Unwritten(frame: Frame)

  function WriteMemory(f: Frame, offset: nat, bytes: seq<Byte>): Written {
    match EvmMemory.WriteMem(f.memory, offset, bytes)
    case Missed(m) => Unwritten(f.(memory := m))
    case Grew(m) => Wrote(f.(memory := m))
  }

  /** The return range is filled with the data, zeros after its end. */
  function WriteRange(f: Frame, data: seq<Byte>): Written {
    WriteMemory(f, f.returnOffset, EvmMemory.Padded(data, 0, f.returnLength))
  }

  /** The end of the range wraps; a range that ends before its start is empty. */
  function RangeLength(offset: nat, length: nat): nat {
    if offset + length <= EvmMemory.USIZE_MAX then length else 0
  }

  // ---- Frames and snapshots --------------------------------------------------------------------

  predicate HasEofMagic(code: seq<Byte>) {
    |code| >= 2 && code[0] == 0xEF && code[1] == 0
  }

  predicate ForkFails(b: Backend, reason: Reason, code: seq<Byte>) {
    HasEofMagic(code) && (code in b.unparsable || (reason == ByCreate && code in b.unvalidated))
  }

  function Fork(m: Machine, reason: Reason, caller: Address, contract: Address, value: Word, code: seq<Byte>,
                callData: seq<Byte>): Machine
  {
    var child := Frame(m.top.isStatic, reason, caller, contract, value, code, callData, [], EvmMemory.EMPTY, 0, [], 0,
                       0);
    m.(top := child, parents := m.parents + [m.top])
  }

  function Join(m: Machine): Machine
    requires m.parents != []
  {
    m.(top := Last(m.parents), parents := Init(m.parents))
  }

  function Snapshot(m: Machine): Machine {
    m.(marks := m.marks + [|m.log|])
  }

  function CommitSnapshot(m: Machine): Option<Machine> {
    if m.marks == [] then None else Some(m.(marks := Init(m.marks)))
  }

  /** `None` for the panics: no mark, or the sanity check on the log that is left. */
  function RevertSnapshot(m: Machine): Option<Machine> {
    if m.marks == [] then None else
      var log := if Last(m.marks) <= |m.log| then m.log[..Last(m.marks)] else m.log;
      if |m.marks| == 1 && !(|log| == 1 && log[0].EvmIncrementNonce?) then None
      else Some(m.(marks := Init(m.marks), log := log))
  }

  // ---- Leaving a frame -------------------------------------------------------------------------

  /** After joining a called frame: the data goes to the return range and the flag on the stack. */
  function AfterCall(m: Machine, data: seq<Byte>, flag: Word): Handled {
    match WriteRange(m.top, data)
    case Unwritten(f) => Raised(m.(top := f), MemoryAccessOutOfLimits(m.top.returnOffset, m.top.returnLength))
    case Wrote(f) => AfterCreate(m.(top := f), flag)
  }

  function AfterCreate(m: Machine, result: Word): Handled {
    match Push(m.top, result)
    case None => Raised(m, OtherFailure)
    case Some(pushed) => Next(m.(top := pushed), Continue)
  }

  function WithReturnData(h: Handled, data: seq<Byte>): Handled {
    match h
    case Next(m, flow) => Next(m.(top := m.top.(returnData := data)), flow)
    case _ => h
  }

  function ReturnImpl(b: Backend, m: Machine, data: seq<Byte>): Handled {
    if m.top.reason == ByCreate && (ForkFails(b, ByCreate, data) || |data| > CODE_SIZE_LIMIT)
      then Raised(m, OtherFailure)
    else
      var deployed := if m.top.reason == ByCreate then Append(m, [EvmSetCode(m.top.contract, data)]) else m;
      var output := if m.top.reason == ByCreate then [] else data;
      match CommitSnapshot(deployed)
      case None => Panicked
      case Some(n) =>
        if n.parents == [] then Next(n, Returned(output))
        else if m.top.reason == ByCall then WithReturnData(AfterCall(Join(n), output, 1), output)
        else AfterCreate(Join(n), m.top.contract)
  }

  function RevertImpl(m: Machine, data: seq<Byte>): Handled {
    match RevertSnapshot(m)
    case None => Panicked
    case Some(n) =>
      if n.parents == [] then Next(n, Reverted(data))
      else if m.top.reason == ByCall then WithReturnData(AfterCall(Join(n), data, 0), data)
      else WithReturnData(AfterCreate(Join(n), 0), data)
  }

  /** The common end of STOP and SELFDESTRUCT. */
  function Leave(m: Machine, exit: Flow): Handled {
    match CommitSnapshot(m)
    case None => Panicked
    case Some(n) =>
      if n.parents == [] then Next(n, exit)
      else if m.top.reason == ByCall then AfterCall(Join(n), [], 1)
      else AfterCreate(Join(n), 0)
  }

  // ---- Handlers --------------------------------------------------------------------------------

  function LoadOp(m: Machine, offset: nat, length: nat, stack: seq<Word>, target: nat): Handled {
    match ReadBuffer(m.top, offset, length)
    case Lost(f) => Raised(m.(top := f), MemoryAccessOutOfLimits(offset, length))
    case Got(f, _) => ComputeOp(m.(top := f), stack, target)
  }

  function StoreOp(m: Machine, offset: nat, bytes: seq<Byte>, stack: seq<Word>, target: nat): Handled {
    match WriteMemory(m.top, offset, bytes)
    case Unwritten(f) => Raised(m.(top := f), MemoryAccessOutOfLimits(offset, |bytes|))
    case Wrote(f) => ComputeOp(m.(top := f), stack, target)
  }

  function ComputeOp(m: Machine, stack: seq<Word>, target: nat): Handled {
    if |stack| > OPERANDS then Raised(m, OtherFailure) else Next(m.(top := m.top.(stack := stack)), Jump(target))
  }

  function SStoreOp(m: Machine): Handled {
    if m.top.isStatic || |m.top.stack| < 2 then Raised(m, OtherFailure)
    else
      var write := EvmSetStorage(m.top.contract, Operand(m.top, 0), WordToBytes(Operand(m.top, 1)));
      Next(Append(m.(top := Pop(m.top, 2)), [write]), Continue)
  }

  /** The range is read before the topics are taken. */
  function LogOp(m: Machine, topics: nat): Handled {
    if m.top.isStatic || |m.top.stack| < 2 || !Usize(m.top, 0) || !Usize(m.top, 1) then Raised(m, OtherFailure)
    else
      match ReadBuffer(Pop(m.top, 2), Operand(m.top, 0), Operand(m.top, 1))
      case Lost(f) => Raised(m.(top := f), MemoryAccessOutOfLimits(Operand(m.top, 0), Operand(m.top, 1)))
      case Got(f, _) =>
        if |f.stack| < topics then Raised(m.(top := f), OtherFailure) else Next(m.(top := Pop(f, topics)), Continue)
  }

  predicate NonceSpent(b: Backend, m: Machine) {
    JournalNonce(b, m, m.top.contract).Err? || JournalNonce(b, m, m.top.contract).value >= U64_MAX
  }

  /** CREATE and CREATE2 up to reading the initialization code, which comes before counting the nonce. */
  function CreateOp(b: Backend, m: Machine, operands: nat, address: Address): Handled
    requires operands >= 3
  {
    if m.top.isStatic || |m.top.stack| < operands || !Usize(m.top, 1) || !Usize(m.top, 2) then Raised(m, OtherFailure)
    else
      match ReadBuffer(Pop(m.top, operands), Operand(m.top, 1), Operand(m.top, 2))
      case Lost(f) => Raised(m.(top := f), MemoryAccessOutOfLimits(Operand(m.top, 1), Operand(m.top, 2)))
      case Got(f, init) => CreateImpl(b, m.(top := f), address, Operand(m.top, 0), init)
  }

  /** The creator's nonce is part of the creator's frame; everything after the snapshot is undone
      when the creation fails. */
  function CreateImpl(b: Backend, m: Machine, address: Address, value: Word, init: seq<Byte>): Handled {
    if NonceSpent(b, m) then Raised(m, OtherFailure)
    else
      var top := m.top.(returnData := [], returnOffset := 0, returnLength := 0);
      CreateCounted(b, Append(m, [EvmIncrementNonce(m.top.contract)]).(top := top), address, value, init)
  }

  function CreateCounted(b: Backend, m: Machine, address: Address, value: Word, init: seq<Byte>): Handled {
    var creator := m.top.contract;
    if HasEofMagic(init) && (!HasEofMagic(JournalCode(b, m, creator)) || ForkFails(b, ByCreate, init))
    then Raised(m, OtherFailure)
    else
      var forked := Snapshot(Fork(m, ByCreate, creator, address, value, init, []));
      if !Unused(b, forked, address) || !CanPay(b, forked, creator, value) then Raised(forked, OtherFailure)
      else Next(Transfer(Append(forked, [EvmIncrementNonce(address)]), creator, address, value), Noop)
  }

  datatype CallInput = CallInput(frame: Frame, address: Address, value: Word, data: seq<Byte>)

  datatype Prepared = Ready(input: CallInput) | NotReady(frame: Frame, error: Failure)

  /** The operands of the call family, with or without a value, and the call data. */
  function PrepareCall(f: Frame, hasValue: bool): Prepared {
    var n := if hasValue then 7 else 6;
    if |f.stack| < n || !Usize(f, n - 4) || !Usize(f, n - 3) || !Usize(f, n - 2) || !Usize(f, n - 1)
    then NotReady(f, OtherFailure)
    else
      var length := RangeLength(Operand(f, n - 2), Operand(f, n - 1));
      var g := Pop(f, n).(returnData := [], returnOffset := Operand(f, n - 2), returnLength := length);
      match ReadBuffer(g, Operand(f, n - 4), Operand(f, n - 3))
      case Lost(h) => NotReady(h, MemoryAccessOutOfLimits(Operand(f, n - 4), Operand(f, n - 3)))
      case Got(h, data) =>
        Ready(CallInput(h, Operand(f, 1) % ADDRESS_RANGE, if hasValue then Operand(f, 2) else 0, data))
  }

  /** The called frame, after its snapshot. */
  function Enter(m: Machine, input: CallInput, caller: Address, contract: Address, value: Word,
                 code: seq<Byte>): Machine {
    Snapshot(Fork(m.(top := input.frame), ByCall, caller, contract, value, code, input.data))
  }

  function CallOp(b: Backend, m: Machine, callee: Callee): Handled {
    match PrepareCall(m.top, true)
    case NotReady(f, error) => Raised(m.(top := f), error)
    case Ready(input) =>
      var code := JournalCode(b, m, input.address);
      if ForkFails(b, ByCall, code) then Raised(m.(top := input.frame), OtherFailure)
      else
        var caller := m.top.contract;
        var n := Enter(m, input, caller, input.address, input.value, code);
        if (n.top.isStatic && input.value != 0) || !CanPay(b, n, caller, input.value) then Raised(n, OtherFailure)
        else CallNative(b, Transfer(n, caller, input.address, input.value), input.address, callee)
  }

  function CallCodeOp(b: Backend, m: Machine, callee: Callee): Handled {
    match PrepareCall(m.top, true)
    case NotReady(f, error) => Raised(m.(top := f), error)
    case Ready(input) =>
      var code := JournalCode(b, m, input.address);
      if ForkFails(b, ByCall, code) then Raised(m.(top := input.frame), OtherFailure)
      else
        var n := Enter(m, input, m.top.contract, m.top.contract, input.value, code);
        if !CanPay(b, n, m.top.contract, input.value) then Raised(n, OtherFailure)
        else CallNative(b, n, input.address, callee)
  }

  function DelegateCallOp(b: Backend, m: Machine, callee: Callee): Handled {
    match PrepareCall(m.top, false)
    case NotReady(f, error) => Raised(m.(top := f), error)
    case Ready(input) =>
      var code := JournalCode(b, m, input.address);
      if ForkFails(b, ByCall, code) then Raised(m.(top := input.frame), OtherFailure)
      else CallNative(b, Enter(m, input, m.top.caller, m.top.contract, m.top.value, code), input.address, callee)
  }

  function StaticCallOp(b: Backend, m: Machine, callee: Callee): Handled {
    match PrepareCall(m.top, false)
    case NotReady(f, error) => Raised(m.(top := f), error)
    case Ready(input) =>
      var code := JournalCode(b, m, input.address);
      if ForkFails(b, ByCall, code) then Raised(m.(top := input.frame), OtherFailure)
      else
        var n := Enter(m, input, m.top.contract, input.address, 0, code);
        CallNative(b, n.(top := n.top.(isStatic := true)), input.address, callee)
  }

  function Queue(ids: seq<nat>): seq<Action> {
    if ids == [] then [] else Queue(Init(ids)) + [ExternalInstruction(Last(ids))]
  }

  /** The actions of an extension; the withdrawal is the last of them. */
  function NativeActions(f: Frame, callee: Callee): seq<Action>
    requires callee.Native?
  {
    Queue(callee.queued) + if callee.withdraws then [NeonWithdraw(f.contract, f.value)] else []
  }

  /** Extensions change nothing in static mode, and withdraw only when called as themselves with a
      value. */
  predicate NativeRefuses(f: Frame, address: Address, callee: Callee)
    requires callee.Native?
  {
    || (f.isStatic && (callee.queued != [] || callee.withdraws))
    || (callee.withdraws && (f.contract != address || f.value == 0))
  }

  function CallNative(b: Backend, m: Machine, address: Address, callee: Callee): Handled {
    if callee.Ordinary? then Next(m, Noop)
    else if NativeRefuses(m.top, address, callee) then Raised(m, OtherFailure)
    else if callee.output.None? then Raised(Append(m, Queue(callee.queued)), OtherFailure)
    else ReturnImpl(b, Append(m, NativeActions(m.top, callee)), callee.output.value)
  }

  function ReturnOp(b: Backend, m: Machine): Handled {
    if |m.top.stack| < 2 || !Usize(m.top, 0) || !Usize(m.top, 1) then Raised(m, OtherFailure)
    else
      match ReadBuffer(Pop(m.top, 2), Operand(m.top, 0), Operand(m.top, 1))
      case Lost(f) => Raised(m.(top := f), MemoryAccessOutOfLimits(Operand(m.top, 0), Operand(m.top, 1)))
      case Got(f, data) => ReturnImpl(b, m.(top := f), data)
  }

  function RevertOp(m: Machine): Handled {
    if |m.top.stack| < 2 || !Usize(m.top, 0) || !Usize(m.top, 1) then Raised(m, OtherFailure)
    else
      match ReadBuffer(Pop(m.top, 2), Operand(m.top, 0), Operand(m.top, 1))
      case Lost(f) => Raised(m.(top := f), MemoryAccessOutOfLimits(Operand(m.top, 0), Operand(m.top, 1)))
      case Got(f, data) => RevertImpl(m.(top := f), data)
  }

  /** The whole balance goes to the heir, unless the heir is the contract itself. */
  function SelfDestructOp(b: Backend, m: Machine): Handled {
    if m.top.isStatic || |m.top.stack| < 1 then Raised(m, OtherFailure)
    else
      var contract, heir := m.top.contract, Operand(m.top, 0) % ADDRESS_RANGE;
      var n := m.(top := Pop(m.top, 1));
      match JournalBalance(b, n, contract)
      case Err(_) => Raised(n, OtherFailure)
      case Ok(balance) =>
        Leave(Append(Transfer(n, contract, heir, balance), [EvmSelfDestruct(contract)]), Suicided)
  }

  function Handle(b: Backend, m: Machine, i: Instruction): Handled {
    match i
    case Compute(stack, target) => ComputeOp(m, stack, target)
    case Load(offset, length, stack, target) => LoadOp(m, offset, length, stack, target)
    case Store(offset, bytes, stack, target) => StoreOp(m, offset, bytes, stack, target)
    case Fault => Raised(m, OtherFailure)
    case SStore => SStoreOp(m)
    case Log(topics) => LogOp(m, topics)
    case Create(address) =>
      if JournalNonce(b, m, m.top.contract).Err? then Raised(m, OtherFailure) else CreateOp(b, m, 3, address)
    case Create2(address) => CreateOp(b, m, 4, address)
    case Call(callee) => CallOp(b, m, callee)
    case CallCode(callee) => CallCodeOp(b, m, callee)
    case DelegateCall(callee) => DelegateCallOp(b, m, callee)
    case StaticCall(callee) => StaticCallOp(b, m, callee)
    case Return => ReturnOp(b, m)
    case Revert => RevertOp(m)
    case SelfDestruct => SelfDestructOp(b, m)
    case Stop => Leave(m, Stopped)
  }

  // ---- Steps and runs --------------------------------------------------------------------------

  datatype ExitStatus = Halt | Output(data: seq<Byte>) | RevertedWith(data: seq<Byte>) | Suicide

  /** One step leaves the machine running, exits, fails the whole instruction, or panics. */
  datatype Outcome = Running(machine: Machine) | Exited(machine: Machine, status: ExitStatus) | Aborted | Crashed

  function Advance(m: Machine, flow: Flow): Outcome {
    match flow
    case Continue => Running(m.(top := m.top.(pc := m.top.pc + 1)))
    case Noop => Running(m)
    case Jump(target) => Running(m.(top := m.top.(pc := target)))
    case Stopped => Exited(m, Halt)
    case Returned(data) => Exited(m, Output(data))
    case Reverted(data) => Exited(m, RevertedWith(data))
    case Suicided => Exited(m, Suicide)
  }

  /** An error reverts the innermost frame with its message; an error of that revert aborts. */
  function Recover(h: Handled, message: seq<Byte>): Outcome {
    match h
    case Next(m, flow) => Advance(m, flow)
    case Panicked => Crashed
    case Raised(m, _) =>
      match RevertImpl(m, message)
      case Next(n, flow) => Advance(n, flow)
      case Raised(_, _) => Aborted
      case Panicked => Crashed
  }

  function Step(b: Backend, m: Machine, i: Instruction, message: seq<Byte>): Outcome {
    Recover(Handle(b, m, i), message)
  }

  datatype Transaction = Transaction(nonce: nat, chainId: Option<Word>, target: Option<Address>, value: Word,
                                     data: seq<Byte>)

  function OuterFrame(reason: Reason, origin: Address, contract: Address, value: Word, code: seq<Byte>,
                      callData: seq<Byte>): Frame
  {
    Frame(false, reason, origin, contract, value, code, callData, [], EvmMemory.EMPTY, 0, [], 0, 0)
  }

  /** `Machine::new` on an empty journal; `None` for its errors. `created` is the address a creation
      would deploy to. */
  function NewMachine(b: Backend, chainId: Word, trx: Transaction, origin: Address, created: Address): Option<Machine> {
    var nonce := Nonce(b.world, origin);
    if nonce >= U64_MAX || nonce != trx.nonce || (trx.chainId.Some? && trx.chainId.value != chainId)
       || Balance(b.world, origin) < trx.value || Code(b.world, origin) != [] then None
    else if trx.target.Some? then
      var code := JournalCode(b, Machine(OuterFrame(ByCall, origin, origin, 0, [], []), [], [], []), trx.target.value);
      var frame := OuterFrame(ByCall, origin, trx.target.value, trx.value, code, trx.data);
      var m := Transfer(Machine(frame, [], [EvmIncrementNonce(origin)], [1]), origin, trx.target.value, trx.value);
      if ForkFails(b, ByCall, code) then None else Some(m)
    else
      var frame := OuterFrame(ByCreate, origin, created, trx.value, trx.data, []);
      var m := Machine(frame, [], [EvmIncrementNonce(origin), EvmIncrementNonce(created)], [1]);
      if Nonce(b.world, created) != 0 || Code(b.world, created) != [] || ForkFails(b, ByCreate, trx.data) then None
      else Some(Transfer(m, origin, created, trx.value))
  }
}
