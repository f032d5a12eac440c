/** `apply_state_change`: the log is rearranged, accounts are created and resized, the actions are
    applied one by one and the collected storage writes are written out. */
module Apply {
  import opened Opcodes
  import opened WordArithmetic
  import opened StorageLayout
  import opened Accounts
  import opened Journal

  datatype Failure =
    | InsufficientFunds
    | NotInitialized
    | NonceOverflow
    | GenerationOverflow
    | AlreadyDeployed
    | NotEnoughSpace
    | EmptyCode
    | ExternalRefused
    | StorageFailed

  datatype Outcome<+T> = Done(value: T) | Failed(failure: Failure)

  type Write = (Word, Word32)

  const MAX_PERMITTED_DATA_INCREASE: nat := 10240

  // ---- Rearranging the log -------------------------------------------------------------------

  function Destroyed(log: seq<Action>): set<Address>
    decreases |log|
  {
    if log == [] then {}
    else if Last(log).EvmSelfDestruct? then Destroyed(Init(log)) + {Last(log).address}
    else Destroyed(Init(log))
  }

  /** Everything except self-destructs, and except the other EVM effects on destroyed accounts. */
  predicate Keeps(action: Action, destroyed: set<Address>) {
    match action
    case EvmSetStorage(address, _, _) => address !in destroyed
    case EvmSetCode(address, _) => address !in destroyed
    case EvmIncrementNonce(address) => address !in destroyed
    case EvmSelfDestruct(_) => false
    case _ => true
  }

  function Kept(log: seq<Action>, destroyed: set<Address>): seq<Action>
    decreases |log|
  {
    if log == [] then []
    else Kept(Init(log), destroyed) + if Keeps(Last(log), destroyed) then [Last(log)] else []
  }

  function Destructs(log: seq<Action>): seq<Action>
    decreases |log|
  {
    if log == [] then []
    else Destructs(Init(log)) + if Last(log).EvmSelfDestruct? then [Last(log)] else []
  }

  function Rearranged(log: seq<Action>): seq<Action> {
    Kept(log, Destroyed(log)) + Destructs(log)
  }

  // ---- Account space ---------------------------------------------------------------------------

  function SpaceNeeded(codeSize: nat): nat {
    ACCOUNT_SIZE + if codeSize > 0 then codeSize + INTERNAL_STORAGE_SIZE else 0
  }

  /** The account an action requires to exist, and its code size. */
  function Demand(action: Action): Option<(Address, nat)> {
    match action
    case NeonTransfer(_, target, _) => Some((target, 0))
    case EvmSelfDestruct(address) => Some((address, 0))
    case EvmSetCode(address, code) => Some((address, |code|))
    case _ => None
  }

  function Max(a: nat, b: nat): nat {
    if a >= b then a else b
  }

  function Min(a: nat, b: nat): nat {
    if a <= b then a else b
  }

  function AddDemand(m: map<Address, nat>, action: Action): map<Address, nat> {
    match Demand(action)
    case None => m
    case Some((a, size)) => m[a := if a in m then Max(SpaceNeeded(size), m[a]) else SpaceNeeded(size)]
  }

  function Needed(actions: seq<Action>): map<Address, nat>
    decreases |actions|
  {
    if actions == [] then map[] else AddDemand(Needed(Init(actions)), Last(actions))
  }

  /** `solana_account_space`. */
  function SpaceOf(w: World, a: Address): Option<nat> {
    if a in w.ether then Some(ACCOUNT_SIZE + |w.ether[a].data|)
    else if a in w.spare then Some(w.spare[a])
    else None
  }

  datatype Operation = Create(space: nat) | Resize(from: nat, to: nat)

  predicate Lacks(w: World, a: Address, needed: nat) {
    SpaceOf(w, a).None? || SpaceOf(w, a).value < needed
  }

  function OperationFor(w: World, a: Address, needed: nat): Operation {
    if SpaceOf(w, a).None? then Create(needed) else Resize(SpaceOf(w, a).value, needed)
  }

  function Operations(w: World, needed: map<Address, nat>): map<Address, Operation> {
    map a | a in needed && Lacks(w, a, needed[a]) :: OperationFor(w, a, needed[a])
  }

  /** The size one instruction can reach. */
  function Reached(op: Operation): nat {
    match op
    case Create(space) => Min(MAX_PERMITTED_DATA_INCREASE, space)
    case Resize(from, to) => Min(to, from + MAX_PERMITTED_DATA_INCREASE)
  }

  function Goal(op: Operation): nat {
    match op
    case Create(space) => space
    case Resize(_, to) => to
  }

  predicate AllReached(ops: map<Address, Operation>) {
    forall a :: a in ops ==> Reached(ops[a]) >= Goal(ops[a])
  }

  function Grow(a: Account, space: nat): Account {
    if ACCOUNT_SIZE + |a.data| < space then a.(data := a.data + Zeros(space - ACCOUNT_SIZE - |a.data|)) else a
  }

  /** One account brought to a size. */
  function Resized(w: World, a: Address, space: nat): World {
    if a in w.ether then w.(ether := w.ether[a := Grow(w.ether[a], space)]) else w.(spare := w.spare[a := space])
  }

  /** Every operation carried out, whatever the order. */
  function Processed(w: World, ops: map<Address, Operation>): World {
    World(
      map a | a in w.ether :: if a in ops then Grow(w.ether[a], Reached(ops[a])) else w.ether[a],
      map a | a in w.spare.Keys + (ops.Keys - w.ether.Keys) ::
        if a in ops && a !in w.ether then Reached(ops[a]) else w.spare[a],
      w.refused)
  }

  /** `create_account_if_not_exists`. */
  function CreateIfMissing(w: World, a: Address): Outcome<World> {
    if a in w.ether then Done(w)
    else if a !in w.spare || w.spare[a] < ACCOUNT_SIZE then Failed(NotInitialized)
    else Done(World(w.ether[a := Account(0, 0, 0, 0, Zeros(w.spare[a] - ACCOUNT_SIZE), map[])], w.spare - {a},
                    w.refused))
  }

  function Created(w: World, actions: seq<Action>): Outcome<World>
    decreases |actions|
  {
    if actions == [] then Done(w) else
      var before := Created(w, Init(actions));
      if before.Failed? || Demand(Last(actions)).None? then before
      else CreateIfMissing(before.value, Demand(Last(actions)).value.0)
  }

  // ---- One action ------------------------------------------------------------------------------------

  function WithAccount(w: World, a: Address, account: Account): World {
    w.(ether := w.ether[a := account])
  }

  function Credited(w: World, a: Address, value: Word): World
    requires a in w.ether
  {
    WithAccount(w, a, w.ether[a].(balance := WrappingAdd(w.ether[a].balance, value)))
  }

  function Debited(w: World, a: Address, value: Word): World
    requires a in w.ether && w.ether[a].balance >= value
  {
    WithAccount(w, a, w.ether[a].(balance := w.ether[a].balance - value))
  }

  function Transferred(w: World, source: Address, target: Address, value: Word): Outcome<World> {
    if source == target then Done(w)
    else if source !in w.ether || target !in w.ether then Failed(NotInitialized)
    else if w.ether[source].balance < value then Failed(InsufficientFunds)
    else Done(Credited(Debited(w, source, value), target, value))
  }

  function Withdraw(w: World, source: Address, value: Word): Outcome<World> {
    if source !in w.ether then Failed(NotInitialized)
    else if w.ether[source].balance < value then Failed(InsufficientFunds)
    else Done(Debited(w, source, value))
  }

  function Incremented(w: World, a: Address): Outcome<World> {
    if a !in w.ether then Failed(NotInitialized)
    else if w.ether[a].nonce >= U64_MAX then Failed(NonceOverflow)
    else Done(WithAccount(w, a, w.ether[a].(nonce := w.ether[a].nonce + 1)))
  }

  function DeployedTo(w: World, a: Address, code: seq<Byte>): Outcome<World> {
    if a !in w.ether then Failed(NotInitialized)
    else if w.ether[a].codeSize != 0 then Failed(AlreadyDeployed)
    else if ACCOUNT_SIZE + |w.ether[a].data| < SpaceNeeded(|code|) then Failed(NotEnoughSpace)
    else if code == [] then Failed(EmptyCode)
    else
      var d := w.ether[a].data;
      var data := d[..INTERNAL_STORAGE_SIZE] + code + d[INTERNAL_STORAGE_SIZE + |code|..];
      Done(WithAccount(w, a, w.ether[a].(codeSize := |code|, data := data)))
  }

  function Deleted(w: World, a: Address): Outcome<World> {
    if a !in w.ether then Failed(NotInitialized)
    else if w.ether[a].generation >= U32_MAX then Failed(GenerationOverflow)
    else
      var account := w.ether[a];
      var data := if account.codeSize > 0 then Zeros(|account.data|) else account.data;
      Done(WithAccount(w, a, account.(nonce := 0, generation := account.generation + 1, codeSize := 0, data := data)))
  }

  /** The accounts so far and the storage writes collected so far. */
  datatype Progress = Progress(world: World, pending: map<Address, seq<Write>>)

  function PendingFor(pending: map<Address, seq<Write>>, a: Address): seq<Write> {
    if a in pending then pending[a] else []
  }

  function Then(w: Outcome<World>, pending: map<Address, seq<Write>>): Outcome<Progress> {
    match w
    case Done(value) => Done(Progress(value, pending))
    case Failed(f) => Failed(f)
  }

  function Step(p: Progress, action: Action): Outcome<Progress> {
    match action
    case ExternalInstruction(id) => if id in p.world.refused then Failed(ExternalRefused) else Done(p)
    case NeonTransfer(source, target, value) => Then(Transferred(p.world, source, target, value), p.pending)
    case NeonWithdraw(source, value) => Then(Withdraw(p.world, source, value), p.pending)
    case EvmSetStorage(a, index, value) =>
      Done(p.(pending := p.pending[a := PendingFor(p.pending, a) + [(index, value)]]))
    case EvmIncrementNonce(a) => Then(Incremented(p.world, a), p.pending)
    case EvmSetCode(a, code) => Then(DeployedTo(p.world, a, code), p.pending)
    case EvmSelfDestruct(a) => Then(Deleted(p.world, a), p.pending - {a})
  }

  function Fold(p: Progress, actions: seq<Action>): Outcome<Progress>
    decreases |actions|
  {
    if actions == [] then Done(p) else
      var before := Fold(p, Init(actions));
      if before.Failed? then before else Step(before.value, Last(actions))
  }

  // ---- Writing out storage -----------------------------------------------------------------------------

  function WriteChunk(chunks: map<Word, Chunk>, generation: nat, index: Word, value: Word32)
    : Outcome<map<Word, Chunk>>
  {
    var c := ChunkOf(index);
    if c in chunks then
      Done(chunks[c := chunks[c].(entries := Put(chunks[c].entries, SubindexOf(index), value))])
    else if AddressTaken(chunks, c) then Failed(StorageFailed)
    else if value == ZERO then Done(chunks)
    else Done(chunks[c := Chunk(generation, Put([], SubindexOf(index), value))])
  }

  function WriteSlot(a: Account, write: Write): Outcome<Account> {
    if write.0 < STATIC_ENTRIES then
      if |a.data| < INTERNAL_STORAGE_SIZE then Failed(StorageFailed)
      else Done(a.(data := a.data[..32 * write.0] + write.1 + a.data[32 * write.0 + 32..]))
    else
      match WriteChunk(a.chunks, a.generation, write.0, write.1)
      case Done(chunks) => Done(a.(chunks := chunks))
      case Failed(f) => Failed(f)
  }

  function WriteSlots(a: Account, writes: seq<Write>): Outcome<Account>
    decreases |writes|
  {
    if writes == [] then Done(a) else
      var before := WriteSlots(a, Init(writes));
      if before.Failed? then before else WriteSlot(before.value, Last(writes))
  }

  predicate CanWrite(w: World, a: Address, writes: seq<Write>) {
    a in w.ether && w.ether[a].codeSize != 0 && WriteSlots(w.ether[a], writes).Done?
  }

  function Written(w: World, a: Address, pending: map<Address, seq<Write>>): Account
    requires a in w.ether && (a in pending ==> CanWrite(w, a, pending[a]))
  {
    if a in pending then WriteSlots(w.ether[a], pending[a]).value else w.ether[a]
  }

  predicate AllCanWrite(w: World, pending: map<Address, seq<Write>>) {
    forall a :: a in pending ==> CanWrite(w, a, pending[a])
  }

  function WrittenOut(w: World, pending: map<Address, seq<Write>>): Outcome<World> {
    if !AllCanWrite(w, pending) then Failed(StorageFailed)
    else Done(w.(ether := map a | a in w.ether :: Written(w, a, pending)))
  }

  /** Every contract outside `todo` has its writes, and the others are as they were. */
  predicate WrittenBut(w: World, ether: map<Address, Account>, pending: map<Address, seq<Write>>, todo: set<Address>) {
    && ether.Keys == w.ether.Keys
    && (forall a :: a in pending && a !in todo ==> CanWrite(w, a, pending[a]))
    && forall a :: a in w.ether ==>
      if a in pending && a !in todo then ether[a] == Written(w, a, pending) else ether[a] == w.ether[a]
  }

  lemma WrittenNext(w: World, before: map<Address, Account>, after: map<Address, Account>,
                    pending: map<Address, seq<Write>>, todo: set<Address>, a: Address)
    requires WrittenBut(w, before, pending, todo + {a}) && a in pending && a !in todo && CanWrite(w, a, pending[a])
    requires after == before[a := Written(w, a, pending)]
    ensures WrittenBut(w, after, pending, todo)
  {
  }

  lemma AllWritten(w: World, ether: map<Address, Account>, pending: map<Address, seq<Write>>)
    requires WrittenBut(w, ether, pending, {})
    ensures WrittenOut(w, pending) == Done(w.(ether := ether))
  {
    assert ether == map a | a in w.ether :: Written(w, a, pending);
  }

  // ---- The whole change -----------------------------------------------------------------------------------

  datatype Applied = Ready(world: World) | NeedMoreReallocations(world: World)

  function Finished(w: Outcome<World>): Outcome<Applied> {
    match w
    case Done(value) => Done(Ready(value))
    case Failed(f) => Failed(f)
  }

  /** What happens once every account has its space. */
  function ApplyActions(w: World, actions: seq<Action>): Outcome<Applied> {
    match Created(w, actions)
    case Failed(f) => Failed(f)
    case Done(created) =>
      match Fold(Progress(created, map[]), actions)
      case Failed(f) => Failed(f)
      case Done(p) => Finished(WrittenOut(p.world, p.pending))
  }

  function StateChange(w: World, log: seq<Action>): Outcome<Applied> {
    var actions := Rearranged(log);
    var ops := Operations(w, Needed(actions));
    if AllReached(ops) then ApplyActions(Processed(w, ops), actions)
    else Done(NeedMoreReallocations(Processed(w, ops)))
  }

  // ---- The storage, changed in place ------------------------------------------------------------------------

  lemma KeptPrefix(log: seq<Action>, i: nat, destroyed: set<Address>)
    requires i < |log|
    ensures Kept(log[..i + 1], destroyed) ==
            Kept(log[..i], destroyed) + if Keeps(log[i], destroyed) then [log[i]] else []
    ensures Destructs(log[..i + 1]) == Destructs(log[..i]) + if log[i].EvmSelfDestruct? then [log[i]] else []
    ensures Destroyed(log[..i + 1]) == Destroyed(log[..i]) + if log[i].EvmSelfDestruct? then {log[i].address} else {}
  {
    PrefixStep(log, i);
  }

  method RearrangeActions(log: seq<Action>) returns (rearranged: seq<Action>)
    ensures rearranged == Rearranged(log)
  {
    var destroyed: set<Address> := {};
    for i := 0 to |log|
      invariant destroyed == Destroyed(log[..i])
    {
      KeptPrefix(log, i, {});
      if log[i].EvmSelfDestruct? {
        destroyed := destroyed + {log[i].address};
      }
    }
    assert log[..|log|] == log;
    var selfDestructs: seq<Action> := [];
    rearranged := [];
    for i := 0 to |log|
      invariant rearranged == Kept(log[..i], destroyed) && selfDestructs == Destructs(log[..i])
    {
      KeptPrefix(log, i, destroyed);
      if log[i].EvmSelfDestruct? {
        selfDestructs := selfDestructs + [log[i]];
      } else if Keeps(log[i], destroyed) {
        rearranged := rearranged + [log[i]];
      }
    }
    rearranged := rearranged + selfDestructs;
  }

  lemma {:induction false} FoldFailureStays(p: Progress, actions: seq<Action>, i: nat)
    requires i <= |actions| && Fold(p, actions[..i]).Failed?
    ensures Fold(p, actions) == Fold(p, actions[..i])
    decreases |actions|
  {
    if i == |actions| {
      assert actions[..i] == actions;
    } else {
      assert Init(actions)[..i] == actions[..i];
      FoldFailureStays(p, Init(actions), i);
    }
  }

  lemma {:induction false} CreatedFailureStays(w: World, actions: seq<Action>, i: nat)
    requires i <= |actions| && Created(w, actions[..i]).Failed?
    ensures Created(w, actions) == Created(w, actions[..i])
    decreases |actions|
  {
    if i == |actions| {
      assert actions[..i] == actions;
    } else {
      assert Init(actions)[..i] == actions[..i];
      CreatedFailureStays(w, Init(actions), i);
    }
  }

  lemma {:induction false} WriteFailureStays(a: Account, writes: seq<Write>, i: nat)
    requires i <= |writes| && WriteSlots(a, writes[..i]).Failed?
    ensures WriteSlots(a, writes) == WriteSlots(a, writes[..i])
    decreases |writes|
  {
    if i == |writes| {
      assert writes[..i] == writes;
    } else {
      assert Init(writes)[..i] == writes[..i];
      WriteFailureStays(a, Init(writes), i);
    }
  }

  /** An error ends the instruction and the chain discards its effects, so the world after a
      failure is not described. */
  class ProgramAccountStorage {
    var ethereum: map<Address, Account>
    var spare: map<Address, nat>
    const refused: set<nat>

    constructor (w: World)
      ensures World() == Load(w)
    {
      ethereum, spare, refused := Load(w).ether, w.spare, w.refused;
    }

    function World(): World
      reads this
    {
      Accounts.World(ethereum, spare, refused)
    }

    method CalcAccountsOperations(actions: seq<Action>) returns (ops: map<Address, Operation>)
      ensures ops == Operations(World(), Needed(actions))
    {
      var needed: map<Address, nat> := map[];
      for i := 0 to |actions|
        invariant needed == Needed(actions[..i])
      {
        PrefixStep(actions, i);
        needed := AddDemand(needed, actions[i]);
      }
      assert actions[..|actions|] == actions;
      ops := map[];
      var todo := needed.Keys;
      while todo != {}
        invariant todo <= needed.Keys
        invariant forall a :: a in ops <==> a in needed && a !in todo && Lacks(World(), a, needed[a])
        invariant forall a :: a in ops ==> ops[a] == OperationFor(World(), a, needed[a])
        decreases |todo|
      {
        var a :| a in todo;
        todo := todo - {a};
        if Lacks(World(), a, needed[a]) {
          ops := ops[a := OperationFor(World(), a, needed[a])];
        }
      }
    }

    method ProcessAccountsOperations(ops: map<Address, Operation>) returns (ready: bool)
      modifies this
      ensures World() == Processed(old(World()), ops)
      ensures ready <==> AllReached(ops)
    {
      ready := true;
      var todo := ops.Keys;
      ghost var w := World();
      GrownNone(w, ops);
      while todo != {}
        invariant todo <= ops.Keys && Grown(w, ops, todo, World())
        invariant ready <==> forall a :: a in ops && a !in todo ==> Reached(ops[a]) >= Goal(ops[a])
        decreases |todo|
      {
        var a :| a in todo;
        GrowOne(w, ops, todo, World(), a);
        todo := todo - {a};
        var reached := ProcessOperation(a, ops[a]);
        ready := ready && reached;
      }
      GrownAll(w, ops, World());
    }

    method ProcessOperation(a: Address, op: Operation) returns (reached: bool)
      modifies this
      ensures World() == Resized(old(World()), a, Reached(op)) && reached == (Reached(op) >= Goal(op))
    {
      if a in ethereum {
        ethereum := ethereum[a := Grow(ethereum[a], Reached(op))];
      } else {
        spare := spare[a := Reached(op)];
      }
      reached := Reached(op) >= Goal(op);
    }

    method CreateAccountIfNotExists(a: Address) returns (r: Outcome<()>)
      modifies this
      ensures r.Failed? ==> CreateIfMissing(old(World()), a) == Failed(r.failure)
      ensures r.Done? ==> CreateIfMissing(old(World()), a) == Done(World())
    {
      if a in ethereum {
        return Done(());
      }
      if a !in spare || spare[a] < ACCOUNT_SIZE {
        return Failed(NotInitialized);
      }
      ethereum := ethereum[a := Account(0, 0, 0, 0, Zeros(spare[a] - ACCOUNT_SIZE), map[])];
      spare := spare - {a};
      r := Done(());
    }

    method TransferNeonTokens(source: Address, target: Address, value: Word) returns (r: Outcome<()>)
      modifies this`ethereum
      ensures r.Failed? ==> Transferred(old(World()), source, target, value) == Failed(r.failure)
      ensures r.Done? ==> Transferred(old(World()), source, target, value) == Done(World())
    {
      if source == target {
        return Done(());
      }
      if source !in ethereum || target !in ethereum {
        return Failed(NotInitialized);
      }
      if ethereum[source].balance < value {
        return Failed(InsufficientFunds);
      }
      ethereum := ethereum[source := ethereum[source].(balance := ethereum[source].balance - value)];
      ethereum := ethereum[target := ethereum[target].(balance := WrappingAdd(ethereum[target].balance, value))];
      r := Done(());
    }

    method DeployContract(a: Address, code: seq<Byte>) returns (r: Outcome<()>)
      modifies this`ethereum
      ensures r.Failed? ==> DeployedTo(old(World()), a, code) == Failed(r.failure)
      ensures r.Done? ==> DeployedTo(old(World()), a, code) == Done(World())
    {
      if a !in ethereum {
        return Failed(NotInitialized);
      }
      var account := ethereum[a];
      if account.codeSize != 0 {
        return Failed(AlreadyDeployed);
      }
      if ACCOUNT_SIZE + |account.data| < SpaceNeeded(|code|) {
        return Failed(NotEnoughSpace);
      }
      if |code| == 0 {
        return Failed(EmptyCode);
      }
      account := account.(codeSize := |code|);
      var tail := account.data[INTERNAL_STORAGE_SIZE + |code|..];
      ethereum := ethereum[a := account.(data := account.data[..INTERNAL_STORAGE_SIZE] + code + tail)];
      r := Done(());
    }

    method DeleteAccount(a: Address) returns (r: Outcome<()>)
      modifies this`ethereum
      ensures r.Failed? ==> Deleted(old(World()), a) == Failed(r.failure)
      ensures r.Done? ==> Deleted(old(World()), a) == Done(World())
    {
      if a !in ethereum {
        return Failed(NotInitialized);
      }
      var account := ethereum[a].(nonce := 0);
      if account.generation >= U32_MAX {
        return Failed(GenerationOverflow);
      }
      account := account.(generation := account.generation + 1);
      if account.codeSize != 0 {
        account := account.(data := Zeros(|account.data|));
      }
      account := account.(codeSize := 0);
      ethereum := ethereum[a := account];
      r := Done(());
    }

    /** The writes of one contract, in order. */
    method WriteContract(a: Address, writes: seq<Write>) returns (r: Outcome<()>)
      modifies this`ethereum
      ensures r.Done? <==> CanWrite(old(World()), a, writes)
      ensures r.Done? ==>
        ethereum == old(ethereum)[a := WriteSlots(old(ethereum)[a], writes).value]
    {
      if a !in ethereum || ethereum[a].codeSize == 0 {
        return Failed(StorageFailed);
      }
      ghost var before := ethereum[a];
      for i := 0 to |writes|
        invariant a in ethereum && ethereum == old(ethereum)[a := ethereum[a]]
        invariant WriteSlots(before, writes[..i]) == Done(ethereum[a])
      {
        WritesPrefix(writes, i);
        var written := WriteSlot(ethereum[a], writes[i]);
        if written.Failed? {
          WriteFailureStays(before, writes, i + 1);
          return Failed(StorageFailed);
        }
        ethereum := ethereum[a := written.value];
      }
      assert writes[..|writes|] == writes;
      r := Done(());
    }

    /** The collected writes, contract by contract in any order. */
    method ApplyStorage(pending: map<Address, seq<Write>>) returns (r: Outcome<()>)
      modifies this`ethereum
      ensures r.Failed? ==> WrittenOut(old(World()), pending) == Failed(r.failure)
      ensures r.Done? ==> WrittenOut(old(World()), pending) == Done(World())
    {
      var todo := pending.Keys;
      ghost var w := World();
      while todo != {}
        invariant todo <= pending.Keys && ethereum.Keys == w.ether.Keys
        invariant WrittenBut(w, ethereum, pending, todo)
        decreases |todo|
      {
        var a :| a in todo;
        todo := todo - {a};
        ghost var before := ethereum;
        assert a in w.ether ==> before[a] == w.ether[a];
        r := WriteContract(a, pending[a]);
        if r.Failed? {
          assert !CanWrite(w, a, pending[a]);
          return Failed(StorageFailed);
        }
        WrittenNext(w, before, ethereum, pending, todo, a);
      }
      AllWritten(w, ethereum, pending);
      r := Done(());
    }

    method ApplyAction(action: Action, pending: map<Address, seq<Write>>)
      returns (r: Outcome<map<Address, seq<Write>>>)
      modifies this`ethereum
      ensures r.Failed? ==> Step(Progress(old(World()), pending), action) == Failed(r.failure)
      ensures r.Done? ==> Step(Progress(old(World()), pending), action) == Done(Progress(World(), r.value))
    {
      var step: Outcome<()> := Done(());
      var collected := pending;
      match action {
        case NeonTransfer(source, target, value) =>
          step := TransferNeonTokens(source, target, value);
        case NeonWithdraw(source, value) =>
          if source !in ethereum {
            return Failed(NotInitialized);
          }
          if ethereum[source].balance < value {
            return Failed(InsufficientFunds);
          }
          ethereum := ethereum[source := ethereum[source].(balance := ethereum[source].balance - value)];
        case EvmSetStorage(a, index, value) =>
          collected := collected[a := PendingFor(collected, a) + [(index, value)]];
        case EvmIncrementNonce(a) =>
          if a !in ethereum {
            return Failed(NotInitialized);
          }
          if ethereum[a].nonce >= U64_MAX {
            return Failed(NonceOverflow);
          }
          ethereum := ethereum[a := ethereum[a].(nonce := ethereum[a].nonce + 1)];
        case EvmSetCode(a, code) =>
          step := DeployContract(a, code);
        case EvmSelfDestruct(a) =>
          collected := collected - {a};
          step := DeleteAccount(a);
        case ExternalInstruction(id) =>
          if id in refused {
            return Failed(ExternalRefused);
          }
      }
      r := if step.Done? then Done(collected) else Failed(step.failure);
    }

    method ApplyStateChange(log: seq<Action>) returns (r: Outcome<bool>)
      modifies this
      ensures r.Failed? ==> StateChange(old(World()), log) == Failed(r.failure)
      ensures r == Done(true) ==> StateChange(old(World()), log) == Done(Ready(World()))
      ensures r == Done(false) ==> StateChange(old(World()), log) == Done(NeedMoreReallocations(World()))
    {
      var actions := RearrangeActions(log);
      var ops := CalcAccountsOperations(actions);
      var ready := ProcessAccountsOperations(ops);
      if !ready {
        return Done(false);
      }
      r := ApplyRearranged(actions);
    }

    method ApplyRearranged(actions: seq<Action>) returns (r: Outcome<bool>)
      modifies this
      ensures r.Failed? ==> ApplyActions(old(World()), actions) == Failed(r.failure)
      ensures r.Done? ==> r.value && ApplyActions(old(World()), actions) == Done(Ready(World()))
    {
      ghost var grown := World();
      var step: Outcome<()>;
      for i := 0 to |actions|
        invariant Created(grown, actions[..i]) == Done(World())
      {
        PrefixStep(actions, i);
        if Demand(actions[i]).Some? {
          step := CreateAccountIfNotExists(Demand(actions[i]).value.0);
          if step.Failed? {
            CreatedFailureStays(grown, actions, i + 1);
            return Failed(step.failure);
          }
        }
      }
      assert actions[..|actions|] == actions;
      ghost var start := Progress(World(), map[]);
      var pending: map<Address, seq<Write>> := map[];
      for i := 0 to |actions|
        invariant Fold(start, actions[..i]) == Done(Progress(World(), pending))
      {
        PrefixStep(actions, i);
        var one := ApplyAction(actions[i], pending);
        if one.Failed? {
          FoldFailureStays(start, actions, i + 1);
          return Failed(one.failure);
        }
        pending := one.value;
      }
      step := ApplyStorage(pending);
      if step.Failed? {
        return Failed(step.failure);
      }
      r := Done(true);
    }

    /** `transfer_gas_payment`; an operator account that was not loaded with the others is given by
        its balance and returned changed. */
    method TransferGasPayment(origin: Address, operator: Address, operatorBalance: Word, value: Word)
      returns (r: Outcome<Word>)
      modifies this`ethereum
      ensures Balance(old(World()), origin) < value ==> r == Failed(InsufficientFunds)
      ensures Balance(old(World()), origin) >= value && origin == operator ==>
        r == Done(operatorBalance) && World() == old(World())
      ensures Balance(old(World()), origin) >= value && origin != operator && operator in old(ethereum) ==>
        if r.Done? then
          r.value == operatorBalance && Transferred(old(World()), origin, operator, value) == Done(World())
        else Transferred(old(World()), origin, operator, value) == Failed(r.failure)
      ensures Balance(old(World()), origin) >= value && origin != operator && operator !in old(ethereum) ==>
        if r.Done? then
          r.value == WrappingAdd(operatorBalance, value) && Withdraw(old(World()), origin, value) == Done(World())
        else Withdraw(old(World()), origin, value) == Failed(r.failure)
    {
      if Balance(World(), origin) < value {
        return Failed(InsufficientFunds);
      }
      if operator == origin {
        return Done(operatorBalance);
      }
      if operator in ethereum {
        var step := TransferNeonTokens(origin, operator, value);
        return if step.Done? then Done(operatorBalance) else Failed(step.failure);
      }
      if origin !in ethereum {
        return Failed(NotInitialized);
      }
      ethereum := ethereum[origin := ethereum[origin].(balance := ethereum[origin].balance - value)];
      r := Done(WrappingAdd(operatorBalance, value));
    }
  }

  lemma WritesPrefix(writes: seq<Write>, i: nat)
    requires i < |writes|
    ensures writes[..i + 1] != [] && Init(writes[..i + 1]) == writes[..i] && Last(writes[..i + 1]) == writes[i]
  {
  }

  /** The world once the operations outside `todo` are carried out. */
  ghost predicate Grown(w: World, ops: map<Address, Operation>, todo: set<Address>, v: World) {
    GrownEther(w, ops, todo, v.ether) && GrownSpare(w, ops, todo, v.spare) && v.refused == w.refused
  }

  ghost predicate GrownEther(w: World, ops: map<Address, Operation>, todo: set<Address>, ether: map<Address, Account>) {
    && ether.Keys == w.ether.Keys
    && forall a :: a in ether ==>
      ether[a] == if a in ops && a !in todo then Grow(w.ether[a], Reached(ops[a])) else w.ether[a]
  }

  ghost predicate GrownSpare(w: World, ops: map<Address, Operation>, todo: set<Address>, spare: map<Address, nat>) {
    && spare.Keys == w.spare.Keys + (ops.Keys - todo - w.ether.Keys)
    && forall a :: a in spare ==>
      spare[a] == if a in ops && a !in todo && a !in w.ether then Reached(ops[a]) else w.spare[a]
  }

  lemma GrowOne(w: World, ops: map<Address, Operation>, todo: set<Address>, v: World, a: Address)
    requires Grown(w, ops, todo, v) && a in todo && a in ops
    ensures Grown(w, ops, todo - {a}, Resized(v, a, Reached(ops[a])))
  {
    if a in w.ether {
      GrowEther(w, ops, todo, v, a);
    } else {
      GrowSpare(w, ops, todo, v, a);
    }
  }

  lemma GrowEther(w: World, ops: map<Address, Operation>, todo: set<Address>, v: World, a: Address)
    requires Grown(w, ops, todo, v) && a in todo && a in ops && a in w.ether
    ensures Grown(w, ops, todo - {a}, v.(ether := v.ether[a := Grow(v.ether[a], Reached(ops[a]))]))
  {
  }

  lemma GrowSpare(w: World, ops: map<Address, Operation>, todo: set<Address>, v: World, a: Address)
    requires Grown(w, ops, todo, v) && a in todo && a in ops && a !in w.ether
    ensures Grown(w, ops, todo - {a}, v.(spare := v.spare[a := Reached(ops[a])]))
  {
  }

  lemma GrownNone(w: World, ops: map<Address, Operation>)
    ensures Grown(w, ops, ops.Keys, w)
  {
  }

  lemma GrownAll(w: World, ops: map<Address, Operation>, v: World)
    requires Grown(w, ops, {}, v)
    ensures v == Processed(w, ops)
  {
    assert v.ether == Processed(w, ops).ether;
    assert v.spare == Processed(w, ops).spare;
  }
}
