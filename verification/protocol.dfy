/** The instructions of the program over one global state: Ethereum accounts with their locks, and
    the Holder, State and Finalized accounts of transactions. An instruction that fails changes
    nothing. */
module Protocol {
  import opened Opcodes
  import opened WordArithmetic
  import opened StorageLayout
  import opened Accounts
  import opened Journal
  import opened Apply

  /** A Solana account: the one that belongs to an Ethereum address, or any other. */
  datatype Key = Pda(address: Address) | Other(id: nat)

  /** An account as passed to an instruction. */
  datatype Passed = Passed(key: Key, writable: bool)

  /** `BlockedAccountMeta`. */
  datatype Meta = Meta(key: Key, existed: bool, writable: bool)

  /** What one payment of gas did: the transaction it was for, its terms, and the balances of caller and
      operator right before and after it. */
  datatype Payment = Payment(trx: nat, caller: Address, operator: Address, gas: nat, price: Word, limit: Word,
                             callerBefore: Word, callerAfter: Word, operatorBefore: Word, operatorAfter: Word)

  /** The fields of a State account. `nonce` is the transaction's, which the saved machine implies; `id`
      tells transactions apart. */
  datatype State = State(owner: nat, hash: nat, caller: Address, nonce: nat, gasLimit: Word, gasPrice: Word,
                         gasUsed: Word, operator: nat, slot: nat, blocked: seq<Meta>, id: nat)

  datatype Slot = Holder(owner: nat, hash: nat) | InFlight(state: State) | Finalized(owner: nat, hash: nat)

  /** `consumed` records the caller and nonce of every transaction that finished, was cancelled, or was
      executed at once; `payments` records every payment of gas. */
  datatype Global = Global(world: World, locked: set<Address>, slots: map<nat, Slot>, consumed: seq<(Address, nat)>,
                           payments: seq<Payment>)

  /** The operator's own key and its Ethereum account. */
  datatype Operator = Operator(key: nat, account: Address)

  datatype Trx = Trx(hash: nat, caller: Address, nonce: nat, gasLimit: Word, gasPrice: Word)

  const OPERATOR_PRIORITY_SLOTS: nat

  // ---- Passed accounts -------------------------------------------------------------------------

  function Addresses(passed: seq<Passed>): set<Address> {
    set p | p in passed && p.key.Pda? :: p.key.address
  }

  /** The Ethereum accounts among the passed ones. */
  function Loaded(g: Global, passed: seq<Passed>): set<Address> {
    Addresses(passed) * g.world.ether.Keys
  }

  predicate Exists(g: Global, key: Key) {
    key.Pda? && key.address in g.world.ether
  }

  function MetaOf(g: Global, p: Passed): Meta {
    Meta(p.key, Exists(g, p.key), p.writable)
  }

  function Metas(g: Global, passed: seq<Passed>): (list: seq<Meta>)
    ensures |list| == |passed|
  {
    if passed == [] then [] else Metas(g, Init(passed)) + [MetaOf(g, Last(passed))]
  }

  /** The Ethereum accounts a list holds. */
  function HeldBy(list: seq<Meta>): set<Address> {
    set m | m in list && m.existed && m.key.Pda? :: m.key.address
  }

  /** What `ProgramAccountStorage` has of the world. */
  function Sub(w: World, addresses: set<Address>): World {
    Load(World(map a | a in w.ether && a in addresses :: w.ether[a],
               map a | a in w.spare && a in addresses :: w.spare[a],
               w.refused))
  }

  /** The world with that part written back. */
  function Merge(w: World, v: World, addresses: set<Address>): World {
    World(map a | a in w.ether.Keys + v.ether.Keys :: if a in v.ether then v.ether[a] else w.ether[a],
          map a | a in (w.spare.Keys - addresses) + v.spare.Keys :: if a in v.spare then v.spare[a] else w.spare[a],
          w.refused)
  }

  // ---- Gas -------------------------------------------------------------------------------------

  function SaturatingAdd(a: Word, b: nat): Word {
    if a + b < WORD then a + b else WORD - 1
  }

  function SaturatingMul(a: nat, b: Word): Word {
    if a * b < WORD then a * b else WORD - 1
  }

  /** `transfer_gas_payment` over the whole world. */
  function Pay(w: World, caller: Address, operator: Address, value: Word): Option<World> {
    if Balance(w, caller) < value then None
    else if operator == caller then Some(w)
    else match Transferred(w, caller, operator, value)
      case Done(v) => Some(v)
      case Failed(_) => None
  }

  /** The State account after an iteration's gas; `None` when the gas limit is exceeded. */
  function Charged(st: State, gas: nat): Option<State> {
    if SaturatingAdd(st.gasUsed, gas) > st.gasLimit then None
    else Some(st.(gasUsed := SaturatingAdd(st.gasUsed, gas)))
  }

  /** The record of a payment that turned `before` into `after`. */
  function PaymentOf(before: World, after: World, id: nat, caller: Address, operator: Address, gas: nat, price: Word,
                     limit: Word): Payment
  {
    Payment(id, caller, operator, gas, price, limit, Balance(before, caller), Balance(after, caller),
            Balance(before, operator), Balance(after, operator))
  }

  // ---- Instructions ----------------------------------------------------------------------------

  function SlotOwner(s: Slot): nat {
    match s
    case Holder(owner, _) => owner
    case Finalized(owner, _) => owner
    case InFlight(st) => st.owner
  }

  /** `State::new`, the lock check and `do_begin`. `valid` stands for the transaction's other checks:
      chain id, balance and code. */
  function Begin(g: Global, k: nat, op: Operator, now: nat, trx: Trx, passed: seq<Passed>, gas: nat,
                 valid: bool): Option<Global>
  {
    if k !in g.slots || g.slots[k].InFlight? || (g.slots[k].Finalized? && g.slots[k].hash == trx.hash)
       || SlotOwner(g.slots[k]) != op.key then None
    else if Loaded(g, passed) !! g.locked then
      if trx.caller !in Addresses(passed) || Nonce(g.world, trx.caller) != trx.nonce || trx.nonce >= U64_MAX || !valid
        then None
      else
        var st := State(op.key, trx.hash, trx.caller, trx.nonce, trx.gasLimit, trx.gasPrice, 0, op.key, now,
                        Metas(g, passed), |g.payments|);
        var charged := Charged(st, gas);
        var paid := Pay(g.world, trx.caller, op.account, SaturatingMul(gas, trx.gasPrice));
        if charged.None? || paid.None? then None
        else
          var payment := PaymentOf(g.world, paid.value, st.id, trx.caller, op.account, gas, trx.gasPrice, trx.gasLimit);
          Some(g.(world := paid.value, locked := g.locked + Loaded(g, passed),
                  slots := g.slots[k := InFlight(charged.value)], payments := g.payments + [payment]))
    else None
  }

  predicate Matches(g: Global, m: Meta, p: Passed, cancelling: bool) {
    && m.key == p.key
    && (m.writable ==> p.writable)
    && (!cancelling && !m.existed ==> !Exists(g, p.key))
  }

  predicate AllMatch(g: Global, list: seq<Meta>, passed: seq<Passed>, cancelling: bool) {
    |list| == |passed| && forall i :: 0 <= i < |list| ==> Matches(g, list[i], passed[i], cancelling)
  }

  /** `State::restore`: the same accounts, and the operator's turn. */
  function Restore(g: Global, k: nat, operator: nat, now: nat, passed: seq<Passed>, cancelling: bool): Option<State> {
    if k !in g.slots || !g.slots[k].InFlight? then None
    else
      var st := g.slots[k].state;
      if !AllMatch(g, st.blocked, passed, cancelling) then None
      else if operator != st.operator && now - st.slot <= OPERATOR_PRIORITY_SLOTS then None
      else Some(if operator != st.operator then st.(operator := operator, slot := now) else st)
  }

  /** Applying an iteration's results to the accounts that were passed: the new world and whether the
      change is complete. */
  function ApplyResults(w: World, addresses: set<Address>, result: Option<seq<Action>>): Option<(World, bool)> {
    match result
    case None => Some((w, false))
    case Some(log) =>
      if !(Needed(Rearranged(log)).Keys <= addresses) then None
      else
        match StateChange(Sub(w, addresses), log)
        case Failed(_) => None
        case Done(Ready(v)) => Some((Merge(w, v, addresses), true))
        case Done(NeedMoreReallocations(v)) => Some((Merge(w, v, addresses), false))
  }

  /** `do_continue` with what its iteration of the machine hands on. */
  function Continue(g: Global, k: nat, op: Operator, now: nat, passed: seq<Passed>, gas: nat,
                    result: Option<seq<Action>>): Option<Global>
  {
    var restored := Restore(g, k, op.key, now, passed, false);
    if restored.None? then None
    else
      var charged := Charged(restored.value, gas);
      var applied := ApplyResults(g.world, Addresses(passed), result);
      if charged.None? || applied.None? then None
      else
        var st := charged.value;
        var paid := Pay(applied.value.0, st.caller, op.account, SaturatingMul(gas, st.gasPrice));
        if paid.None? then None
        else
          var payment := PaymentOf(applied.value.0, paid.value, st.id, st.caller, op.account, gas, st.gasPrice,
                                   st.gasLimit);
          if applied.value.1 then
            Some(Global(paid.value, g.locked - Addresses(passed), g.slots[k := Finalized(st.owner, st.hash)],
                        g.consumed + [(st.caller, st.nonce)], g.payments + [payment]))
          else Some(g.(world := paid.value, slots := g.slots[k := InFlight(st)], payments := g.payments + [payment]))
  }

  /** Cancelling frees the accounts the list holds and counts the caller's nonce once per entry; the
      addition wraps. */
  function Bumps(list: seq<Meta>, caller: Address): nat {
    if list == [] then 0
    else Bumps(Init(list), caller) + if Last(list).existed && Last(list).key == Pda(caller) then 1 else 0
  }

  function Bumped(w: World, caller: Address, times: nat): World {
    if caller in w.ether && times > 0 then
      w.(ether := w.ether[caller := w.ether[caller].(nonce := (w.ether[caller].nonce + times) % (U64_MAX + 1))])
    else w
  }

  function Cancel(g: Global, k: nat, operator: nat, now: nat, passed: seq<Passed>, hash: nat): Option<Global> {
    var restored := Restore(g, k, operator, now, passed, true);
    if restored.None? || restored.value.hash != hash then None
    else
      var st := restored.value;
      Some(Global(Bumped(g.world, st.caller, Bumps(st.blocked, st.caller)),
                  g.locked - (HeldBy(st.blocked) * g.world.ether.Keys),
                  g.slots[k := Finalized(st.owner, st.hash)], g.consumed + [(st.caller, st.nonce)], g.payments))
  }

  predicate Has(list: seq<Meta>, key: Key) {
    exists m :: m in list && m.key == key
  }

  /** The list and locks after the passed accounts were added one by one; `None` when one of them is
      locked by someone else. */
  function Extended(g: Global, list: seq<Meta>, passed: seq<Passed>): Option<(seq<Meta>, set<Address>)>
    decreases |passed|
  {
    if passed == [] then Some((list, g.locked)) else
      match Extended(g, list, Init(passed))
      case None => None
      case Some((l, locked)) =>
        var p := Last(passed);
        if Has(l, p.key) then Some((l, locked))
        else if Exists(g, p.key) && p.key.address in locked then None
        else Some((l + [MetaOf(g, p)], if Exists(g, p.key) then locked + {p.key.address} else locked))
  }

  function BlockAdd(g: Global, k: nat, operator: nat, passed: seq<Passed>): Option<Global> {
    if k !in g.slots || !g.slots[k].InFlight? || g.slots[k].state.owner != operator then None
    else
      match Extended(g, g.slots[k].state.blocked, passed)
      case None => None
      case Some((list, locked)) =>
        Some(g.(locked := locked, slots := g.slots[k := InFlight(g.slots[k].state.(blocked := list))]))
  }

  /** A transaction executed by one instruction. */
  function Execute(g: Global, op: Operator, trx: Trx, passed: seq<Passed>, gas: nat, log: seq<Action>,
                   valid: bool): Option<Global>
  {
    if Loaded(g, passed) !! g.locked then
      if trx.caller !in Addresses(passed) || Nonce(g.world, trx.caller) != trx.nonce || trx.nonce >= U64_MAX || !valid
        then None
      else
        var applied := ApplyResults(g.world, Addresses(passed), Some(log));
        if applied.None? || !applied.value.1 || gas > trx.gasLimit then None
        else
          match Pay(applied.value.0, trx.caller, op.account, SaturatingMul(gas, trx.gasPrice))
          case None => None
          case Some(w) =>
            var payment := PaymentOf(applied.value.0, w, |g.payments|, trx.caller, op.account, gas, trx.gasPrice,
                                     trx.gasLimit);
            Some(g.(world := w, consumed := g.consumed + [(trx.caller, trx.nonce)], payments := g.payments + [payment]))
    else None
  }

  function HolderCreate(g: Global, k: nat, owner: nat): Option<Global> {
    if k in g.slots then None else Some(g.(slots := g.slots[k := Holder(owner, 0)]))
  }

  function HolderWrite(g: Global, k: nat, operator: nat, hash: nat): Option<Global> {
    if k !in g.slots || g.slots[k].InFlight? || SlotOwner(g.slots[k]) != operator then None
    else Some(g.(slots := g.slots[k := Holder(operator, hash)]))
  }

  function HolderDelete(g: Global, k: nat, operator: nat): Option<Global> {
    if k !in g.slots || g.slots[k].InFlight? || SlotOwner(g.slots[k]) != operator then None
    else Some(g.(slots := g.slots - {k}))
  }

  const FRESH: Account := Account(0, 0, 0, 0, [], map[])

  function AccountCreate(g: Global, a: Address): Option<Global> {
    if a in g.world.ether || a in g.world.spare then None
    else Some(g.(world := g.world.(ether := g.world.ether[a := FRESH])))
  }

  /** Tokens are credited whether or not the account is locked. */
  function Deposit(g: Global, a: Address, value: Word): Option<Global> {
    if a in g.world.spare then None
    else
      var account := if a in g.world.ether then g.world.ether[a] else FRESH;
      if account.balance + value >= WORD then None
      else Some(g.(world := g.world.(ether := g.world.ether[a := account.(balance := account.balance + value)])))
  }

  datatype Step =
    | BeginStep(k: nat, op: Operator, now: nat, trx: Trx, passed: seq<Passed>, gas: nat, valid: bool)
    | ContinueStep(k: nat, op: Operator, now: nat, passed: seq<Passed>, gas: nat, result: Option<seq<Action>>)
    | CancelStep(k: nat, operator: nat, now: nat, passed: seq<Passed>, hash: nat)
    | BlockAddStep(k: nat, operator: nat, passed: seq<Passed>)
    | ExecuteStep(op: Operator, trx: Trx, passed: seq<Passed>, gas: nat, log: seq<Action>, valid: bool)
    | HolderCreateStep(k: nat, operator: nat)
    | HolderWriteStep(k: nat, operator: nat, hash: nat)
    | HolderDeleteStep(k: nat, operator: nat)
    | AccountCreateStep(a: Address)
    | DepositStep(a: Address, value: Word)

  function Attempted(g: Global, s: Step): Option<Global> {
    match s
    case BeginStep(k, op, now, trx, passed, gas, valid) => Begin(g, k, op, now, trx, passed, gas, valid)
    case ContinueStep(k, op, now, passed, gas, result) => Continue(g, k, op, now, passed, gas, result)
    case CancelStep(k, operator, now, passed, hash) => Cancel(g, k, operator, now, passed, hash)
    case BlockAddStep(k, operator, passed) => BlockAdd(g, k, operator, passed)
    case ExecuteStep(op, trx, passed, gas, log, valid) => Execute(g, op, trx, passed, gas, log, valid)
    case HolderCreateStep(k, operator) => HolderCreate(g, k, operator)
    case HolderWriteStep(k, operator, hash) => HolderWrite(g, k, operator, hash)
    case HolderDeleteStep(k, operator) => HolderDelete(g, k, operator)
    case AccountCreateStep(a) => AccountCreate(g, a)
    case DepositStep(a, value) => Deposit(g, a, value)
  }

  /** A failed instruction is rolled back. */
  function Next(g: Global, s: Step): Global {
    match Attempted(g, s)
    case Some(after) => after
    case None => g
  }
}
