/** What locks are for: while a transaction in flight holds an account, no other instruction changes
    anything of it except its balance, and its own iterations change nothing that is read of it either
    until they finish. */
module LockIsolation {
  import opened Opcodes
  import opened WordArithmetic
  import opened StorageLayout
  import opened Accounts
  import opened Journal
  import opened Apply
  import opened ApplyRefinement
  import opened Protocol
  import opened ProtocolLaws

  // ---- Steps of others -------------------------------------------------------------------------

  predicate InFlightAt(g: Global, l: nat) {
    l in g.slots && g.slots[l].InFlight?
  }

  /** `a` is in both worlds with the same fields and storage, apart from its balance. */
  predicate OnlyBalance(w: World, v: World, a: Address) {
    && a in w.ether && a in v.ether
    && v.ether[a] == w.ether[a].(balance := v.ether[a].balance)
  }

  lemma {:induction false} BumpsHeld(list: seq<Meta>, caller: Address)
    ensures Bumps(list, caller) > 0 <==> caller in HeldBy(list)
  {
    if list != [] {
      BumpsHeld(Init(list), caller);
      HeldAppend(Init(list), Last(list));
      assert list == Init(list) + [Last(list)];
    }
  }

  /** An account held by another transaction is not among those passed to a continued one. */
  lemma HeldElsewhere(g: Global, k: nat, l: nat, passed: seq<Passed>, a: Address)
    requires LocksOk(g) && a in HeldAt(g, l) && k != l && InFlightAt(g, k)
    requires AllMatch(g, g.slots[k].state.blocked, passed, false)
    ensures a !in Addresses(passed)
  {
    MatchedHeld(g, g.slots[k].state.blocked, passed, false);
    assert HeldAt(g, k) !! HeldAt(g, l) && HeldAt(g, l) <= g.locked;
  }

  /** Applying to other accounts, then paying. */
  lemma ConfinedThenPaid(w: World, u: World, v: World, addresses: set<Address>, a: Address)
    requires a in w.ether && a !in addresses && Confined(w, u, addresses) && OnlyBalances(u, v)
    ensures OnlyBalance(w, v, a)
  {
  }

  lemma ContinueStays(g: Global, k: nat, op: Operator, now: nat, passed: seq<Passed>, gas: nat,
                      result: Option<seq<Action>>, l: nat, a: Address)
    requires WorldOk(g.world) && LocksOk(g) && a in HeldAt(g, l) && a in g.world.ether && k != l
    requires Continue(g, k, op, now, passed, gas, result).Some?
    ensures OnlyBalance(g.world, Continue(g, k, op, now, passed, gas, result).value.world, a)
  {
    ContinuedWorld(g, k, op, now, passed, gas, result);
    HeldElsewhere(g, k, l, passed, a);
    ConfinedThenPaid(g.world, ApplyResults(g.world, Addresses(passed), result).value.0,
                     Continue(g, k, op, now, passed, gas, result).value.world, Addresses(passed), a);
  }

  lemma ExecuteStays(g: Global, op: Operator, trx: Trx, passed: seq<Passed>, gas: nat, log: seq<Action>, valid: bool,
                     a: Address)
    requires WorldOk(g.world) && a in g.world.ether && a in g.locked
    requires Execute(g, op, trx, passed, gas, log, valid).Some?
    ensures OnlyBalance(g.world, Execute(g, op, trx, passed, gas, log, valid).value.world, a)
  {
    AppliedConfined(g.world, Addresses(passed), Some(log));
    var w := ApplyResults(g.world, Addresses(passed), Some(log)).value.0;
    PayMoves(w, trx.caller, op.account, SaturatingMul(gas, trx.gasPrice));
    ConfinedThenPaid(g.world, w, Execute(g, op, trx, passed, gas, log, valid).value.world, Addresses(passed), a);
  }

  lemma CancelStays(g: Global, k: nat, operator: nat, now: nat, passed: seq<Passed>, hash: nat, l: nat, a: Address)
    requires LocksOk(g) && a in HeldAt(g, l) && a in g.world.ether && k != l
    requires Cancel(g, k, operator, now, passed, hash).Some?
    ensures OnlyBalance(g.world, Cancel(g, k, operator, now, passed, hash).value.world, a)
  {
    RestoredState(g, k, operator, now, passed, true);
    BumpsHeld(g.slots[k].state.blocked, a);
    assert HeldAt(g, k) !! HeldAt(g, l);
  }

  /** Lock isolation: while a transaction in flight holds an account and stays in flight, no step other
      than its own iterations changes anything of that account except its balance. */
  lemma HeldStays(g: Global, s: Step, l: nat, a: Address)
    requires WorldOk(g.world) && LocksOk(g) && a in HeldAt(g, l)
    requires InFlightAt(Next(g, s), l) && !(s.ContinueStep? && s.k == l)
    ensures OnlyBalance(g.world, Next(g, s).world, a)
  {
    assert HeldAt(g, l) <= g.locked;
    if Attempted(g, s).Some? {
      match s
      case BeginStep(_, op, _, trx, _, gas, _) =>
        PayMoves(g.world, trx.caller, op.account, SaturatingMul(gas, trx.gasPrice));
      case ContinueStep(k, op, now, passed, gas, result) => ContinueStays(g, k, op, now, passed, gas, result, l, a);
      case CancelStep(k, operator, now, passed, hash) => CancelStays(g, k, operator, now, passed, hash, l, a);
      case ExecuteStep(op, trx, passed, gas, log, valid) => ExecuteStays(g, op, trx, passed, gas, log, valid, a);
      case _ =>
    }
  }

  // ---- The transaction's own iterations --------------------------------------------------------

  /** Once loaded, the accounts read alike in everything but the balance. */
  predicate ReadsAlike(x: Account, y: Account)
    requires AccountOk(x) && AccountOk(y)
  {
    LoadAccountOk(x);
    LoadAccountOk(y);
    SameAccountReads(LoadAccount(x), LoadAccount(y).(balance := x.balance))
  }

  predicate HeldAlike(w: World, v: World, a: Address)
    requires WorldOk(w) && WorldOk(v)
  {
    a in w.ether && a in v.ether && ReadsAlike(w.ether[a], v.ether[a])
  }

  lemma BalanceReads(x: Account, balance: Word)
    requires AccountOk(x)
    ensures AccountOk(x.(balance := balance)) && ReadsAlike(x, x.(balance := balance))
  {
  }

  lemma OnlyBalanceReads(w: World, v: World, a: Address)
    requires WorldOk(w) && WorldOk(v) && OnlyBalance(w, v, a)
    ensures HeldAlike(w, v, a)
  {
    BalanceReads(w.ether[a], v.ether[a].balance);
  }

  lemma ReadsAlikeThrough(x: Account, y: Account, z: Account)
    requires AccountOk(x) && AccountOk(y) && AccountOk(z) && ReadsAlike(x, y) && ReadsAlike(y, z)
    ensures ReadsAlike(x, z)
  {
    LoadAccountOk(x);
    LoadAccountOk(y);
    LoadAccountOk(z);
    forall index: Word ensures SlotOf(LoadAccount(z).(balance := x.balance), index) == SlotOf(LoadAccount(x), index) {
      assert SlotOf(LoadAccount(y).(balance := x.balance), index) == SlotOf(LoadAccount(x), index);
      assert SlotOf(LoadAccount(z).(balance := y.balance), index) == SlotOf(LoadAccount(y), index);
    }
  }

  /** Loading and growing an account, as a postponed change does. */
  lemma GrownReads(x: Account, space: nat)
    requires AccountOk(x)
    ensures AccountOk(Grow(LoadAccount(x), space)) && ReadsAlike(x, Grow(LoadAccount(x), space))
  {
    LoadAccountOk(x);
    GrowReads(LoadAccount(x), space);
    FreshLoads(Grow(LoadAccount(x), space));
  }

  lemma LoadedReads(x: Account)
    requires AccountOk(x)
    ensures AccountOk(LoadAccount(x)) && ReadsAlike(x, LoadAccount(x))
  {
    LoadAccountOk(x);
    FreshLoads(LoadAccount(x));
  }

  /** Handing over nothing, or having the change postponed, changes no read. */
  lemma PostponedReads(w: World, addresses: set<Address>, result: Option<seq<Action>>, a: Address)
    requires WorldOk(w) && a in w.ether
    requires ApplyResults(w, addresses, result).Some? && !ApplyResults(w, addresses, result).value.1
    ensures WorldOk(ApplyResults(w, addresses, result).value.0)
    ensures HeldAlike(w, ApplyResults(w, addresses, result).value.0, a)
  {
    AppliedConfined(w, addresses, result);
    BalanceReads(w.ether[a], w.ether[a].balance);
    if result.Some? && a in addresses {
      PostponedWorld(w, addresses, result.value);
      GrownPart(w, addresses, Operations(Sub(w, addresses), Needed(Rearranged(result.value))), a);
    }
  }

  lemma PostponedWorld(w: World, addresses: set<Address>, log: seq<Action>)
    requires ApplyResults(w, addresses, Some(log)).Some? && !ApplyResults(w, addresses, Some(log)).value.1
    ensures
      var ops := Operations(Sub(w, addresses), Needed(Rearranged(log)));
      ApplyResults(w, addresses, Some(log)).value.0 == Merge(w, Processed(Sub(w, addresses), ops), addresses)
  {
  }

  lemma GrownPart(w: World, addresses: set<Address>, ops: map<Address, Operation>, a: Address)
    requires WorldOk(w) && a in w.ether && a in addresses
    ensures
      var v := Merge(w, Processed(Sub(w, addresses), ops), addresses);
      a in v.ether && AccountOk(v.ether[a]) && ReadsAlike(w.ether[a], v.ether[a])
  {
    var x := w.ether[a];
    assert Sub(w, addresses).ether[a] == LoadAccount(x);
    if a in ops {
      GrownReads(x, Reached(ops[a]));
    } else {
      LoadedReads(x);
    }
  }

  lemma OwnStepReads(g: Global, op: Operator, now: nat, passed: seq<Passed>, gas: nat, result: Option<seq<Action>>,
                     l: nat, a: Address)
    requires WorldOk(g.world) && a in g.world.ether && Continue(g, l, op, now, passed, gas, result).Some?
    requires InFlightAt(Continue(g, l, op, now, passed, gas, result).value, l)
    ensures WorldOk(Continue(g, l, op, now, passed, gas, result).value.world)
    ensures HeldAlike(g.world, Continue(g, l, op, now, passed, gas, result).value.world, a)
  {
    var w := ApplyResults(g.world, Addresses(passed), result).value.0;
    var v := Continue(g, l, op, now, passed, gas, result).value.world;
    ContinuedWorld(g, l, op, now, passed, gas, result);
    PostponedReads(g.world, Addresses(passed), result, a);
    BalanceReads(w.ether[a], v.ether[a].balance);
    ReadsAlikeThrough(g.world.ether[a], w.ether[a], v.ether[a]);
  }

  /** Whatever the step: as long as the transaction that holds the account stays in flight, everything
      read of the account stays, except its balance. */
  lemma HeldReads(g: Global, s: Step, l: nat, a: Address)
    requires WorldOk(g.world) && LocksOk(g) && a in HeldAt(g, l) && InFlightAt(Next(g, s), l)
    ensures WorldOk(Next(g, s).world) && HeldAlike(g.world, Next(g, s).world, a)
  {
    WorldStays(g, s);
    assert HeldAt(g, l) <= g.locked;
    if s.ContinueStep? && s.k == l {
      if Attempted(g, s).Some? {
        OwnStepReads(g, s.op, s.now, s.passed, s.gas, s.result, l, a);
      } else {
        BalanceReads(g.world.ether[a], g.world.ether[a].balance);
      }
    } else {
      HeldStays(g, s, l, a);
      OnlyBalanceReads(g.world, Next(g, s).world, a);
    }
  }

  // ---- Over whole interleavings ----------------------------------------------------------------

  /** The transaction at `l` is in flight before and after every step. */
  ghost predicate StaysInFlight(g: Global, steps: seq<Step>, l: nat)
    decreases |steps|
  {
    InFlightAt(Played(g, steps), l) && (steps != [] ==> StaysInFlight(g, Init(steps), l))
  }

  /** A list only grows, at its end. */
  lemma {:induction false} ExtendedPrefix(g: Global, list: seq<Meta>, passed: seq<Passed>)
    requires Extended(g, list, passed).Some?
    ensures list <= Extended(g, list, passed).value.0
    decreases |passed|
  {
    if passed != [] {
      ExtendedPrefix(g, list, Init(passed));
    }
  }

  /** A transaction that is in flight after a step was so before, with the same terms and at least the
      same accounts, or has just begun. */
  lemma InFlightOrigin(g: Global, s: Step, k: nat)
    requires InFlightAt(Next(g, s), k)
    ensures
      || (InFlightAt(g, k) && g.slots[k].state.caller == Next(g, s).slots[k].state.caller
          && g.slots[k].state.nonce == Next(g, s).slots[k].state.nonce
          && g.slots[k].state.blocked <= Next(g, s).slots[k].state.blocked)
      || (s.BeginStep? && s.k == k && Attempted(g, s).Some? && !InFlightAt(g, k))
  {
    if Attempted(g, s).Some? {
      match s
      case ContinueStep(l, op, now, passed, gas, result) => RestoredState(g, l, op.key, now, passed, false);
      case BlockAddStep(l, operator, passed) => ExtendedPrefix(g, g.slots[l].state.blocked, passed);
      case _ =>
    }
  }

  lemma PrefixHeld(list: seq<Meta>, longer: seq<Meta>)
    requires list <= longer
    ensures HeldBy(list) <= HeldBy(longer)
  {
    assert forall m :: m in list ==> m in longer;
  }

  lemma {:induction false} ListGrows(g: Global, steps: seq<Step>, l: nat)
    requires StaysInFlight(g, steps, l)
    ensures InFlightAt(g, l) && g.slots[l].state.blocked <= Played(g, steps).slots[l].state.blocked
    ensures HeldAt(g, l) <= HeldAt(Played(g, steps), l)
    decreases |steps|
  {
    if steps != [] {
      ListGrows(g, Init(steps), l);
      InFlightOrigin(Played(g, Init(steps)), Last(steps), l);
    }
    PrefixHeld(g.slots[l].state.blocked, Played(g, steps).slots[l].state.blocked);
  }

  predicate NotOwn(steps: seq<Step>, l: nat) {
    forall i :: 0 <= i < |steps| ==> !(steps[i].ContinueStep? && steps[i].k == l)
  }

  /** Over every interleaving between two iterations of a transaction, the accounts it holds keep
      everything except their balances. */
  lemma {:induction false} HeldStaysOver(g: Global, steps: seq<Step>, l: nat, a: Address)
    requires WorldOk(g.world) && LocksOk(g) && a in HeldAt(g, l) && StaysInFlight(g, steps, l) && NotOwn(steps, l)
    ensures OnlyBalance(g.world, Played(g, steps).world, a)
    decreases |steps|
  {
    assert HeldAt(g, l) <= g.locked;
    if steps != [] {
      HeldStaysOver(g, Init(steps), l, a);
      LockSafety(g, Init(steps));
      ListGrows(g, Init(steps), l);
      HeldStays(Played(g, Init(steps)), steps[|steps| - 1], l, a);
    }
  }

  /** Over every interleaving, its own iterations included, they keep everything that is read of them
      except their balances, until the transaction ends. */
  lemma {:induction false} HeldReadsOver(g: Global, steps: seq<Step>, l: nat, a: Address)
    requires WorldOk(g.world) && LocksOk(g) && a in HeldAt(g, l) && StaysInFlight(g, steps, l)
    ensures WorldOk(Played(g, steps).world) && HeldAlike(g.world, Played(g, steps).world, a)
    decreases |steps|
  {
    assert HeldAt(g, l) <= g.locked;
    if steps == [] {
      BalanceReads(g.world.ether[a], g.world.ether[a].balance);
    } else {
      var before := Played(g, Init(steps));
      HeldReadsOver(g, Init(steps), l, a);
      LockSafety(g, Init(steps));
      ListGrows(g, Init(steps), l);
      HeldReads(before, Last(steps), l, a);
      ReadsAlikeThrough(g.world.ether[a], before.world.ether[a], Played(g, steps).world.ether[a]);
    }
  }
}
