/** Balances under `apply_state_change` and gas payments. */
module Conservation {
  import opened WordArithmetic
  import opened StorageLayout
  import opened Accounts
  import opened Ledgers
  import opened Journal
  import opened Apply
  import opened ApplyRefinement

  ghost function Supply(w: World): int {
    Sum(Balances(w))
  }

  predicate SameGets(m: map<Address, int>, n: map<Address, int>) {
    forall a: Address :: Get(m, a) == Get(n, a)
  }

  /** Coverage depends on the balances only, not on which accounts exist. */
  lemma {:induction false} CoveredSameGets(m: map<Address, int>, n: map<Address, int>, log: seq<Action>)
    requires SameGets(m, n)
    ensures SameGets(Ledger(m, log), Ledger(n, log))
    ensures Covered(m, log) <==> Covered(n, log)
    decreases |log|
  {
    if log != [] {
      CoveredSameGets(m, n, Init(log));
      MoveSameGets(Ledger(m, Init(log)), Ledger(n, Init(log)), Last(log));
    }
  }

  /** What an action adds to the balance of `a`. */
  function Delta(action: Action, a: Address): int {
    match action
    case NeonTransfer(source, target, value) =>
      (if a == target then value as int else 0) - (if a == source then value as int else 0)
    case NeonWithdraw(source, value) => if a == source then 0 - value as int else 0
    case _ => 0
  }

  lemma MoveGet(m: map<Address, int>, action: Action, a: Address)
    ensures Get(Move(m, action), a) == Get(m, a) + Delta(action, a)
  {
  }

  lemma MoveSameGets(m: map<Address, int>, n: map<Address, int>, action: Action)
    requires SameGets(m, n)
    ensures SameGets(Move(m, action), Move(n, action))
  {
    forall a: Address ensures Get(Move(m, action), a) == Get(Move(n, action), a) {
      MoveGet(m, action, a);
      MoveGet(n, action, a);
    }
  }

  // ---- Stages that move nothing ----------------------------------------------------------------

  lemma ProcessedBalances(w: World, ops: map<Address, Operation>)
    ensures Balances(Processed(w, ops)) == Balances(w)
  {
  }

  lemma {:induction false} CreatedBalances(w: World, actions: seq<Action>)
    ensures Created(w, actions).Done? ==>
      && SameGets(Balances(w), Balances(Created(w, actions).value))
      && Supply(Created(w, actions).value) == Supply(w)
    ensures Created(w, actions).Failed? ==> Created(w, actions).failure == NotInitialized
    decreases |actions|
  {
    if actions != [] {
      CreatedBalances(w, Init(actions));
      if Created(w, Init(actions)).Done? && Demand(Last(actions)).Some? {
        CreatedOneBalances(Created(w, Init(actions)).value, Demand(Last(actions)).value.0);
      }
    }
  }

  lemma CreatedOneBalances(w: World, a: Address)
    ensures CreateIfMissing(w, a).Done? ==>
      && SameGets(Balances(w), Balances(CreateIfMissing(w, a).value))
      && Supply(CreateIfMissing(w, a).value) == Supply(w)
  {
    if a !in w.ether && CreateIfMissing(w, a).Done? {
      assert Balances(CreateIfMissing(w, a).value) == Balances(w)[a := 0];
      SumUpdate(Balances(w), a, 0);
    }
  }

  lemma {:induction false} DestructsBalances(p: Progress, log: seq<Action>)
    ensures Fold(p, Destructs(log)).Done? ==> Balances(Fold(p, Destructs(log)).value.world) == Balances(p.world)
    ensures Fold(p, Destructs(log)).Failed? ==> Fold(p, Destructs(log)).failure != InsufficientFunds
    decreases |log|
  {
    if log != [] {
      FoldDestructs(p, log);
      DestructsBalances(p, Init(log));
    }
  }

  lemma WrittenBalances(w: World, pending: map<Address, seq<Write>>)
    requires WorldOk(w) && WrittenOut(w, pending).Done?
    ensures Balances(WrittenOut(w, pending).value) == Balances(w)
  {
    forall a | a in w.ether ensures Written(w, a, pending).balance == w.ether[a].balance {
      if a in pending {
        assert CanWrite(w, a, pending[a]);
        WriteSlotsRead(w.ether[a], pending[a], 0);
      }
    }
  }

  // ---- The actions that move balances ------------------------------------------------------------

  predicate ToOthers(action: Action) {
    action.NeonTransfer? ==> action.source != action.target
  }

  /** With the supply within 256 bits, a step succeeds for funds exactly when the source can afford
      it, and moves what the ledger moves. */
  lemma StepMoves(p: Progress, action: Action)
    requires !action.EvmSelfDestruct? && ToOthers(action) && Supply(p.world) < WORD
    ensures Step(p, action).Done? ==>
      && Affordable(Balances(p.world), action)
      && Balances(Step(p, action).value.world) == Move(Balances(p.world), action)
    ensures Affordable(Balances(p.world), action) ==> Step(p, action) != Failed(InsufficientFunds)
  {
    if action.NeonTransfer? {
      TransferMoves(p.world, action.source, action.target, action.value);
    } else if !action.NeonWithdraw? {
      NothingMoves(p, action);
    }
  }

  lemma NothingMoves(p: Progress, action: Action)
    requires !action.EvmSelfDestruct? && !action.NeonTransfer? && !action.NeonWithdraw?
    ensures Step(p, action).Done? ==> Balances(Step(p, action).value.world) == Balances(p.world)
    ensures Step(p, action) != Failed(InsufficientFunds)
  {
  }

  lemma TransferMoves(w: World, source: Address, target: Address, value: Word)
    requires source != target && Supply(w) < WORD
    ensures Transferred(w, source, target, value).Done? ==>
      && Affordable(Balances(w), NeonTransfer(source, target, value))
      && Balances(Transferred(w, source, target, value).value) == Move(Balances(w), NeonTransfer(source, target, value))
    ensures Affordable(Balances(w), NeonTransfer(source, target, value)) ==>
      Transferred(w, source, target, value) != Failed(InsufficientFunds)
  {
    PairBelowSum(Balances(w), source, target);
  }

  function KeptStep(p: Progress, action: Action, destroyed: set<Address>): Outcome<Progress> {
    if Keeps(action, destroyed) then Step(p, action) else Done(p)
  }

  lemma KeptStepMoves(p: Progress, action: Action, destroyed: set<Address>)
    requires ToOthers(action) && Supply(p.world) < WORD
    ensures KeptStep(p, action, destroyed).Done? ==>
      && Affordable(Balances(p.world), action)
      && Balances(KeptStep(p, action, destroyed).value.world) == Move(Balances(p.world), action)
    ensures Affordable(Balances(p.world), action) ==> KeptStep(p, action, destroyed) != Failed(InsufficientFunds)
  {
    if Keeps(action, destroyed) {
      StepMoves(p, action);
    }
  }

  lemma FoldKeptStep(p: Progress, log: seq<Action>, destroyed: set<Address>)
    requires log != []
    ensures Fold(p, Kept(log, destroyed)) ==
            var before := Fold(p, Kept(Init(log), destroyed));
            if before.Failed? then before else KeptStep(before.value, Last(log), destroyed)
  {
    FoldKept(p, log, destroyed);
  }

  lemma SupplyAlong(w: World, v: World, log: seq<Action>)
    requires Covered(Balances(w), log) && Balances(v) == Ledger(Balances(w), log) && Supply(w) < WORD
    ensures Supply(v) < WORD
  {
    LedgerConserves(Balances(w), log);
    WithdrawnNonNegative(log);
  }

  predicate AllToOthers(log: seq<Action>)
    decreases |log|
  {
    log == [] || (AllToOthers(Init(log)) && ToOthers(Last(log)))
  }

  /** The fold runs out of funds on no covered log, and completes on no other. */
  lemma {:induction false} KeptMoves(p: Progress, log: seq<Action>, destroyed: set<Address>)
    requires AllToOthers(log) && Supply(p.world) < WORD
    ensures Fold(p, Kept(log, destroyed)).Done? ==>
      && Covered(Balances(p.world), log)
      && Balances(Fold(p, Kept(log, destroyed)).value.world) == Ledger(Balances(p.world), log)
    ensures Covered(Balances(p.world), log) ==> Fold(p, Kept(log, destroyed)) != Failed(InsufficientFunds)
    decreases |log|
  {
    if log != [] {
      FoldKeptStep(p, log, destroyed);
      KeptMoves(p, Init(log), destroyed);
      var before := Fold(p, Kept(Init(log), destroyed));
      if before.Done? {
        SupplyAlong(p.world, before.value.world, Init(log));
        KeptStepMoves(before.value, Last(log), destroyed);
      }
    }
  }

  lemma {:induction false} CoveredToOthers(m: map<Address, int>, log: seq<Action>)
    requires Covered(m, log)
    ensures AllToOthers(log)
    decreases |log|
  {
    if log != [] {
      CoveredToOthers(m, Init(log));
    }
  }

  // ---- Conservation over the whole change --------------------------------------------------------------

  lemma FailureStage(w: World, log: seq<Action>)
    requires StateChange(w, log) == Failed(InsufficientFunds)
    ensures
      var actions := Rearranged(log);
      var created := Created(Processed(w, Operations(w, Needed(actions))), actions);
      || created == Failed(InsufficientFunds)
      || (created.Done? && Fold(Progress(created.value, map[]), actions) == Failed(InsufficientFunds))
  {
  }

  lemma StartBalances(w: World, actions: seq<Action>)
    ensures
      var created := Created(Processed(w, Operations(w, Needed(actions))), actions);
      && (created.Done? ==> SameGets(Balances(w), Balances(created.value)) && Supply(created.value) == Supply(w))
      && created != Failed(InsufficientFunds)
  {
    ProcessedBalances(w, Operations(w, Needed(actions)));
    CreatedBalances(Processed(w, Operations(w, Needed(actions))), actions);
  }

  /** A covered log never fails for lack of funds. */
  lemma CoveredNeverShort(w: World, log: seq<Action>)
    requires Covered(Balances(w), log) && Supply(w) < WORD
    ensures StateChange(w, log) != Failed(InsufficientFunds)
  {
    if StateChange(w, log) == Failed(InsufficientFunds) {
      FailureStage(w, log);
      var actions := Rearranged(log);
      StartBalances(w, actions);
      var start := Progress(Created(Processed(w, Operations(w, Needed(actions))), actions).value, map[]);
      CoveredSameGets(Balances(w), Balances(start.world), log);
      CoveredToOthers(Balances(w), log);
      KeptMoves(start, log, Destroyed(log));
      FoldConcat(start, Kept(log, Destroyed(log)), Destructs(log));
      var kept := Fold(start, Kept(log, Destroyed(log)));
      if kept.Done? {
        DestructsBalances(kept.value, log);
      }
    }
  }

  /** A log without transfers to oneself that applied was covered, every balance ends at the
      ledger's value, and the supply drops by exactly the withdrawals. */
  lemma ReadyConserves(w: World, log: seq<Action>, v: World)
    requires WorldOk(w) && AllToOthers(log) && Supply(w) < WORD && StateChange(w, log) == Done(Ready(v))
    ensures Covered(Balances(w), log)
    ensures Supply(v) + Withdrawn(log) == Supply(w)
    ensures SameGets(Balances(v), Ledger(Balances(w), log))
  {
    var start, kept, end := StagesOf(w, log, v);
    StartBalances(w, Rearranged(log));
    CoveredSameGets(Balances(w), Balances(start.world), log);
    KeptMoves(start, log, Destroyed(log));
    DestructsBalances(kept, log);
    WrittenBalances(end.world, end.pending);
    LedgerConserves(Balances(start.world), log);
  }

  /** Every balance of a covered log that applied is the journal's. */
  lemma CoveredRefinement(w: World, log: seq<Action>, v: World, a: Address)
    requires WorldOk(w) && Covered(Balances(w), log) && Supply(w) < WORD && StateChange(w, log) == Done(Ready(v))
    ensures BalanceOver(Balance(w, a), log, a) == Ok(Balance(v, a))
  {
    CoveredReads(w, log, a);
    JournalRefinement(w, log, v, a, 0);
  }

  // ---- Gas payments ----------------------------------------------------------------------------------------

  /** Paying gas moves the amount to the operator and nothing else. */
  lemma GasPaymentConserves(w: World, origin: Address, operator: Address, value: Word)
    requires origin != operator && Supply(w) < WORD && Transferred(w, origin, operator, value).Done?
    ensures
      var v := Transferred(w, origin, operator, value).value;
      && Supply(v) == Supply(w)
      && Balances(v) == Paid(Balances(w), origin, operator, value)
  {
    TransferMoves(w, origin, operator, value);
    assert Move(Balances(w), NeonTransfer(origin, operator, value)) == Paid(Balances(w), origin, operator, value);
    MoveKeeps(Balances(w), NeonTransfer(origin, operator, value));
  }

  /** The same for an operator account that was loaded separately. */
  lemma SeparateGasPaymentConserves(w: World, origin: Address, operatorBalance: Word, value: Word)
    requires Supply(w) + operatorBalance < WORD && Withdraw(w, origin, value).Done?
    ensures Supply(Withdraw(w, origin, value).value) + WrappingAdd(operatorBalance, value)
            == Supply(w) + operatorBalance
  {
    PairBelowSum(Balances(w), origin, origin);
    assert Balances(Withdraw(w, origin, value).value) == Move(Balances(w), NeonWithdraw(origin, value));
    MoveKeeps(Balances(w), NeonWithdraw(origin, value));
  }

  function Paid(m: map<Address, int>, origin: Address, operator: Address, gas: int): map<Address, int> {
    var n := m[origin := Get(m, origin) - gas];
    n[operator := Get(n, operator) + gas]
  }

  /** Whenever the origin spends, at least `gas` is left over. */
  predicate LeavesRoom(m: map<Address, int>, log: seq<Action>, origin: Address, gas: int)
    decreases |log|
  {
    log == [] ||
    var action := Last(log);
    && LeavesRoom(m, Init(log), origin, gas)
    && ((action.NeonTransfer? || action.NeonWithdraw?) && action.source == origin ==>
        action.value + gas <= Get(Ledger(m, Init(log)), origin))
  }

  lemma {:induction false} PaidLedger(m: map<Address, int>, log: seq<Action>, origin: Address, operator: Address,
                                      gas: int, a: Address)
    requires origin != operator
    ensures Get(Ledger(Paid(m, origin, operator, gas), log), a) ==
            Get(Ledger(m, log), a) + (if a == operator then gas else 0) - (if a == origin then gas else 0)
    decreases |log|
  {
    if log != [] {
      PaidLedger(m, Init(log), origin, operator, gas, a);
      MoveGet(Ledger(m, Init(log)), Last(log), a);
      MoveGet(Ledger(Paid(m, origin, operator, gas), Init(log)), Last(log), a);
    }
  }

  /** Gas paid between iterations is not in the log. A log that was covered when it was written stays
      covered after such a payment exactly when the origin's own spending leaves room for it. */
  lemma {:induction false} CoveredAfterPayment(m: map<Address, int>, log: seq<Action>, origin: Address,
                                               operator: Address, gas: nat)
    requires origin != operator && Covered(m, log)
    ensures Covered(Paid(m, origin, operator, gas), log) <==> LeavesRoom(m, log, origin, gas)
    decreases |log|
  {
    if log != [] {
      CoveredAfterPayment(m, Init(log), origin, operator, gas);
      var action := Last(log);
      if action.NeonTransfer? || action.NeonWithdraw? {
        PaidLedger(m, Init(log), origin, operator, gas, action.source);
      }
    }
  }

  const EXAMPLE_LOG: seq<Action> := [EvmIncrementNonce(1), NeonTransfer(1, 2, 10)]

  function ExampleWorld(origin: Word, operator: Word): World {
    World(map[1 := Account(1, origin, 0, 0, [], map[]),
              2 := Account(0, 0, 0, 0, [], map[]),
              3 := Account(0, operator, 0, 0, [], map[])], map[], {})
  }

  lemma ExampleRearranged()
    ensures Rearranged(EXAMPLE_LOG) == EXAMPLE_LOG
    ensures Init(EXAMPLE_LOG) == [EvmIncrementNonce(1)] && Last(EXAMPLE_LOG) == NeonTransfer(1, 2, 10)
    ensures Init([EvmIncrementNonce(1)]) == []
  {
    var first := [EvmIncrementNonce(1)];
    assert Init(EXAMPLE_LOG) == first && Init(first) == [];
    assert Destroyed(first) == {} && Destructs(first) == [] && Kept(first, {}) == first;
  }

  lemma ExampleSpace(w: World)
    requires 2 in w.ether
    ensures Processed(w, Operations(w, Needed(EXAMPLE_LOG))) == w && AllReached(Operations(w, Needed(EXAMPLE_LOG)))
    ensures Created(w, EXAMPLE_LOG) == Done(w)
  {
    ExampleRearranged();
    assert Needed([EvmIncrementNonce(1)]) == map[];
    assert Needed(EXAMPLE_LOG) == map[2 := ACCOUNT_SIZE];
    var ops := Operations(w, Needed(EXAMPLE_LOG));
    assert ops == map[];
    assert Processed(w, ops) == w;
    assert Created(w, [EvmIncrementNonce(1)]) == Done(w);
  }

  lemma ExampleFold(w: World)
    requires w == ExampleWorld(9, 1)
    ensures Fold(Progress(w, map[]), EXAMPLE_LOG) == Failed(InsufficientFunds)
  {
    ExampleRearranged();
    var after := Fold(Progress(w, map[]), [EvmIncrementNonce(1)]);
    assert Fold(Progress(w, map[]), []) == Done(Progress(w, map[]));
    assert after.Done? && after.value.world.ether[1].balance == 9;
  }

  /** So a log built through balance-checked transfers can still fail for funds when it is applied:
      the origin sends its whole balance in the first iteration and pays one unit of gas after it. */
  lemma GasBreaksCoverage()
    ensures Covered(Balances(ExampleWorld(10, 0)), EXAMPLE_LOG)
    ensures Transferred(ExampleWorld(10, 0), 1, 3, 1) == Done(ExampleWorld(9, 1))
    ensures StateChange(ExampleWorld(9, 1), EXAMPLE_LOG) == Failed(InsufficientFunds)
  {
    ExampleRearranged();
    ExampleSpace(ExampleWorld(9, 1));
    ExampleFold(ExampleWorld(9, 1));
    ExamplePaid();
  }

  lemma ExamplePaid()
    ensures Transferred(ExampleWorld(10, 0), 1, 3, 1) == Done(ExampleWorld(9, 1))
  {
    assert Transferred(ExampleWorld(10, 0), 1, 3, 1).value.ether == ExampleWorld(9, 1).ether;
  }
}
