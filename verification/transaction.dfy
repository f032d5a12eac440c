/** A transaction from start to finish: the log its run leaves applies as the run saw it. */
module Transactions {
  import opened Opcodes
  import opened WordArithmetic
  import opened StorageLayout
  import opened Accounts
  import opened Ledgers
  import opened Journal
  import opened Apply
  import opened Conservation
  import opened Reallocation
  import opened CallFrames
  import opened FrameLaws
  import opened FrameCoverage
  import FrameCode
  import ApplySuccess
  import ApplyRefinement

  /** For every transaction, every program it runs and every nesting of calls and reverts, over accounts
      whose supply fits a word: applying the log it exits with never runs out of funds or space, and once
      applied the supply has dropped by the withdrawals and every balance is what the machine last
      read. */
  lemma TransactionApplies(b: Backend, chainId: Word, trx: Transaction, origin: Address, created: Address, trace: Trace,
                           v: World, a: Address)
    requires Supply(b.world) < WORD && NewMachine(b, chainId, trx, origin, created).Some?
    requires
      var m := NewMachine(b, chainId, trx, origin, created).value;
      AllGenuine(b, m, trace) && Run(b, m, trace).Exited?
    ensures
      var log := Run(b, NewMachine(b, chainId, trx, origin, created).value, trace).machine.log;
      && StateChange(b.world, log) != Failed(InsufficientFunds)
      && StateChange(b.world, log) != Failed(NotEnoughSpace)
      && (StateChange(b.world, log) == Done(Applied.Ready(v)) ==>
          && Supply(v) + Withdrawn(log) == Supply(b.world)
          && BalanceOver(Balance(b.world, a), log, a) == Journal.Ok(Balance(v, a)))
  {
    var m := NewMachine(b, chainId, trx, origin, created).value;
    var log := Run(b, m, trace).machine.log;
    NewMachineGood(b, chainId, trx, origin, created);
    RunCovered(b, m, trace);
    CoveredNeverShort(b.world, log);
    if AllReached(Operations(b.world, Needed(Rearranged(log)))) {
      DeployHasSpace(b.world, log);
    }
    if StateChange(b.world, log) == Done(Applied.Ready(v)) {
      CoveredToOthers(Balances(b.world), log);
      ReadyConserves(b.world, log, v);
      CoveredRefinement(b.world, log, v, a);
    }
  }

  /** So it is applied exactly when every account gets its space in this instruction and every action fits
      the accounts before. */
  lemma TransactionAppliesIff(b: Backend, chainId: Word, trx: Transaction, origin: Address, created: Address,
                              trace: Trace)
    requires Supply(b.world) < WORD && NewMachine(b, chainId, trx, origin, created).Some?
    requires
      var m := NewMachine(b, chainId, trx, origin, created).value;
      AllGenuine(b, m, trace) && Run(b, m, trace).Exited?
    ensures
      var log := Run(b, NewMachine(b, chainId, trx, origin, created).value, trace).machine.log;
      StateChange(b.world, log).Done? && StateChange(b.world, log).value.Ready? <==>
      AllReached(Operations(b.world, Needed(Rearranged(log)))) && ApplySuccess.AllFit(b.world, log)
  {
    var m := NewMachine(b, chainId, trx, origin, created).value;
    NewMachineGood(b, chainId, trx, origin, created);
    RunCovered(b, m, trace);
    CoveredToOthers(Balances(b.world), Run(b, m, trace).machine.log);
    ApplySuccess.AppliesIff(b.world, Run(b, m, trace).machine.log);
  }

  /** The first action of the log is the origin's nonce increment and nothing in it destroys the origin, so
      every transaction that applies leaves its origin with a larger nonce. */
  lemma OriginNonceRises(b: Backend, chainId: Word, trx: Transaction, origin: Address, created: Address, trace: Trace,
                         v: World)
    requires NewMachine(b, chainId, trx, origin, created).Some? && (trx.target.None? ==> created != origin)
    requires
      var m := NewMachine(b, chainId, trx, origin, created).value;
      && FrameCode.AllDecoded(FrameCode.Same(b, |trace|), m, trace) && Run(b, m, trace).Exited?
      && StateChange(b.world, Run(b, m, trace).machine.log) == Done(Applied.Ready(v))
    ensures Nonce(v, origin) > Nonce(b.world, origin) == trx.nonce
  {
    var m := NewMachine(b, chainId, trx, origin, created).value;
    NewMachineGood(b, chainId, trx, origin, created);
    RunKeeps(b, m, trace);
    FrameCode.OneBackend(b, m, trace);
    FrameCode.OriginIsSpared(b, FrameCode.Same(b, |trace|), chainId, trx, origin, created, trace);
    var log := Run(b, m, trace).machine.log;
    ApplyRefinement.JournalRefinement(b.world, log, v, origin, 0);
    NonceGrows(Nonce(b.world, origin), log, origin);
  }
}
