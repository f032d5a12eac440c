/** An iterative transaction ends as the same transaction executed by one instruction would have: whatever
    other instructions run in between, and however often applying its results is postponed. */
module Iterative {
  import opened Opcodes
  import opened WordArithmetic
  import opened StorageLayout
  import opened Accounts
  import opened Journal
  import opened Apply
  import opened ApplyRefinement
  import opened Protocol
  import opened ProtocolLaws
  import opened LockIsolation
  import CallFrames
  import FrameLaws
  import LegacyMachine
  import Resumption

  // ---- The same log over accounts that read alike ----------------------------------------------

  /** Apart from its balance, `a` reads alike in both worlds. */
  predicate AlikeAt(u: World, v: World, a: Address, index: Word)
    requires WorldOk(u) && WorldOk(v)
  {
    && Nonce(u, a) == Nonce(v, a) && Code(u, a) == Code(v, a)
    && Storage(u, a, index) == Storage(v, a, index)
  }

  /** The account as the next transaction loads it. */
  predicate LoadedAlikeAt(u: World, v: World, a: Address, index: Word)
    requires WorldOk(u) && WorldOk(v)
  {
    LoadOk(u);
    LoadOk(v);
    AlikeAt(Load(u), Load(v), a, index)
  }

  lemma FreshLoad(w: World, a: Address, index: Word)
    requires WorldOk(w) && (a in w.ether ==> Load(w).ether[a] == w.ether[a])
    ensures WorldOk(Load(w)) && AlikeAt(Load(w), w, a, index)
  {
    LoadOk(w);
  }

  lemma ReadyAlike(u: World, v: World, log: seq<Action>, p: World, q: World, a: Address, index: Word)
    requires WorldOk(u) && WorldOk(v) && FreshAt(u, a) && FreshAt(v, a) && AlikeAt(u, v, a, index)
    requires StateChange(u, log) == Done(Ready(p)) && StateChange(v, log) == Done(Ready(q))
    ensures WorldOk(p) && WorldOk(q) && LoadedAlikeAt(p, q, a, index)
  {
    JournalRefinement(u, log, p, a, index);
    JournalRefinement(v, log, q, a, index);
    if a in Destroyed(log) {
      DestroyedIsBlank(u, log, p, a, index);
      DestroyedIsBlank(v, log, q, a, index);
    } else {
      ReadyStaysFresh(u, log, p, a);
      ReadyStaysFresh(v, log, q, a);
      FreshLoad(p, a, index);
      FreshLoad(q, a, index);
    }
  }

  // ---- Parts of the world ----------------------------------------------------------------------

  predicate BothAlike(w: World, v: World, a: Address)
    requires WorldOk(w) && WorldOk(v)
  {
    (a in w.ether <==> a in v.ether) && (a in w.ether ==> ReadsAlike(w.ether[a], v.ether[a]))
  }

  lemma PartsAlike(w: World, v: World, s: set<Address>, t: set<Address>, a: Address, index: Word)
    requires WorldOk(w) && WorldOk(v) && BothAlike(w, v, a) && a in s && a in t
    ensures WorldOk(Sub(w, s)) && WorldOk(Sub(v, t)) && FreshAt(Sub(w, s), a) && FreshAt(Sub(v, t), a)
    ensures AlikeAt(Sub(w, s), Sub(v, t), a, index)
  {
    SubOk(w, s);
    SubOk(v, t);
    if a in w.ether {
      var x, y := w.ether[a], v.ether[a];
      assert Sub(w, s).ether[a] == LoadAccount(x) && Sub(v, t).ether[a] == LoadAccount(y);
      LoadedPartsAlike(x, y, index);
    }
  }

  lemma LoadedPartsAlike(x: Account, y: Account, index: Word)
    requires AccountOk(x) && AccountOk(y) && ReadsAlike(x, y)
    ensures
      var p, q := LoadAccount(x), LoadAccount(y);
      && AccountOk(p) && AccountOk(q) && Fresh(p) && Fresh(q)
      && p.nonce == q.nonce && CodeOf(p) == CodeOf(q) && SlotOf(p, index) == SlotOf(q, index)
  {
    LoadAccountOk(x);
    LoadAccountOk(y);
    RebalancedReads(LoadAccount(y), x.balance, index);
  }

  lemma MergedLoad(w: World, v: World, addresses: set<Address>, a: Address)
    requires WorldOk(v) && WorldOk(Merge(w, v, addresses)) && a in addresses
             && Sub(w, addresses).ether.Keys <= v.ether.Keys
    ensures a in Load(Merge(w, v, addresses)).ether <==> a in Load(v).ether
    ensures a in v.ether ==> Load(Merge(w, v, addresses)).ether[a] == Load(v).ether[a]
  {
  }

  /** Where the complete change leaves the world. */
  lemma CompleteChange(w: World, addresses: set<Address>, log: seq<Action>) returns (p: World)
    requires WorldOk(w) && ApplyResults(w, addresses, Some(log)).Some? && ApplyResults(w, addresses, Some(log)).value.1
    ensures StateChange(Sub(w, addresses), log) == Done(Ready(p)) && WorldOk(p)
    ensures ApplyResults(w, addresses, Some(log)).value.0 == Merge(w, p, addresses)
    ensures WorldOk(Merge(w, p, addresses)) && Sub(w, addresses).ether.Keys <= p.ether.Keys
  {
    SubOk(w, addresses);
    AppliedConfined(w, addresses, Some(log));
    p := StateChange(Sub(w, addresses), log).value.world;
    ChangeKeys(Sub(w, addresses), log, p);
  }

  /** The same log applied to worlds in which `a` reads alike. */
  lemma AppliedAlike(w: World, v: World, s: set<Address>, t: set<Address>, log: seq<Action>, a: Address, index: Word)
    requires WorldOk(w) && WorldOk(v) && BothAlike(w, v, a) && a in s && a in t
    requires ApplyResults(w, s, Some(log)).Some? && ApplyResults(w, s, Some(log)).value.1
    requires ApplyResults(v, t, Some(log)).Some? && ApplyResults(v, t, Some(log)).value.1
    ensures
      var x, y := ApplyResults(w, s, Some(log)).value.0, ApplyResults(v, t, Some(log)).value.0;
      WorldOk(x) && WorldOk(y) && LoadedAlikeAt(x, y, a, index)
  {
    var p := CompleteChange(w, s, log);
    var q := CompleteChange(v, t, log);
    PartsAlike(w, v, s, t, a, index);
    ReadyAlike(Sub(w, s), Sub(v, t), log, p, q, a, index);
    MergedLoad(w, p, s, a);
    MergedLoad(v, q, t, a);
    LoadedTwice(Merge(w, p, s), p, a, index);
    LoadedTwice(Merge(v, q, t), q, a, index);
  }

  /** Worlds that load `a` alike. */
  lemma LoadedTwice(w: World, v: World, a: Address, index: Word)
    requires WorldOk(w) && WorldOk(v) && (a in w.ether <==> a in v.ether)
    requires a in v.ether ==> Load(w).ether[a] == Load(v).ether[a]
    ensures LoadedAlikeAt(w, v, a, index)
  {
    LoadOk(w);
    LoadOk(v);
  }

  lemma PaidAlike(w: World, v: World, a: Address, index: Word)
    requires WorldOk(w) && WorldOk(v) && OnlyBalances(w, v)
    ensures LoadedAlikeAt(w, v, a, index)
  {
    LoadOk(w);
    LoadOk(v);
    if a in w.ether {
      var x := LoadAccount(w.ether[a]);
      assert Load(v).ether[a] == x.(balance := v.ether[a].balance);
      RebalancedReads(x, v.ether[a].balance, index);
    }
  }

  lemma RebalancedReads(x: Account, balance: Word, index: Word)
    requires AccountOk(x)
    ensures
      var y := x.(balance := balance);
      AccountOk(y) && y.nonce == x.nonce && CodeOf(y) == CodeOf(x) && SlotOf(y, index) == SlotOf(x, index)
  {
  }

  // ---- From the first iteration to the last ----------------------------------------------------

  /** After `Begin`, an address that was passed is held if its account existed, and listed as missing if
      not. */
  lemma BegunList(g: Global, k: nat, op: Operator, now: nat, trx: Trx, passed: seq<Passed>, gas: nat, valid: bool,
                  a: Address)
    requires WorldOk(g.world) && Begin(g, k, op, now, trx, passed, gas, valid).Some? && a in Addresses(passed)
    ensures
      var h := Begin(g, k, op, now, trx, passed, gas, valid).value;
      && WorldOk(h.world) && InFlightAt(h, k) && OnlyBalances(g.world, h.world)
      && (a in g.world.ether ==> a in HeldAt(h, k))
      && (a !in g.world.ether ==> ListedMissing(h.slots[k].state.blocked, a))
  {
    PayMoves(g.world, trx.caller, op.account, SaturatingMul(gas, trx.gasPrice));
    MetasHeld(g, passed);
    var i: nat :| i < |passed| && passed[i].key == Pda(a);
    MetasAt(g, passed, i);
    assert Metas(g, passed)[i] in Metas(g, passed);
  }

  predicate ListedMissing(list: seq<Meta>, a: Address) {
    exists m :: m in list && m.key == Pda(a) && !m.existed
  }

  /** An address that a State lists as missing is still missing when the State is continued. */
  lemma StillMissing(g: Global, k: nat, operator: nat, now: nat, passed: seq<Passed>, a: Address)
    requires Restore(g, k, operator, now, passed, false).Some? && ListedMissing(g.slots[k].state.blocked, a)
    ensures a !in g.world.ether && a in Addresses(passed)
  {
    RestoredState(g, k, operator, now, passed, false);
    var list := g.slots[k].state.blocked;
    var i: nat :| i < |list| && list[i].key == Pda(a) && !list[i].existed;
    assert Matches(g, list[i], passed[i], false) && passed[i] in passed;
  }

  /** Between the first and the last iteration of a transaction nothing that it can read has changed,
      except balances. */
  lemma UnchangedForIt(g: Global, k: nat, op: Operator, now: nat, trx: Trx, passed: seq<Passed>, gas: nat, valid: bool,
                       steps: seq<Protocol.Step>, operator: nat, later: nat, again: seq<Passed>, a: Address)
    requires WorldOk(g.world) && LocksOk(g) && Begin(g, k, op, now, trx, passed, gas, valid).Some?
    requires
      var begun := Begin(g, k, op, now, trx, passed, gas, valid).value;
      && StaysInFlight(begun, steps, k) && a in Addresses(passed)
      && Restore(Played(begun, steps), k, operator, later, again, false).Some?
    ensures
      var n := Played(Begin(g, k, op, now, trx, passed, gas, valid).value, steps);
      WorldOk(n.world) && BothAlike(g.world, n.world, a) && a in Addresses(again)
  {
    var begun := Begin(g, k, op, now, trx, passed, gas, valid).value;
    var n := Played(begun, steps);
    BegunList(g, k, op, now, trx, passed, gas, valid, a);
    BeginLocks(g, k, op, now, trx, passed, gas, valid);
    LockSafety(begun, steps);
    ListGrows(begun, steps, k);
    RestoredState(n, k, operator, later, again, false);
    if a in g.world.ether {
      HeldReadsOver(begun, steps, k, a);
      BalanceReads(g.world.ether[a], begun.world.ether[a].balance);
      ReadsAlikeThrough(g.world.ether[a], begun.world.ether[a], n.world.ether[a]);
      MatchedHeld(n, n.slots[k].state.blocked, again, false);
    } else {
      var m :| m in begun.slots[k].state.blocked && m.key == Pda(a) && !m.existed;
      assert m in n.slots[k].state.blocked;
      StillMissing(n, k, operator, later, again, a);
    }
  }

  /** An iteration that ends its transaction applied its log completely. */
  lemma LastIteration(g: Global, k: nat, op: Operator, now: nat, passed: seq<Passed>, gas: nat, log: seq<Action>)
    requires WorldOk(g.world) && Continue(g, k, op, now, passed, gas, Some(log)).Some?
    requires !InFlightAt(Continue(g, k, op, now, passed, gas, Some(log)).value, k)
    ensures
      var applied := ApplyResults(g.world, Addresses(passed), Some(log));
      && Restore(g, k, op.key, now, passed, false).Some?
      && applied.Some? && applied.value.1 && WorldOk(applied.value.0)
      && WorldOk(Continue(g, k, op, now, passed, gas, Some(log)).value.world)
      && OnlyBalances(applied.value.0, Continue(g, k, op, now, passed, gas, Some(log)).value.world)
  {
    ContinuedWorld(g, k, op, now, passed, gas, Some(log));
  }

  lemma SingleShot(g: Global, op: Operator, trx: Trx, passed: seq<Passed>, gas: nat, log: seq<Action>, valid: bool)
    requires WorldOk(g.world) && Execute(g, op, trx, passed, gas, log, valid).Some?
    ensures
      var applied := ApplyResults(g.world, Addresses(passed), Some(log));
      && applied.Some? && applied.value.1 && WorldOk(applied.value.0)
      && WorldOk(Execute(g, op, trx, passed, gas, log, valid).value.world)
      && OnlyBalances(applied.value.0, Execute(g, op, trx, passed, gas, log, valid).value.world)
  {
    AppliedConfined(g.world, Addresses(passed), Some(log));
    PayMoves(ApplyResults(g.world, Addresses(passed), Some(log)).value.0, trx.caller, op.account,
             SaturatingMul(gas, trx.gasPrice));
  }

  lemma AlikeThrough(t: World, u: World, v: World, w: World, a: Address, index: Word)
    requires WorldOk(t) && WorldOk(u) && WorldOk(v) && WorldOk(w)
    requires LoadedAlikeAt(u, t, a, index) && LoadedAlikeAt(u, v, a, index) && LoadedAlikeAt(v, w, a, index)
    ensures LoadedAlikeAt(t, w, a, index)
  {
  }

  /** A transaction that begins, is continued by anyone with any other instruction in between, has its
      results postponed any number of times, and finishes, leaves every account it was begun with, as it
      is next loaded, with the nonce, code and storage that executing it at once instead would have left. */
  lemma IterativeIsSingleShot(g: Global, k: nat, op: Operator, now: nat, trx: Trx, passed: seq<Passed>, gas: nat,
                              valid: bool, steps: seq<Protocol.Step>, last: Protocol.Step, once: Protocol.Step,
                              log: seq<Action>, a: Address, index: Word)
    requires WorldOk(g.world) && LocksOk(g) && Begin(g, k, op, now, trx, passed, gas, valid).Some?
    requires last.ContinueStep? && last.k == k && last.result == Some(log)
    requires once.ExecuteStep? && once.log == log && a in Addresses(passed) && a in Addresses(once.passed)
    requires
      var begun := Begin(g, k, op, now, trx, passed, gas, valid).value;
      && StaysInFlight(begun, steps, k) && Attempted(Played(begun, steps), last).Some?
      && !InFlightAt(Next(Played(begun, steps), last), k)
    requires Attempted(g, once).Some?
    ensures
      var iterated := Next(Played(Begin(g, k, op, now, trx, passed, gas, valid).value, steps), last).world;
      var executed := Next(g, once).world;
      WorldOk(iterated) && WorldOk(executed) && LoadedAlikeAt(executed, iterated, a, index)
  {
    var n := Played(Begin(g, k, op, now, trx, passed, gas, valid).value, steps);
    BegunList(g, k, op, now, trx, passed, gas, valid, a);
    BeginLocks(g, k, op, now, trx, passed, gas, valid);
    LockSafety(Begin(g, k, op, now, trx, passed, gas, valid).value, steps);
    LastIteration(n, k, last.op, last.now, last.passed, last.gas, log);
    SingleShot(g, once.op, once.trx, once.passed, once.gas, log, once.valid);
    UnchangedForIt(g, k, op, now, trx, passed, gas, valid, steps, last.op.key, last.now, last.passed, a);
    AppliedAlike(g.world, n.world, Addresses(once.passed), Addresses(last.passed), log, a, index);
    var u := ApplyResults(n.world, Addresses(last.passed), Some(log)).value.0;
    var v := ApplyResults(g.world, Addresses(once.passed), Some(log)).value.0;
    PaidAlike(u, Next(n, last).world, a, index);
    PaidAlike(v, Next(g, once).world, a, index);
    AlikeThrough(Next(g, once).world, v, u, Next(n, last).world, a, index);
  }

  /** With the machine's part: the iterations ran the program in pieces, saved in between, and what they
      handed over is applied in the end; the single instruction runs the program to its end at once. */
  lemma ResumedIsSingleShot(g: Global, k: nat, op: Operator, now: nat, trx: Trx, passed: seq<Passed>, gas: nat,
                            valid: bool, steps: seq<Protocol.Step>, last: Protocol.Step, once: Protocol.Step,
                            next: CallFrames.Machine -> CallFrames.Outcome, b: CallFrames.Backend,
                            decode: LegacyMachine.Decode, m: CallFrames.Machine, limits: seq<nat>, limit: nat,
                            price: nat, n: nat, a: Address, index: Word)
    requires WorldOk(g.world) && LocksOk(g) && Begin(g, k, op, now, trx, passed, gas, valid).Some?
    requires Resumption.Starts(next, b, decode, m) && !LegacyMachine.After(next, m, n).Running?
    requires
      var it := Resumption.Iterate(next, Resumption.StatesAfter(next, Resumption.Begun(m), limits, price), limit,
                                   price);
      it.Results? && last.ContinueStep? && last.k == k && last.result == Some(it.actions)
    requires
      var whole := LegacyMachine.After(next, m, n);
      once.ExecuteStep? && whole.Exited? && once.log == whole.machine.log
    requires a in Addresses(passed) && a in Addresses(once.passed)
    requires
      var begun := Begin(g, k, op, now, trx, passed, gas, valid).value;
      && StaysInFlight(begun, steps, k) && Attempted(Played(begun, steps), last).Some?
      && !InFlightAt(Next(Played(begun, steps), last), k)
    requires Attempted(g, once).Some?
    ensures
      var iterated := Next(Played(Begin(g, k, op, now, trx, passed, gas, valid).value, steps), last).world;
      var executed := Next(g, once).world;
      WorldOk(iterated) && WorldOk(executed) && LoadedAlikeAt(executed, iterated, a, index)
  {
    Resumption.ResultsAreTheRuns(next, b, decode, m, limits, limit, price, n);
    IterativeIsSingleShot(g, k, op, now, trx, passed, gas, valid, steps, last, once, once.log, a, index);
  }

  // ---- Balances ---------------------------------------------------------------------------------

  /** Where both reads succeed, a log moves a balance by the same amount. */
  lemma {:induction false} SameMovement(b: Word, c: Word, log: seq<Action>, a: Address)
    requires BalanceOver(b, log, a).Ok? && BalanceOver(c, log, a).Ok?
    ensures BalanceOver(b, log, a).value - b == BalanceOver(c, log, a).value - c
    decreases |log|
  {
    if log != [] {
      SameMovement(b, c, Init(log), a);
    }
  }

  lemma AppliedBalance(w: World, addresses: set<Address>, log: seq<Action>, a: Address)
    requires WorldOk(w) && a in addresses && ApplyResults(w, addresses, Some(log)).Some?
    requires ApplyResults(w, addresses, Some(log)).value.1 && BalanceOver(Balance(w, a), log, a).Ok?
    ensures Balance(ApplyResults(w, addresses, Some(log)).value.0, a) == BalanceOver(Balance(w, a), log, a).value
  {
    var p := CompleteChange(w, addresses, log);
    SubOk(w, addresses);
    assert Balance(Sub(w, addresses), a) == Balance(w, a);
    JournalRefinement(Sub(w, addresses), log, p, a, 0);
    assert a in w.ether ==> a in p.ether;
  }

  /** Before gas is paid, the last iteration has moved every balance of its accounts by as much as
      executing at once would have, whatever was paid or deposited in between. */
  lemma SameMovements(g: Global, n: Global, s: set<Address>, t: set<Address>, log: seq<Action>, a: Address)
    requires WorldOk(g.world) && WorldOk(n.world) && a in s && a in t
    requires ApplyResults(n.world, s, Some(log)).Some? && ApplyResults(n.world, s, Some(log)).value.1
    requires ApplyResults(g.world, t, Some(log)).Some? && ApplyResults(g.world, t, Some(log)).value.1
    requires BalanceOver(Balance(n.world, a), log, a).Ok? && BalanceOver(Balance(g.world, a), log, a).Ok?
    ensures Balance(ApplyResults(n.world, s, Some(log)).value.0, a) - Balance(n.world, a)
            == Balance(ApplyResults(g.world, t, Some(log)).value.0, a) - Balance(g.world, a)
  {
    AppliedBalance(n.world, s, log, a);
    AppliedBalance(g.world, t, log, a);
    SameMovement(Balance(n.world, a), Balance(g.world, a), log, a);
  }
}
