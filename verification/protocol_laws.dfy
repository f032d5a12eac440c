/** What every interleaving of instructions keeps: locks belong to exactly one transaction in flight,
    a caller's nonce is frozen while its transaction is in flight and never used twice, and the gas a
    transaction paid is what its iterations charged. */
module ProtocolLaws {
  import opened Opcodes
  import opened WordArithmetic
  import opened StorageLayout
  import opened Accounts
  import opened Journal
  import opened Apply
  import opened ApplyRefinement
  import opened Protocol

  // ---- What applying and paying may touch ------------------------------------------------------

  lemma {:induction false} CreatedKeys(w: World, actions: seq<Action>)
    requires Created(w, actions).Done?
    ensures Created(w, actions).value.ether.Keys <= w.ether.Keys + Needed(actions).Keys
    decreases |actions|
  {
    if actions != [] {
      CreatedKeys(w, Init(actions));
    }
  }

  /** A change only creates accounts that its actions call for and removes none. */
  lemma ChangeKeys(w: World, log: seq<Action>, v: World)
    requires WorldOk(w)
    requires StateChange(w, log) == Done(Ready(v)) || StateChange(w, log) == Done(NeedMoreReallocations(v))
    ensures WorldOk(v)
    ensures w.ether.Keys <= v.ether.Keys <= w.ether.Keys + Needed(Rearranged(log)).Keys
  {
    var actions := Rearranged(log);
    var grown := Processed(w, Operations(w, Needed(actions)));
    ProcessedReads(w, Operations(w, Needed(actions)));
    if StateChange(w, log).value.Ready? {
      CreatedReads(grown, actions);
      CreatedKeys(grown, actions);
      FoldOk(Progress(Created(grown, actions).value, map[]), actions);
      JournalRefinement(w, log, v, 0, 0);
    }
  }

  lemma SubOk(w: World, addresses: set<Address>)
    requires WorldOk(w)
    ensures WorldOk(Sub(w, addresses)) && Sub(w, addresses).ether.Keys == w.ether.Keys * addresses
    ensures forall a :: a in addresses ==> Nonce(Sub(w, addresses), a) == Nonce(w, a)
  {
    LoadOk(World(map a | a in w.ether && a in addresses :: w.ether[a],
                 map a | a in w.spare && a in addresses :: w.spare[a], w.refused));
  }

  /** Same accounts, apart from those that were passed. */
  predicate Confined(w: World, v: World, addresses: set<Address>) {
    && w.ether.Keys <= v.ether.Keys
    && forall a :: a in v.ether && a !in addresses ==> a in w.ether && v.ether[a] == w.ether[a]
  }

  lemma MergeConfined(w: World, v: World, addresses: set<Address>)
    requires WorldOk(w) && WorldOk(v) && v.ether.Keys <= addresses
    ensures WorldOk(Merge(w, v, addresses)) && Confined(w, Merge(w, v, addresses), addresses)
    ensures forall a :: a in v.ether ==> Nonce(Merge(w, v, addresses), a) == Nonce(v, a)
  {
  }

  lemma AppliedConfined(w: World, addresses: set<Address>, result: Option<seq<Action>>)
    requires WorldOk(w) && ApplyResults(w, addresses, result).Some?
    ensures WorldOk(ApplyResults(w, addresses, result).value.0)
    ensures Confined(w, ApplyResults(w, addresses, result).value.0, addresses)
  {
    if result.Some? {
      var sub := Sub(w, addresses);
      SubOk(w, addresses);
      var v := StateChange(sub, result.value).value.world;
      ChangeKeys(sub, result.value, v);
      MergeConfined(w, v, addresses);
    }
  }

  /** Payment moves balances and nothing else. */
  predicate OnlyBalances(w: World, v: World) {
    && v.ether.Keys == w.ether.Keys
    && forall a :: a in w.ether ==> v.ether[a] == w.ether[a].(balance := v.ether[a].balance)
  }

  lemma PayMoves(w: World, caller: Address, operator: Address, value: Word)
    requires Pay(w, caller, operator, value).Some?
    ensures
      var v := Pay(w, caller, operator, value).value;
      && OnlyBalances(w, v) && (WorldOk(w) ==> WorldOk(v))
      && Balance(v, caller) == Balance(w, caller) - (if operator == caller then 0 else value)
      && forall a :: a in w.ether && a != caller && a != operator ==> v.ether[a] == w.ether[a]
  {
  }

  // ---- Locks -----------------------------------------------------------------------------------

  function Held(s: Slot): set<Address> {
    if s.InFlight? then HeldBy(s.state.blocked) else {}
  }

  function HeldAt(g: Global, k: nat): set<Address> {
    if k in g.slots then Held(g.slots[k]) else {}
  }

  /** An account is locked exactly when a transaction in flight holds it, and no two hold the same. */
  ghost predicate LocksOk(g: Global) {
    && g.locked <= g.world.ether.Keys
    && (forall k: nat :: HeldAt(g, k) <= g.locked)
    && (forall a :: a in g.locked ==> exists k: nat :: a in HeldAt(g, k))
    && (forall k: nat, l: nat :: k != l ==> HeldAt(g, k) !! HeldAt(g, l))
  }

  /** One transaction exchanges what it holds, within what nobody else holds. */
  lemma Exchange(g: Global, h: Global, k: nat)
    requires LocksOk(g) && g.world.ether.Keys <= h.world.ether.Keys
    requires forall l: nat :: l != k ==> HeldAt(h, l) == HeldAt(g, l)
    requires h.locked == (g.locked - HeldAt(g, k)) + HeldAt(h, k)
    requires HeldAt(h, k) !! (g.locked - HeldAt(g, k)) && HeldAt(h, k) <= h.world.ether.Keys
    ensures LocksOk(h)
  {
    forall l: nat ensures HeldAt(h, l) <= h.locked {
      if l != k {
        assert HeldAt(g, l) !! HeldAt(g, k) && HeldAt(g, l) <= g.locked;
      }
    }
    forall a | a in h.locked ensures exists l: nat :: a in HeldAt(h, l) {
      if a !in HeldAt(h, k) {
        var l: nat :| a in HeldAt(g, l);
        assert a in HeldAt(h, l);
      }
    }
    forall l: nat, n: nat | l != n ensures HeldAt(h, l) !! HeldAt(h, n) {
      if l == k {
        assert HeldAt(g, n) <= g.locked && HeldAt(g, n) !! HeldAt(g, k);
      } else if n == k {
        assert HeldAt(g, l) <= g.locked && HeldAt(g, l) !! HeldAt(g, k);
      }
    }
  }

  lemma {:induction false} MetasHeld(g: Global, passed: seq<Passed>)
    ensures HeldBy(Metas(g, passed)) == Loaded(g, passed)
  {
    if passed != [] {
      MetasHeld(g, Init(passed));
      HeldAppend(Metas(g, Init(passed)), MetaOf(g, Last(passed)));
      AddressesAppend(passed);
    }
  }

  lemma HeldAppend(list: seq<Meta>, m: Meta)
    ensures HeldBy(list + [m]) == HeldBy(list) + if m.existed && m.key.Pda? then {m.key.address} else {}
  {
  }

  lemma AddressesAppend(passed: seq<Passed>)
    requires passed != []
    ensures Addresses(passed) ==
            Addresses(Init(passed)) + if Last(passed).key.Pda? then {Last(passed).key.address} else {}
  {
    assert passed == Init(passed) + [Last(passed)];
  }

  /** An account list that passed the check names the held accounts; without cancelling, every existing
      account that is passed is held. */
  lemma MatchedHeld(g: Global, list: seq<Meta>, passed: seq<Passed>, cancelling: bool)
    requires AllMatch(g, list, passed, cancelling)
    ensures HeldBy(list) <= Addresses(passed)
    ensures !cancelling ==> Loaded(g, passed) <= HeldBy(list)
  {
    forall a | a in HeldBy(list) ensures a in Addresses(passed) {
      var i :| 0 <= i < |list| && list[i].existed && list[i].key == Pda(a);
      assert Matches(g, list[i], passed[i], cancelling);
    }
    if !cancelling {
      forall a | a in Loaded(g, passed) ensures a in HeldBy(list) {
        var i :| 0 <= i < |passed| && passed[i].key == Pda(a);
        assert Matches(g, list[i], passed[i], cancelling);
        assert list[i] in list;
      }
    }
  }

  lemma RestoredState(g: Global, k: nat, operator: nat, now: nat, passed: seq<Passed>, cancelling: bool)
    requires Restore(g, k, operator, now, passed, cancelling).Some?
    ensures
      var st := Restore(g, k, operator, now, passed, cancelling).value;
      && k in g.slots && g.slots[k].InFlight? && AllMatch(g, g.slots[k].state.blocked, passed, cancelling)
      && st == g.slots[k].state.(operator := st.operator, slot := st.slot)
      && st.operator == operator && (operator == g.slots[k].state.operator ==> st == g.slots[k].state)
      && (operator != g.slots[k].state.operator ==>
          st.slot == now && now - g.slots[k].state.slot > OPERATOR_PRIORITY_SLOTS)
  {
  }

  lemma BeginLocks(g: Global, k: nat, op: Operator, now: nat, trx: Trx, passed: seq<Passed>, gas: nat, valid: bool)
    requires LocksOk(g) && Begin(g, k, op, now, trx, passed, gas, valid).Some?
    ensures LocksOk(Begin(g, k, op, now, trx, passed, gas, valid).value)
  {
    var h := Begin(g, k, op, now, trx, passed, gas, valid).value;
    PayMoves(g.world, trx.caller, op.account, SaturatingMul(gas, trx.gasPrice));
    MetasHeld(g, passed);
    assert HeldAt(g, k) == {} && HeldAt(h, k) == Loaded(g, passed);
    Exchange(g, h, k);
  }

  lemma CancelLocks(g: Global, k: nat, operator: nat, now: nat, passed: seq<Passed>, hash: nat)
    requires LocksOk(g) && Cancel(g, k, operator, now, passed, hash).Some?
    ensures LocksOk(Cancel(g, k, operator, now, passed, hash).value)
  {
    var h := Cancel(g, k, operator, now, passed, hash).value;
    RestoredState(g, k, operator, now, passed, true);
    var held := HeldBy(g.slots[k].state.blocked);
    assert HeldAt(g, k) == held && HeldAt(g, k) <= g.locked;
    assert held * g.world.ether.Keys == held;
    Exchange(g, h, k);
  }

  /** Adding accounts extends list and locks by the same free accounts. */
  lemma {:induction false} ExtendedHeld(g: Global, list: seq<Meta>, passed: seq<Passed>)
    requires Extended(g, list, passed).Some?
    ensures
      var (l, locked) := Extended(g, list, passed).value;
      && g.locked <= locked && (locked - g.locked) <= g.world.ether.Keys
      && HeldBy(l) == HeldBy(list) + (locked - g.locked)
    decreases |passed|
  {
    if passed != [] {
      ExtendedHeld(g, list, Init(passed));
      var (l, locked) := Extended(g, list, Init(passed)).value;
      HeldAppend(l, MetaOf(g, Last(passed)));
    }
  }

  lemma BlockAddLocks(g: Global, k: nat, operator: nat, passed: seq<Passed>)
    requires LocksOk(g) && BlockAdd(g, k, operator, passed).Some?
    ensures LocksOk(BlockAdd(g, k, operator, passed).value)
  {
    var h := BlockAdd(g, k, operator, passed).value;
    var list := g.slots[k].state.blocked;
    ExtendedHeld(g, list, passed);
    assert HeldAt(g, k) == HeldBy(list) && HeldAt(g, k) <= g.locked;
    assert h.locked == (g.locked - HeldAt(g, k)) + HeldAt(h, k);
    Exchange(g, h, k);
  }

  lemma ExecuteLocks(g: Global, op: Operator, trx: Trx, passed: seq<Passed>, gas: nat, log: seq<Action>, valid: bool)
    requires WorldOk(g.world) && LocksOk(g) && Execute(g, op, trx, passed, gas, log, valid).Some?
    ensures LocksOk(Execute(g, op, trx, passed, gas, log, valid).value)
  {
    var h := Execute(g, op, trx, passed, gas, log, valid).value;
    AppliedConfined(g.world, Addresses(passed), Some(log));
    PayMoves(ApplyResults(g.world, Addresses(passed), Some(log)).value.0, trx.caller, op.account,
             SaturatingMul(gas, trx.gasPrice));
    Unheld(g, h);
  }

  /** Steps that change no holding and no lock. */
  lemma Unheld(g: Global, h: Global)
    requires LocksOk(g) && h.locked == g.locked && g.world.ether.Keys <= h.world.ether.Keys
    requires forall k: nat :: HeldAt(h, k) == HeldAt(g, k)
    ensures LocksOk(h)
  {
    assert forall k: nat :: HeldAt(h, k) <= h.locked;
    forall a | a in h.locked ensures exists k: nat :: a in HeldAt(h, k) {
      var k: nat :| a in HeldAt(g, k);
      assert a in HeldAt(h, k);
    }
  }

  lemma WorldStays(g: Global, s: Step)
    requires WorldOk(g.world)
    ensures WorldOk(Next(g, s).world) && g.world.ether.Keys <= Next(g, s).world.ether.Keys
  {
    if Attempted(g, s).Some? {
      match s
      case BeginStep(_, op, _, trx, _, gas, _) =>
        PayMoves(g.world, trx.caller, op.account, SaturatingMul(gas, trx.gasPrice));
      case ContinueStep(k, op, now, passed, gas, result) =>
        ContinuedWorld(g, k, op, now, passed, gas, result);
      case CancelStep(k, operator, now, passed, hash) =>
      case ExecuteStep(op, trx, passed, gas, log, _) =>
        AppliedConfined(g.world, Addresses(passed), Some(log));
        PayMoves(ApplyResults(g.world, Addresses(passed), Some(log)).value.0, trx.caller, op.account,
                 SaturatingMul(gas, trx.gasPrice));
      case AccountCreateStep(a) => FreshOk();
      case DepositStep(a, value) => FreshOk();
      case _ =>
    }
  }

  lemma FreshOk()
    ensures AccountOk(FRESH)
  {
  }

  /** The world after a continued iteration: confined to the passed accounts, then paid for. */
  lemma ContinuedWorld(g: Global, k: nat, op: Operator, now: nat, passed: seq<Passed>, gas: nat,
                       result: Option<seq<Action>>)
    requires WorldOk(g.world) && Continue(g, k, op, now, passed, gas, result).Some?
    ensures
      var h := Continue(g, k, op, now, passed, gas, result).value;
      var w := ApplyResults(g.world, Addresses(passed), result).value.0;
      && k in g.slots && g.slots[k].InFlight? && AllMatch(g, g.slots[k].state.blocked, passed, false)
      && WorldOk(w) && Confined(g.world, w, Addresses(passed))
      && WorldOk(h.world) && OnlyBalances(w, h.world)
  {
    RestoredState(g, k, op.key, now, passed, false);
    AppliedConfined(g.world, Addresses(passed), result);
    var w := ApplyResults(g.world, Addresses(passed), result).value.0;
    PayMoves(w, g.slots[k].state.caller, op.account, SaturatingMul(gas, g.slots[k].state.gasPrice));
  }

  lemma ContinueLocks(g: Global, k: nat, op: Operator, now: nat, passed: seq<Passed>, gas: nat,
                      result: Option<seq<Action>>)
    requires WorldOk(g.world) && LocksOk(g) && Continue(g, k, op, now, passed, gas, result).Some?
    ensures LocksOk(Continue(g, k, op, now, passed, gas, result).value)
  {
    var h := Continue(g, k, op, now, passed, gas, result).value;
    ContinuedWorld(g, k, op, now, passed, gas, result);
    ContinuedHolding(g, k, op, now, passed, gas, result);
    KeepOrRelease(g, h, k, passed);
  }

  lemma KeepOrRelease(g: Global, h: Global, k: nat, passed: seq<Passed>)
    requires LocksOk(g) && g.world.ether.Keys <= h.world.ether.Keys && k in g.slots && g.slots[k].InFlight?
    requires AllMatch(g, g.slots[k].state.blocked, passed, false)
    requires forall l: nat :: l != k ==> HeldAt(h, l) == HeldAt(g, l)
    requires || (HeldAt(h, k) == HeldAt(g, k) && h.locked == g.locked)
             || (HeldAt(h, k) == {} && h.locked == g.locked - Addresses(passed))
    ensures LocksOk(h)
  {
    var held := HeldBy(g.slots[k].state.blocked);
    MatchedHeld(g, g.slots[k].state.blocked, passed, false);
    assert HeldAt(g, k) == held && HeldAt(g, k) <= g.locked;
    assert g.locked - Addresses(passed) == g.locked - held;
    Exchange(g, h, k);
  }

  lemma ContinuedHolding(g: Global, k: nat, op: Operator, now: nat, passed: seq<Passed>, gas: nat,
                         result: Option<seq<Action>>)
    requires Continue(g, k, op, now, passed, gas, result).Some?
    ensures
      var h := Continue(g, k, op, now, passed, gas, result).value;
      && k in g.slots && (forall l: nat :: l != k ==> HeldAt(h, l) == HeldAt(g, l))
      && if h.slots[k].InFlight? then
        HeldAt(h, k) == HeldAt(g, k) && h.locked == g.locked
      else
        HeldAt(h, k) == {} && h.locked == g.locked - Addresses(passed)
  {
    RestoredState(g, k, op.key, now, passed, false);
  }

  /** Lock safety: every instruction, successful or not, keeps locks and holdings in step. */
  lemma LocksStay(g: Global, s: Step)
    requires WorldOk(g.world) && LocksOk(g)
    ensures WorldOk(Next(g, s).world) && LocksOk(Next(g, s))
  {
    WorldStays(g, s);
    if Attempted(g, s).Some? {
      match s
      case BeginStep(k, op, now, trx, passed, gas, valid) => BeginLocks(g, k, op, now, trx, passed, gas, valid);
      case ContinueStep(k, op, now, passed, gas, result) => ContinueLocks(g, k, op, now, passed, gas, result);
      case CancelStep(k, operator, now, passed, hash) => CancelLocks(g, k, operator, now, passed, hash);
      case BlockAddStep(k, operator, passed) => BlockAddLocks(g, k, operator, passed);
      case ExecuteStep(op, trx, passed, gas, log, valid) => ExecuteLocks(g, op, trx, passed, gas, log, valid);
      case _ => Unheld(g, Next(g, s));
    }
  }

  function Played(g: Global, steps: seq<Step>): Global
    decreases |steps|
  {
    if steps == [] then g else Next(Played(g, Init(steps)), Last(steps))
  }

  /** Over every interleaving: an account is locked exactly when some transaction in flight lists it as
      existing, and no two list the same. */
  lemma {:induction false} LockSafety(g: Global, steps: seq<Step>)
    requires WorldOk(g.world) && LocksOk(g)
    ensures WorldOk(Played(g, steps).world) && LocksOk(Played(g, steps))
    decreases |steps|
  {
    if steps != [] {
      LockSafety(g, Init(steps));
      LocksStay(Played(g, Init(steps)), Last(steps));
    }
  }

  // ---- Lists ---------------------------------------------------------------------------------------

  /** An account that is listed twice is listed alike. */
  predicate ListOk(list: seq<Meta>) {
    forall i, j :: 0 <= i < j < |list| && list[i].key == list[j].key ==> list[i].existed == list[j].existed
  }

  predicate ListsOk(g: Global) {
    forall k :: k in g.slots && g.slots[k].InFlight? ==> ListOk(g.slots[k].state.blocked)
  }

  lemma {:induction false} MetasAt(g: Global, passed: seq<Passed>, i: nat)
    requires i < |passed|
    ensures Metas(g, passed)[i] == MetaOf(g, passed[i])
    decreases |passed|
  {
    if i < |passed| - 1 {
      MetasAt(g, Init(passed), i);
    }
  }

  lemma MetasOk(g: Global, passed: seq<Passed>)
    ensures ListOk(Metas(g, passed))
  {
    forall i, j | 0 <= i < j < |passed| && Metas(g, passed)[i].key == Metas(g, passed)[j].key
      ensures Metas(g, passed)[i].existed == Metas(g, passed)[j].existed
    {
      MetasAt(g, passed, i);
      MetasAt(g, passed, j);
    }
  }

  lemma {:induction false} ExtendedOk(g: Global, list: seq<Meta>, passed: seq<Passed>)
    requires ListOk(list) && Extended(g, list, passed).Some?
    ensures ListOk(Extended(g, list, passed).value.0)
    decreases |passed|
  {
    if passed != [] {
      ExtendedOk(g, list, Init(passed));
      var l := Extended(g, list, Init(passed)).value.0;
      assert !Has(l, Last(passed).key) ==> forall i :: 0 <= i < |l| ==> l[i] in l && l[i].key != Last(passed).key;
    }
  }

  lemma ListsStay(g: Global, s: Step)
    requires ListsOk(g)
    ensures ListsOk(Next(g, s))
  {
    if Attempted(g, s).Some? {
      match s
      case BeginStep(_, _, _, _, passed, _, _) => MetasOk(g, passed);
      case ContinueStep(k, op, now, passed, _, _) => RestoredState(g, k, op.key, now, passed, false);
      case BlockAddStep(k, _, passed) => ExtendedOk(g, g.slots[k].state.blocked, passed);
      case _ =>
    }
  }

  lemma {:induction false} ListsAlike(g: Global, steps: seq<Step>)
    requires ListsOk(g)
    ensures ListsOk(Played(g, steps))
    decreases |steps|
  {
    if steps != [] {
      ListsAlike(g, Init(steps));
      ListsStay(Played(g, Init(steps)), Last(steps));
    }
  }

  /** Over every interleaving: once an account that a transaction lists as nonexistent was created by
      someone else, the transaction can be cancelled but never continued, and cancelling leaves that
      account's lock alone. */
  lemma CreatedOutside(start: Global, steps: seq<Step>, k: nat, i: nat, a: Address)
    requires ListsOk(start)
    requires
      var g := Played(start, steps);
      && k in g.slots && g.slots[k].InFlight? && i < |g.slots[k].state.blocked| && a in g.world.ether
      && g.slots[k].state.blocked[i].key == Pda(a) && !g.slots[k].state.blocked[i].existed
    ensures forall op, now: nat, passed, gas: nat, result ::
      Continue(Played(start, steps), k, op, now, passed, gas, result) == None
    ensures forall operator: nat, now: nat, passed, hash: nat ::
      var g := Played(start, steps);
      Cancel(g, k, operator, now, passed, hash).Some? && a in g.locked ==>
        a in Cancel(g, k, operator, now, passed, hash).value.locked
  {
    var g := Played(start, steps);
    ListsAlike(start, steps);
    NotHeld(g.slots[k].state.blocked, i, a);
    forall op, now: nat, passed, gas: nat, result ensures Continue(g, k, op, now, passed, gas, result) == None {
      if Continue(g, k, op, now, passed, gas, result).Some? {
        RestoredState(g, k, op.key, now, passed, false);
        assert false;
      }
    }
    forall operator: nat, now: nat, passed, hash: nat
      | Cancel(g, k, operator, now, passed, hash).Some? && a in g.locked
      ensures a in Cancel(g, k, operator, now, passed, hash).value.locked
    {
      RestoredState(g, k, operator, now, passed, true);
    }
  }

  lemma NotHeld(list: seq<Meta>, i: nat, a: Address)
    requires ListOk(list) && i < |list| && list[i].key == Pda(a) && !list[i].existed
    ensures a !in HeldBy(list)
  {
  }
}
