/** The gas every transaction used and what its caller paid for it, from its first iteration to its last. */
module GasLedger {
  import opened Opcodes
  import opened WordArithmetic
  import opened StorageLayout
  import opened Accounts
  import opened Journal
  import opened Apply
  import opened Protocol
  import opened ProtocolLaws

  // ---- One payment -----------------------------------------------------------------------------

  /** What a payment of gas has to do: nothing when the caller is its own operator, else the price of the
      gas leaves the caller and reaches the operator. */
  predicate Settled(p: Payment) {
    var value := if p.operator == p.caller then 0 else SaturatingMul(p.gas, p.price);
    && p.callerAfter == p.callerBefore - value
    && (p.operator != p.caller ==> p.operatorAfter == WrappingAdd(p.operatorBefore, value))
  }

  lemma PaySettles(w: World, id: nat, caller: Address, operator: Address, gas: nat, price: Word, limit: Word)
    requires Pay(w, caller, operator, SaturatingMul(gas, price)).Some?
    ensures Settled(PaymentOf(w, Pay(w, caller, operator, SaturatingMul(gas, price)).value, id, caller, operator, gas,
                              price, limit))
  {
    PayMoves(w, caller, operator, SaturatingMul(gas, price));
  }

  /** The payment recorded when a transaction begins is what its two balances did. */
  lemma BeginPays(g: Global, k: nat, op: Operator, now: nat, trx: Trx, passed: seq<Passed>, gas: nat, valid: bool)
    requires Begin(g, k, op, now, trx, passed, gas, valid).Some?
    ensures
      var h := Begin(g, k, op, now, trx, passed, gas, valid).value;
      && h.payments == g.payments + [PaymentOf(g.world, h.world, |g.payments|, trx.caller, op.account, gas,
                                               trx.gasPrice, trx.gasLimit)]
      && Settled(Last(h.payments))
      && k in h.slots && h.slots[k].InFlight?
      && h.slots[k].state.gasUsed == SaturatingAdd(0, gas) <= trx.gasLimit
  {
    PaySettles(g.world, |g.payments|, trx.caller, op.account, gas, trx.gasPrice, trx.gasLimit);
  }

  /** The same for every further iteration, whatever it applies or postpones and whether or not it is the
      last: from the accounts as applied to the accounts as left. */
  lemma ContinuePays(g: Global, k: nat, op: Operator, now: nat, passed: seq<Passed>, gas: nat,
                     result: Option<seq<Action>>)
    requires Continue(g, k, op, now, passed, gas, result).Some?
    ensures
      var h := Continue(g, k, op, now, passed, gas, result).value;
      var w := ApplyResults(g.world, Addresses(passed), result).value.0;
      && k in g.slots && g.slots[k].InFlight?
      && var st := g.slots[k].state;
      && h.payments == g.payments + [PaymentOf(w, h.world, st.id, st.caller, op.account, gas, st.gasPrice, st.gasLimit)]
      && Settled(Last(h.payments))
      && SaturatingAdd(st.gasUsed, gas) <= st.gasLimit
      && (h.slots[k].InFlight? ==> h.slots[k].state.gasUsed == SaturatingAdd(st.gasUsed, gas))
  {
    RestoredState(g, k, op.key, now, passed, false);
    var st := g.slots[k].state;
    var w := ApplyResults(g.world, Addresses(passed), result).value.0;
    PaySettles(w, st.id, st.caller, op.account, gas, st.gasPrice, st.gasLimit);
  }

  lemma ExecutePays(g: Global, op: Operator, trx: Trx, passed: seq<Passed>, gas: nat, log: seq<Action>, valid: bool)
    requires Execute(g, op, trx, passed, gas, log, valid).Some?
    ensures
      var h := Execute(g, op, trx, passed, gas, log, valid).value;
      var w := ApplyResults(g.world, Addresses(passed), Some(log)).value.0;
      && h.payments == g.payments + [PaymentOf(w, h.world, |g.payments|, trx.caller, op.account, gas, trx.gasPrice,
                                               trx.gasLimit)]
      && Settled(Last(h.payments)) && gas <= trx.gasLimit
  {
    var w := ApplyResults(g.world, Addresses(passed), Some(log)).value.0;
    PaySettles(w, |g.payments|, trx.caller, op.account, gas, trx.gasPrice, trx.gasLimit);
  }

  // ---- All payments of a transaction -----------------------------------------------------------

  function GasFor(payments: seq<Payment>, id: nat): nat {
    if payments == [] then 0
    else GasFor(Init(payments), id) + if Last(payments).trx == id then Last(payments).gas else 0
  }

  /** The gas charged by operators other than the caller. */
  function GasToOthers(payments: seq<Payment>, id: nat): nat {
    if payments == [] then 0
    else GasToOthers(Init(payments), id) + if ToOther(Last(payments), id) then Last(payments).gas else 0
  }

  predicate ToOther(p: Payment, id: nat) {
    p.trx == id && p.operator != p.caller
  }

  /** What left the caller's balance over all payments of the transaction. */
  function Paid(payments: seq<Payment>, id: nat): int {
    if payments == [] then 0
    else
      Paid(Init(payments), id)
      + if Last(payments).trx == id then Last(payments).callerBefore - Last(payments).callerAfter else 0
  }

  /** What reached the balances of other operators. */
  function Received(payments: seq<Payment>, id: nat): int {
    if payments == [] then 0
    else
      Received(Init(payments), id)
      + if ToOther(Last(payments), id) then Last(payments).operatorAfter - Last(payments).operatorBefore else 0
  }

  function Capped(n: nat): Word {
    if n < WORD then n else WORD - 1
  }

  /** Payments of one transaction share caller and terms, and its gas stays within its limit. */
  predicate PaymentsOk(payments: seq<Payment>) {
    && (forall i :: 0 <= i < |payments| ==> Settled(payments[i]) && payments[i].trx <= i)
    && (forall i :: 0 <= i < |payments| ==> Capped(GasFor(payments, payments[i].trx)) <= payments[i].limit)
    && (forall i, j :: 0 <= i < j < |payments| && payments[i].trx == payments[j].trx ==>
       SameTerms(payments[i], payments[j]))
  }

  predicate SameTerms(p: Payment, q: Payment) {
    q.caller == p.caller && q.price == p.price && q.limit == p.limit
  }

  /** The payments so far are those of this State. */
  predicate StateOk(payments: seq<Payment>, st: State) {
    && st.id < |payments| && payments[st.id].trx == st.id && st.gasUsed == Capped(GasFor(payments, st.id))
    && forall i :: 0 <= i < |payments| && payments[i].trx == st.id ==>
      payments[i].caller == st.caller && payments[i].price == st.gasPrice && payments[i].limit == st.gasLimit
  }

  ghost predicate LedgerOk(g: Global) {
    && PaymentsOk(g.payments)
    && (forall k :: k in g.slots && g.slots[k].InFlight? ==> StateOk(g.payments, g.slots[k].state))
    && (forall k, l :: k in g.slots && l in g.slots && g.slots[k].InFlight? && g.slots[l].InFlight? && k != l ==>
        g.slots[k].state.id != g.slots[l].state.id)
  }

  lemma OneMore(payments: seq<Payment>, p: Payment, id: nat)
    ensures GasFor(payments + [p], id) == GasFor(payments, id) + if p.trx == id then p.gas else 0
  {
    assert Init(payments + [p]) == payments;
  }

  lemma {:induction false} NoneYet(payments: seq<Payment>, id: nat)
    requires forall i :: 0 <= i < |payments| ==> payments[i].trx != id
    ensures GasFor(payments, id) == 0
  {
    if payments != [] {
      NoneYet(Init(payments), id);
    }
  }

  /** A payment of a new transaction. */
  lemma AppendNew(payments: seq<Payment>, p: Payment)
    requires PaymentsOk(payments) && Settled(p) && p.trx == |payments| && Capped(p.gas) <= p.limit
    ensures PaymentsOk(payments + [p]) && GasFor(payments + [p], p.trx) == p.gas
  {
    var all := payments + [p];
    NoneYet(payments, p.trx);
    OneMore(payments, p, p.trx);
    forall i | 0 <= i < |all| ensures Capped(GasFor(all, all[i].trx)) <= all[i].limit {
      OneMore(payments, p, all[i].trx);
    }
  }

  /** A further payment of a transaction in flight. */
  lemma AppendMore(payments: seq<Payment>, p: Payment, st: State)
    requires PaymentsOk(payments) && StateOk(payments, st) && Settled(p)
    requires p.trx == st.id && p.caller == st.caller && p.price == st.gasPrice && p.limit == st.gasLimit
    requires SaturatingAdd(st.gasUsed, p.gas) <= st.gasLimit
    ensures PaymentsOk(payments + [p])
    ensures StateOk(payments + [p], st.(gasUsed := SaturatingAdd(st.gasUsed, p.gas)))
  {
    var all := payments + [p];
    OneMore(payments, p, st.id);
    assert Capped(GasFor(all, st.id)) == SaturatingAdd(st.gasUsed, p.gas);
    forall i | 0 <= i < |all| ensures Capped(GasFor(all, all[i].trx)) <= all[i].limit {
      OneMore(payments, p, all[i].trx);
    }
  }

  /** Payments of other transactions leave a State's ledger alone. */
  lemma OthersStay(payments: seq<Payment>, p: Payment, st: State)
    requires StateOk(payments, st) && p.trx != st.id
    ensures StateOk(payments + [p], st)
  {
    OneMore(payments, p, st.id);
  }

  /** One slot changes and one payment is added. */
  lemma ExchangeLedger(g: Global, h: Global, k: nat, p: Payment)
    requires LedgerOk(g) && h.payments == g.payments + [p] && PaymentsOk(h.payments)
    requires forall l :: l != k ==> (l in h.slots <==> l in g.slots) && (l in g.slots ==> h.slots[l] == g.slots[l])
    requires k in h.slots && h.slots[k].InFlight? ==>
      StateOk(h.payments, h.slots[k].state) && h.slots[k].state.id == p.trx
    requires forall l :: l in g.slots && g.slots[l].InFlight? && l != k ==> g.slots[l].state.id != p.trx
    ensures LedgerOk(h)
  {
    forall l | l in h.slots && h.slots[l].InFlight? ensures StateOk(h.payments, h.slots[l].state) {
      if l != k {
        OthersStay(g.payments, p, g.slots[l].state);
      }
    }
  }

  lemma BeginLedger(g: Global, k: nat, op: Operator, now: nat, trx: Trx, passed: seq<Passed>, gas: nat, valid: bool)
    requires LedgerOk(g) && Begin(g, k, op, now, trx, passed, gas, valid).Some?
    ensures LedgerOk(Begin(g, k, op, now, trx, passed, gas, valid).value)
  {
    var h := Begin(g, k, op, now, trx, passed, gas, valid).value;
    BeginPays(g, k, op, now, trx, passed, gas, valid);
    var p := Last(h.payments);
    AppendNew(g.payments, p);
    ExchangeLedger(g, h, k, p);
  }

  lemma ContinueLedger(g: Global, k: nat, op: Operator, now: nat, passed: seq<Passed>, gas: nat,
                       result: Option<seq<Action>>)
    requires LedgerOk(g) && Continue(g, k, op, now, passed, gas, result).Some?
    ensures LedgerOk(Continue(g, k, op, now, passed, gas, result).value)
  {
    var h := Continue(g, k, op, now, passed, gas, result).value;
    ContinuePays(g, k, op, now, passed, gas, result);
    ContinuedSlot(g, k, op, now, passed, gas, result);
    var p, st := Last(h.payments), g.slots[k].state;
    AppendMore(g.payments, p, st);
    if h.slots[k].InFlight? {
      OperatorIsFree(h.payments, st.(gasUsed := SaturatingAdd(st.gasUsed, gas)), h.slots[k].state);
    }
    ExchangeLedger(g, h, k, p);
  }

  lemma OperatorIsFree(payments: seq<Payment>, st: State, t: State)
    requires StateOk(payments, st) && t == st.(operator := t.operator, slot := t.slot)
    ensures StateOk(payments, t)
  {
  }

  lemma ContinuedSlot(g: Global, k: nat, op: Operator, now: nat, passed: seq<Passed>, gas: nat,
                      result: Option<seq<Action>>)
    requires Continue(g, k, op, now, passed, gas, result).Some?
    ensures
      var h := Continue(g, k, op, now, passed, gas, result).value;
      && k in g.slots && g.slots[k].InFlight? && k in h.slots && h.slots == g.slots[k := h.slots[k]]
      && (h.slots[k].InFlight? ==>
          h.slots[k].state == g.slots[k].state.(gasUsed := h.slots[k].state.gasUsed,
                                                operator := h.slots[k].state.operator, slot := h.slots[k].state.slot))
  {
    RestoredState(g, k, op.key, now, passed, false);
  }

  lemma ExecuteLedger(g: Global, op: Operator, trx: Trx, passed: seq<Passed>, gas: nat, log: seq<Action>, valid: bool)
    requires LedgerOk(g) && Execute(g, op, trx, passed, gas, log, valid).Some?
    ensures LedgerOk(Execute(g, op, trx, passed, gas, log, valid).value)
  {
    var h := Execute(g, op, trx, passed, gas, log, valid).value;
    ExecutePays(g, op, trx, passed, gas, log, valid);
    var p := Last(h.payments);
    AppendNew(g.payments, p);
    forall l | l in h.slots && h.slots[l].InFlight? ensures StateOk(h.payments, h.slots[l].state) {
      OthersStay(g.payments, p, g.slots[l].state);
    }
  }

  /** Steps without a payment that begin nothing. */
  lemma SlotsOnly(g: Global, h: Global)
    requires LedgerOk(g) && h.payments == g.payments
    requires forall l :: l in h.slots && h.slots[l].InFlight? ==>
      l in g.slots && g.slots[l].InFlight? && h.slots[l].state == g.slots[l].state.(blocked := h.slots[l].state.blocked)
    ensures LedgerOk(h)
  {
    forall l | l in h.slots && h.slots[l].InFlight? ensures StateOk(h.payments, h.slots[l].state) {
      assert StateOk(g.payments, g.slots[l].state);
    }
  }

  lemma LedgerStays(g: Global, s: Step)
    requires LedgerOk(g)
    ensures LedgerOk(Next(g, s))
  {
    if Attempted(g, s).Some? {
      match s
      case BeginStep(k, op, now, trx, passed, gas, valid) => BeginLedger(g, k, op, now, trx, passed, gas, valid);
      case ContinueStep(k, op, now, passed, gas, result) => ContinueLedger(g, k, op, now, passed, gas, result);
      case ExecuteStep(op, trx, passed, gas, log, valid) => ExecuteLedger(g, op, trx, passed, gas, log, valid);
      case _ => QuietLedger(g, s);
    }
  }

  lemma QuietLedger(g: Global, s: Step)
    requires LedgerOk(g) && !s.BeginStep? && !s.ContinueStep? && !s.ExecuteStep?
    ensures LedgerOk(Next(g, s))
  {
    SlotsOnly(g, Next(g, s));
  }

  /** Gas ledger: over every interleaving, every payment is settled in the balances, the gas of every
      transaction stays within its limit, and a transaction in flight has used the sum of its charges. */
  lemma {:induction false} GasLedger(g: Global, steps: seq<Step>)
    requires LedgerOk(g)
    ensures LedgerOk(Played(g, steps))
    decreases |steps|
  {
    if steps != [] {
      GasLedger(g, Init(steps));
      LedgerStays(Played(g, Init(steps)), Last(steps));
    }
  }

  // ---- What a transaction paid -----------------------------------------------------------------

  /** No product of gas and price saturated, for this transaction. */
  predicate Unsaturated(payments: seq<Payment>, id: nat) {
    forall i :: 0 <= i < |payments| && payments[i].trx == id ==> payments[i].gas * payments[i].price < WORD
  }

  /** No operator's balance wrapped. */
  predicate Unwrapped(payments: seq<Payment>, id: nat) {
    forall i :: 0 <= i < |payments| && payments[i].trx == id ==>
      payments[i].operatorBefore + payments[i].gas * payments[i].price < WORD
  }

  lemma {:induction false} PaidSums(payments: seq<Payment>, id: nat, price: Word)
    requires forall i :: 0 <= i < |payments| ==> Settled(payments[i])
    requires forall i :: 0 <= i < |payments| && payments[i].trx == id ==> payments[i].price == price
    requires Unsaturated(payments, id)
    ensures Paid(payments, id) == GasToOthers(payments, id) * price
    ensures Unwrapped(payments, id) ==> Received(payments, id) == GasToOthers(payments, id) * price
    decreases |payments|
  {
    if payments != [] {
      var front, last := payments[..|payments| - 1], payments[|payments| - 1];
      assert forall i :: 0 <= i < |front| ==> front[i] == payments[i];
      PaidSums(front, id, price);
      if ToOther(last, id) {
        SumTimes(GasToOthers(front, id), last.gas, price);
      }
    }
  }

  lemma SumTimes(a: int, b: int, c: int)
    ensures (a + b) * c == a * c + b * c
  {
  }

  /** For every transaction that ever paid, finished, cancelled or in flight, over every interleaving:
      what left its caller's balance is the price times the gas that operators other than the caller
      charged, the last iteration included, and the same reached those operators. Unless a product
      saturated or an operator's balance wrapped. */
  lemma CallersPayForGas(g: Global, steps: seq<Step>, i: nat)
    requires LedgerOk(g) && i < |Played(g, steps).payments|
    requires Unsaturated(Played(g, steps).payments, Played(g, steps).payments[i].trx)
    ensures
      var payments := Played(g, steps).payments;
      var id, price := payments[i].trx, payments[i].price;
      && Paid(payments, id) == GasToOthers(payments, id) * price
      && (Unwrapped(payments, id) ==> Received(payments, id) == GasToOthers(payments, id) * price)
      && Capped(GasFor(payments, id)) <= payments[i].limit
  {
    GasLedger(g, steps);
    var payments := Played(g, steps).payments;
    forall j | 0 <= j < |payments| && payments[j].trx == payments[i].trx
      ensures payments[j].price == payments[i].price
    {
      if i < j {
        assert SameTerms(payments[i], payments[j]);
      } else if j < i {
        assert SameTerms(payments[j], payments[i]);
      }
    }
    PaidSums(payments, payments[i].trx, payments[i].price);
  }

  /** When the caller ran no iteration itself, all gas of the transaction was charged by others. */
  lemma {:induction false} AllToOthers(payments: seq<Payment>, id: nat)
    requires forall i :: 0 <= i < |payments| && payments[i].trx == id ==> payments[i].operator != payments[i].caller
    ensures GasToOthers(payments, id) == GasFor(payments, id)
    decreases |payments|
  {
    if payments != [] {
      var front := payments[..|payments| - 1];
      assert forall i :: 0 <= i < |front| ==> front[i] == payments[i];
      AllToOthers(front, id);
    }
  }

  /** So a caller that ran no iteration of its transaction itself paid the price times all gas used. */
  lemma CallerPaysForAllGas(g: Global, steps: seq<Step>, i: nat)
    requires LedgerOk(g) && i < |Played(g, steps).payments|
    requires Unsaturated(Played(g, steps).payments, Played(g, steps).payments[i].trx)
    requires
      var payments := Played(g, steps).payments;
      forall j :: 0 <= j < |payments| && payments[j].trx == payments[i].trx ==>
        payments[j].operator != payments[j].caller
    ensures
      var payments := Played(g, steps).payments;
      Paid(payments, payments[i].trx) == GasFor(payments, payments[i].trx) * payments[i].price
  {
    CallersPayForGas(g, steps, i);
    AllToOthers(Played(g, steps).payments, Played(g, steps).payments[i].trx);
  }

  /** A payment that went through was not saturated, unless the payer had the largest balance there is. */
  lemma PaymentIsExact(w: World, caller: Address, operator: Address, gas: nat, price: Word)
    requires Pay(w, caller, operator, SaturatingMul(gas, price)).Some? && Balance(w, caller) < WORD - 1
    ensures SaturatingMul(gas, price) == gas * price
  {
  }
}
