/** Who may act on a Holder, State or Finalized account, and when: its owner for good, an operator by
    priority, and the exact conditions under which the instructions succeed. */
module InstructionLaws {
  import opened Opcodes
  import opened WordArithmetic
  import opened StorageLayout
  import opened Accounts
  import opened Journal
  import opened Apply
  import opened Protocol
  import opened ProtocolLaws
  import opened LockIsolation

  // ---- The operator's turn ---------------------------------------------------------------------

  /** A State can be restored by its own operator at any time, and by another one from the slot after the
      priority; only the latter puts a new operator and slot into it. */
  lemma RestoredIff(g: Global, k: nat, operator: nat, now: nat, passed: seq<Passed>, cancelling: bool)
    ensures
      var r := Restore(g, k, operator, now, passed, cancelling);
      if InFlightAt(g, k) && AllMatch(g, g.slots[k].state.blocked, passed, cancelling)
         && (operator == g.slots[k].state.operator || now > g.slots[k].state.slot + OPERATOR_PRIORITY_SLOTS) then
        var st := g.slots[k].state;
        r == Some(if operator == st.operator then st else st.(operator := operator, slot := now))
      else r == None
  {
  }

  /** No instruction changes the slot of a State without changing its operator, and the operator changes
      only to the one who continues it, after the priority has passed. */
  lemma TurnMoves(g: Global, s: Step, k: nat)
    requires InFlightAt(g, k) && InFlightAt(Next(g, s), k)
    ensures
      var st, t := g.slots[k].state, Next(g, s).slots[k].state;
      if t.operator == st.operator then t.slot == st.slot
      else
        && s.ContinueStep? && s.k == k && t.operator == s.op.key && t.slot == s.now
        && s.now > st.slot + OPERATOR_PRIORITY_SLOTS
  {
    if Attempted(g, s).Some? && s.ContinueStep? {
      RestoredState(g, s.k, s.op.key, s.now, s.passed, false);
    }
  }

  /** The transaction at `k` is in flight all along, with the operator it had. */
  ghost predicate SameOperator(g: Global, steps: seq<Step>, k: nat)
    decreases |steps|
  {
    && InFlightAt(Played(g, steps), k)
    && (steps != [] ==>
        && SameOperator(g, Init(steps), k)
        && Played(g, steps).slots[k].state.operator == Played(g, Init(steps)).slots[k].state.operator)
  }

  /** As long as nobody else takes over, the priority runs from the slot it ran from, however often its
      operator continues. */
  lemma {:induction false} PriorityRuns(g: Global, steps: seq<Step>, k: nat)
    requires SameOperator(g, steps, k)
    ensures
      && InFlightAt(g, k) && Played(g, steps).slots[k].state.slot == g.slots[k].state.slot
      && Played(g, steps).slots[k].state.operator == g.slots[k].state.operator
    decreases |steps|
  {
    if steps != [] {
      PriorityRuns(g, Init(steps), k);
      TurnMoves(Played(g, Init(steps)), Last(steps), k);
    }
  }

  /** So after any iterations of the operator that began a transaction, another one with the listed accounts
      is let in exactly when the priority has passed since the beginning. */
  lemma TakeoverIff(g: Global, k: nat, op: Operator, now: nat, trx: Trx, passed: seq<Passed>, gas: nat, valid: bool,
                    steps: seq<Step>, operator: nat, later: nat, again: seq<Passed>, cancelling: bool)
    requires Begin(g, k, op, now, trx, passed, gas, valid).Some? && operator != op.key
    requires SameOperator(Begin(g, k, op, now, trx, passed, gas, valid).value, steps, k)
    ensures
      var n := Played(Begin(g, k, op, now, trx, passed, gas, valid).value, steps);
      && InFlightAt(n, k)
      && (Restore(n, k, operator, later, again, cancelling).Some? <==>
          AllMatch(n, n.slots[k].state.blocked, again, cancelling) && later > now + OPERATOR_PRIORITY_SLOTS)
      && (Restore(n, k, op.key, later, again, cancelling).Some? <==>
          AllMatch(n, n.slots[k].state.blocked, again, cancelling))
  {
    var begun := Begin(g, k, op, now, trx, passed, gas, valid).value;
    PriorityRuns(begun, steps, k);
    RestoredIff(Played(begun, steps), k, operator, later, again, cancelling);
    RestoredIff(Played(begun, steps), k, op.key, later, again, cancelling);
  }

  /** The same after a hand-over: the next one has to wait for the priority of the new operator. */
  lemma HandoverIff(g: Global, k: nat, op: Operator, now: nat, passed: seq<Passed>, gas: nat,
                    result: Option<seq<Action>>, steps: seq<Step>, operator: nat, later: nat, again: seq<Passed>,
                    cancelling: bool)
    requires Continue(g, k, op, now, passed, gas, result).Some? && g.slots[k].state.operator != op.key
    requires SameOperator(Continue(g, k, op, now, passed, gas, result).value, steps, k) && operator != op.key
    ensures
      var n := Played(Continue(g, k, op, now, passed, gas, result).value, steps);
      && InFlightAt(n, k)
      && (Restore(n, k, operator, later, again, cancelling).Some? <==>
          AllMatch(n, n.slots[k].state.blocked, again, cancelling) && later > now + OPERATOR_PRIORITY_SLOTS)
  {
    var h := Continue(g, k, op, now, passed, gas, result).value;
    RestoredState(g, k, op.key, now, passed, false);
    PriorityRuns(h, steps, k);
    RestoredIff(Played(h, steps), k, operator, later, again, cancelling);
  }

  // ---- The owner -------------------------------------------------------------------------------

  /** Whatever becomes of an account, its owner is the same until it is deleted. */
  lemma OwnerStays(g: Global, s: Step, k: nat)
    requires k in g.slots && k in Next(g, s).slots
    ensures SlotOwner(Next(g, s).slots[k]) == SlotOwner(g.slots[k])
  {
    if Attempted(g, s).Some? {
      match s
      case ContinueStep(l, op, now, passed, _, _) => RestoredState(g, l, op.key, now, passed, false);
      case CancelStep(l, operator, now, passed, _) => RestoredState(g, l, operator, now, passed, true);
      case _ =>
    }
  }

  ghost predicate Remains(g: Global, steps: seq<Step>, k: nat)
    decreases |steps|
  {
    k in Played(g, steps).slots && (steps != [] ==> Remains(g, Init(steps), k))
  }

  lemma {:induction false} OwnerStaysOver(g: Global, steps: seq<Step>, k: nat)
    requires Remains(g, steps, k)
    ensures k in g.slots && SlotOwner(Played(g, steps).slots[k]) == SlotOwner(g.slots[k])
    decreases |steps|
  {
    if steps != [] {
      OwnerStaysOver(g, Init(steps), k);
      OwnerStays(Played(g, Init(steps)), Last(steps), k);
    }
  }

  /** A transaction ends by its last iteration or by being cancelled under its own hash, and leaves an
      account that names its hash and belongs to its owner; the nonce it consumed is recorded. */
  lemma EndsAs(g: Global, s: Step, k: nat)
    requires InFlightAt(g, k) && !InFlightAt(Next(g, s), k)
    ensures
      var st, h := g.slots[k].state, Next(g, s);
      && h.slots == g.slots[k := Finalized(st.owner, st.hash)] && h.consumed == g.consumed + [(st.caller, st.nonce)]
      && ((s.ContinueStep? && s.k == k && s.result.Some?) || (s.CancelStep? && s.k == k && s.hash == st.hash))
  {
    if s.ContinueStep? {
      RestoredState(g, s.k, s.op.key, s.now, s.passed, false);
    } else if s.CancelStep? {
      RestoredState(g, s.k, s.operator, s.now, s.passed, true);
    }
  }

  /** A finished account stays as it is until its owner reuses it: to write another transaction into it, to
      delete it, or to begin a transaction with another hash. */
  lemma FinishedStays(g: Global, s: Step, k: nat)
    requires k in g.slots && g.slots[k].Finalized?
    ensures
      var owner, hash := g.slots[k].owner, g.slots[k].hash;
      || (k in Next(g, s).slots && Next(g, s).slots[k] == g.slots[k])
      || (s.HolderWriteStep? && s.k == k && s.operator == owner && k in Next(g, s).slots
          && Next(g, s).slots[k] == Holder(owner, s.hash))
      || (s == HolderDeleteStep(k, owner) && k !in Next(g, s).slots)
      || (s.BeginStep? && s.k == k && s.op.key == owner && s.trx.hash != hash && InFlightAt(Next(g, s), k))
  {
    if Attempted(g, s).Some? {
      match s
      case ContinueStep(l, op, now, passed, _, _) => RestoredState(g, l, op.key, now, passed, false);
      case CancelStep(l, operator, now, passed, _) => RestoredState(g, l, operator, now, passed, true);
      case _ =>
    }
  }

  // ---- The terms of a transaction --------------------------------------------------------------

  /** A State starts with the terms of its transaction and with one entry for every account passed: its key,
      whether it exists and whether it is writable. */
  lemma BegunAs(g: Global, k: nat, op: Operator, now: nat, trx: Trx, passed: seq<Passed>, gas: nat, valid: bool)
    requires Begin(g, k, op, now, trx, passed, gas, valid).Some?
    ensures
      var h := Begin(g, k, op, now, trx, passed, gas, valid).value;
      && InFlightAt(h, k) && !InFlightAt(g, k)
      && var st := h.slots[k].state;
      && st == State(op.key, trx.hash, trx.caller, trx.nonce, trx.gasLimit, trx.gasPrice,
                     if gas < WORD then gas else WORD - 1, op.key, now, st.blocked, |g.payments|)
      && |st.blocked| == |passed|
      && forall i :: 0 <= i < |passed| ==>
        var exists' := passed[i].key.Pda? && passed[i].key.address in g.world.ether;
        st.blocked[i] == Meta(passed[i].key, exists', passed[i].writable)
  {
    forall i | 0 <= i < |passed| ensures Metas(g, passed)[i] == MetaOf(g, passed[i]) {
      MetasAt(g, passed, i);
    }
  }

  /** While it is in flight, nothing changes them but gas used, the operator's turn, and accounts added at
      the end of the list. */
  lemma TermsStay(g: Global, s: Step, k: nat)
    requires InFlightAt(g, k) && InFlightAt(Next(g, s), k)
    ensures
      var st, t := g.slots[k].state, Next(g, s).slots[k].state;
      && t == st.(gasUsed := t.gasUsed, operator := t.operator, slot := t.slot, blocked := t.blocked)
      && st.blocked <= t.blocked && st.gasUsed <= t.gasUsed
  {
    if Attempted(g, s).Some? {
      match s
      case ContinueStep(l, op, now, passed, _, _) => RestoredState(g, l, op.key, now, passed, false);
      case BlockAddStep(l, _, passed) => ExtendedPrefix(g, g.slots[l].state.blocked, passed);
      case _ =>
    }
  }

  /** Gas is used by its own iterations only, and accounts are added by its owner only. */
  lemma ChangedBy(g: Global, s: Step, k: nat)
    requires InFlightAt(g, k) && InFlightAt(Next(g, s), k)
    ensures
      var st, t := g.slots[k].state, Next(g, s).slots[k].state;
      && (t.gasUsed != st.gasUsed ==> s.ContinueStep? && s.k == k)
      && (t.blocked != st.blocked ==> s.BlockAddStep? && s.k == k && s.operator == st.owner)
  {
    if Attempted(g, s).Some? && s.ContinueStep? {
      RestoredState(g, s.k, s.op.key, s.now, s.passed, false);
    }
  }

  // ---- When instructions succeed ---------------------------------------------------------------

  /** The caller can pay the gas and the operator's account exists. */
  predicate CanPayGas(w: World, caller: Address, operator: Address, gas: nat, price: Word) {
    && Balance(w, caller) >= SaturatingMul(gas, price)
    && (operator != caller ==> caller in w.ether && operator in w.ether)
  }

  lemma PaysIff(w: World, caller: Address, operator: Address, gas: nat, price: Word)
    ensures Pay(w, caller, operator, SaturatingMul(gas, price)).Some? <==> CanPayGas(w, caller, operator, gas, price)
  {
  }

  /** The account is there for this transaction: a Holder, or finished with another one, and the operator's
      own. */
  predicate Free(g: Global, k: nat, op: Operator, hash: nat) {
    k in g.slots && match g.slots[k]
    case Holder(owner, _) => owner == op.key
    case Finalized(owner, last) => owner == op.key && last != hash
    case InFlight(_) => false
  }

  /** The transaction's nonce is its caller's and not the last one, and its caller is passed. */
  predicate OnTurn(g: Global, trx: Trx, passed: seq<Passed>) {
    trx.caller in Addresses(passed) && trx.nonce == Nonce(g.world, trx.caller) < U64_MAX
  }

  predicate Unlocked(g: Global, passed: seq<Passed>) {
    forall p :: p in passed && p.key.Pda? && p.key.address in g.world.ether ==> p.key.address !in g.locked
  }

  lemma UnlockedIff(g: Global, passed: seq<Passed>)
    ensures Unlocked(g, passed) <==> Loaded(g, passed) !! g.locked
  {
    if Loaded(g, passed) !! g.locked {
      forall p | p in passed && p.key.Pda? && p.key.address in g.world.ether ensures p.key.address !in g.locked {
        assert p.key.address in Loaded(g, passed);
      }
    }
  }

  /** A transaction begins exactly when its account is free for it, nothing it names is locked, it is on
      turn, and its first gas is within the limit and paid for. */
  lemma BeginsIff(g: Global, k: nat, op: Operator, now: nat, trx: Trx, passed: seq<Passed>, gas: nat, valid: bool)
    ensures Begin(g, k, op, now, trx, passed, gas, valid).Some? <==>
            && Free(g, k, op, trx.hash) && Unlocked(g, passed) && OnTurn(g, trx, passed) && valid
            && Within(0, gas, trx.gasLimit) && CanPayGas(g.world, trx.caller, op.account, gas, trx.gasPrice)
  {
    UnlockedIff(g, passed);
    PaysIff(g.world, trx.caller, op.account, gas, trx.gasPrice);
    LimitIff(0, gas, trx.gasLimit);
  }

  /** The sum is within the limit; the largest word is no limit. */
  predicate Within(used: Word, gas: nat, limit: Word) {
    used + gas <= limit || limit == WORD - 1
  }

  lemma LimitIff(used: Word, gas: nat, limit: Word)
    ensures SaturatingAdd(used, gas) <= limit <==> Within(used, gas, limit)
  {
  }

  /** A single-shot transaction goes through exactly when nothing it names is locked, it is on turn, its
      results apply completely, and its gas is within the limit and paid for from what they leave. */
  lemma ExecutesIff(g: Global, op: Operator, trx: Trx, passed: seq<Passed>, gas: nat, log: seq<Action>, valid: bool)
    ensures Execute(g, op, trx, passed, gas, log, valid).Some? <==>
            && Unlocked(g, passed) && OnTurn(g, trx, passed) && valid && gas <= trx.gasLimit
            && var applied := ApplyResults(g.world, Addresses(passed), Some(log));
            && applied.Some? && applied.value.1
            && CanPayGas(applied.value.0, trx.caller, op.account, gas, trx.gasPrice)
  {
    UnlockedIff(g, passed);
    var applied := ApplyResults(g.world, Addresses(passed), Some(log));
    if applied.Some? {
      PaysIff(applied.value.0, trx.caller, op.account, gas, trx.gasPrice);
    }
  }

  /** An iteration goes through exactly when the State can be restored, its results apply or are postponed,
      and the gas is within the limit and paid for from what they leave; it ends the transaction exactly
      when its results applied completely. */
  lemma ContinuesIff(g: Global, k: nat, op: Operator, now: nat, passed: seq<Passed>, gas: nat,
                     result: Option<seq<Action>>)
    ensures
      var r, applied := Continue(g, k, op, now, passed, gas, result), ApplyResults(g.world, Addresses(passed), result);
      && (r.Some? <==>
          && Restore(g, k, op.key, now, passed, false).Some? && applied.Some?
          && var st := g.slots[k].state;
          && Within(st.gasUsed, gas, st.gasLimit)
          && CanPayGas(applied.value.0, st.caller, op.account, gas, st.gasPrice))
      && (r.Some? ==> (InFlightAt(r.value, k) <==> !applied.value.1))
  {
    var applied := ApplyResults(g.world, Addresses(passed), result);
    if Restore(g, k, op.key, now, passed, false).Some? && applied.Some? {
      RestoredState(g, k, op.key, now, passed, false);
      var st := g.slots[k].state;
      LimitIff(st.gasUsed, gas, st.gasLimit);
      PaysIff(applied.value.0, st.caller, op.account, gas, st.gasPrice);
    }
  }

  /** A transaction is cancelled exactly by whoever may restore it and names its hash, even when an account
      it lists as missing has come to exist. */
  lemma CancelsIff(g: Global, k: nat, operator: nat, now: nat, passed: seq<Passed>, hash: nat)
    ensures Cancel(g, k, operator, now, passed, hash).Some? <==>
            Restore(g, k, operator, now, passed, true).Some? && g.slots[k].state.hash == hash
  {
    if Restore(g, k, operator, now, passed, true).Some? {
      RestoredState(g, k, operator, now, passed, true);
    }
  }

  /** Deposits go through, whether or not the account is locked or exists, unless it is not initialized yet
      or the balance would overflow; they credit it and touch nothing else. */
  lemma DepositsIff(g: Global, a: Address, value: Word, c: Address)
    ensures
      var r := Deposit(g, a, value);
      && (r.Some? <==> a !in g.world.spare && Balance(g.world, a) + value < WORD)
      && (r.Some? ==>
          && r.value == g.(world := g.world.(ether := r.value.world.ether)) && a in r.value.world.ether
          && Balance(r.value.world, c) == Balance(g.world, c) + (if c == a then value else 0)
          && Nonce(r.value.world, c) == Nonce(g.world, c))
  {
  }

  // ---- Adding accounts -------------------------------------------------------------------------

  /** `key` is listed, or passed before position `i`. */
  predicate Known(list: seq<Meta>, passed: seq<Passed>, i: nat, key: Key)
    requires i <= |passed|
  {
    (exists m :: m in list && m.key == key) || exists j :: 0 <= j < i && passed[j].key == key
  }

  /** Everything that is passed for the first time and exists is free. */
  ghost predicate AllFree(g: Global, list: seq<Meta>, passed: seq<Passed>) {
    forall i :: 0 <= i < |passed| && !Known(list, passed, i, passed[i].key) && Exists(g, passed[i].key) ==>
      passed[i].key.address !in g.locked
  }

  lemma AllFreeStep(g: Global, list: seq<Meta>, passed: seq<Passed>)
    requires passed != []
    ensures AllFree(g, list, passed) <==>
            && AllFree(g, list, Init(passed))
            && (!Known(list, passed, |passed| - 1, Last(passed).key) && Exists(g, Last(passed).key) ==>
                Last(passed).key.address !in g.locked)
  {
    forall i | 0 <= i < |passed| - 1
      ensures Known(list, Init(passed), i, passed[i].key) <==> Known(list, passed, i, passed[i].key)
    {
      assert Init(passed)[..i] == passed[..i];
      if exists j :: 0 <= j < i && passed[j].key == passed[i].key {
        var j :| 0 <= j < i && passed[j].key == passed[i].key;
        assert Init(passed)[j].key == passed[i].key;
      }
    }
    if AllFree(g, list, passed) {
      forall i
        | && 0 <= i < |Init(passed)| && !Known(list, Init(passed), i, Init(passed)[i].key)
          && Exists(g, Init(passed)[i].key)
        ensures Init(passed)[i].key.address !in g.locked
      {
        assert Init(passed)[i] == passed[i];
      }
    }
    if AllFree(g, list, Init(passed)) {
      forall i | 0 <= i < |passed| - 1 && !Known(list, passed, i, passed[i].key) && Exists(g, passed[i].key)
        ensures passed[i].key.address !in g.locked
      {
        assert Init(passed)[i] == passed[i];
      }
    }
  }

  /** Accounts are added exactly for the owner of a transaction in flight, and when all that are new and
      exist are free; nothing but its list and the locks changes. */
  lemma AddsIff(g: Global, k: nat, operator: nat, passed: seq<Passed>)
    ensures
      var r := BlockAdd(g, k, operator, passed);
      && (r.Some? <==>
          InFlightAt(g, k) && operator == g.slots[k].state.owner && AllFree(g, g.slots[k].state.blocked, passed))
      && (r.Some? ==>
          && InFlightAt(r.value, k)
          && r.value == g.(locked := r.value.locked, slots := g.slots[k := r.value.slots[k]])
          && (forall key ::
              Has(r.value.slots[k].state.blocked, key) <==> Known(g.slots[k].state.blocked, passed, |passed|, key)))
  {
    if InFlightAt(g, k) {
      ExtendsIff(g, g.slots[k].state.blocked, passed);
    }
  }

  /** After adding, exactly the listed and passed keys are listed, and exactly the existing ones among the
      new are locked besides. */
  lemma {:induction false} ExtendsIff(g: Global, list: seq<Meta>, passed: seq<Passed>)
    ensures Extended(g, list, passed).Some? <==> AllFree(g, list, passed)
    ensures Extended(g, list, passed).Some? ==>
      var (l, locked) := Extended(g, list, passed).value;
      && (forall key :: Has(l, key) <==> Known(list, passed, |passed|, key))
      && (forall a :: a in locked <==>
          a in g.locked || (Known(list, passed, |passed|, Pda(a)) && !Has(list, Pda(a)) && a in g.world.ether))
    decreases |passed|
  {
    if passed == [] {
    } else {
      var before, p := Init(passed), Last(passed);
      ExtendsIff(g, list, before);
      AllFreeStep(g, list, passed);
      KnownStep(list, passed, p.key);
      if Extended(g, list, before).Some? {
        var (l, locked) := Extended(g, list, before).value;
        forall key: Key
          ensures Has(l + [MetaOf(g, p)], key) <==> Has(l, key) || key == p.key
          ensures Known(list, passed, |passed|, key) <==> Known(list, before, |before|, key) || key == p.key
        {
          HasAppend(l, MetaOf(g, p), key);
          KnownStep(list, passed, key);
        }
      }
    }
  }

  lemma HasAppend(l: seq<Meta>, m: Meta, key: Key)
    ensures Has(l + [m], key) <==> Has(l, key) || key == m.key
  {
    if Has(l, key) {
      var x :| x in l && x.key == key;
      assert x in l + [m];
    }
    if key == m.key {
      assert m in l + [m];
    }
  }

  lemma KnownStep(list: seq<Meta>, passed: seq<Passed>, key: Key)
    requires passed != []
    ensures Known(list, passed, |passed| - 1, key) <==> Known(list, Init(passed), |passed| - 1, key)
    ensures Known(list, passed, |passed|, key) <==> Known(list, passed, |passed| - 1, key) || key == Last(passed).key
  {
    if j :| 0 <= j < |passed| - 1 && passed[j].key == key {
      assert Init(passed)[j].key == key;
    }
    if key == Last(passed).key {
      assert passed[|passed| - 1].key == key;
    }
  }
}
