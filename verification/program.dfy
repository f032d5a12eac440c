/** The instructions as loops over the passed accounts, changed in place; each is proved to do what
    `Protocol` says. When one reports failure the chain discards its effects. */
module Program {
  import opened Opcodes
  import opened WordArithmetic
  import opened StorageLayout
  import opened Accounts
  import opened Journal
  import opened Apply
  import opened Protocol
  import opened ProtocolLaws

  lemma PassedPrefix(passed: seq<Passed>, i: nat)
    requires i < |passed|
    ensures Init(passed[..i + 1]) == passed[..i] && Last(passed[..i + 1]) == passed[i]
    ensures Addresses(passed[..i + 1]) ==
            Addresses(passed[..i]) + if passed[i].key.Pda? then {passed[i].key.address} else {}
  {
    AddressesAppend(passed[..i + 1]);
  }

  lemma MetaPrefix(list: seq<Meta>, i: nat)
    requires i < |list|
    ensures Init(list[..i + 1]) == list[..i] && Last(list[..i + 1]) == list[i]
    ensures HeldBy(list[..i + 1]) ==
            HeldBy(list[..i]) + if list[i].existed && list[i].key.Pda? then {list[i].key.address} else {}
  {
    HeldAppend(list[..i], list[i]);
    assert list[..i + 1] == list[..i] + [list[i]];
  }

  lemma {:induction false} ExtendedNone(g: Global, list: seq<Meta>, passed: seq<Passed>, i: nat)
    requires i <= |passed| && Extended(g, list, passed[..i]).None?
    ensures Extended(g, list, passed).None?
    decreases |passed|
  {
    if i == |passed| {
      assert passed[..i] == passed;
    } else {
      assert Init(passed)[..i] == passed[..i];
      ExtendedNone(g, list, Init(passed), i);
    }
  }

  /** One more nonce of the caller; the addition wraps. */
  function OneBump(w: World, caller: Address): World
    requires caller in w.ether
  {
    w.(ether := w.ether[caller := w.ether[caller].(nonce := (w.ether[caller].nonce + 1) % (U64_MAX + 1))])
  }

  lemma BumpedOnce(w: World, caller: Address, times: nat)
    requires caller in w.ether && w.ether[caller].nonce <= U64_MAX
    ensures
      var v := Bumped(w, caller, times);
      && caller in v.ether
      && Bumped(w, caller, times + 1)
         == OneBump(v, caller)
  {
    var n := w.ether[caller].nonce;
    Wraps(n + times, U64_MAX + 1);
    if times > 0 {
      var v := Bumped(w, caller, times);
      assert v.ether[caller].nonce == (n + times) % (U64_MAX + 1);
      assert v.ether[caller := v.ether[caller].(nonce := (n + times + 1) % (U64_MAX + 1))]
          == w.ether[caller := w.ether[caller].(nonce := (n + times + 1) % (U64_MAX + 1))];
    }
  }

  predicate Frees(m: Meta, w: World) {
    m.existed && m.key.Pda? && m.key.address in w.ether
  }

  /** One more entry of a cancelled list. */
  lemma CancelOne(w: World, list: seq<Meta>, i: nat, caller: Address)
    requires i < |list| && forall a :: a in w.ether ==> w.ether[a].nonce <= U64_MAX
    ensures HeldBy(list[..i + 1]) * w.ether.Keys ==
            HeldBy(list[..i]) * w.ether.Keys + if Frees(list[i], w) then {list[i].key.address} else {}
    ensures
      var v := Bumped(w, caller, Bumps(list[..i], caller));
      && v.ether.Keys == w.ether.Keys
      && Bumped(w, caller, Bumps(list[..i + 1], caller)) ==
         if Frees(list[i], w) && list[i].key.address == caller then
           OneBump(v, caller)
         else v
  {
    MetaPrefix(list, i);
    BumpOne(w, list[i], Bumps(list[..i], caller), caller);
  }

  lemma BumpOne(w: World, m: Meta, times: nat, caller: Address)
    requires forall a :: a in w.ether ==> w.ether[a].nonce <= U64_MAX
    ensures
      var v := Bumped(w, caller, times);
      && v.ether.Keys == w.ether.Keys
      && Bumped(w, caller, times + if m.existed && m.key == Pda(caller) then 1 else 0) ==
         if Frees(m, w) && m.key.address == caller then
           OneBump(v, caller)
         else v
  {
    if caller in w.ether {
      BumpedOnce(w, caller, times);
    }
  }

  lemma Wraps(n: nat, m: nat)
    requires m > 0
    ensures (n % m + 1) % m == (n + 1) % m
  {
    AddMultiple(n % m + 1, n / m, m);
  }

  class Program {
    var world: World
    var locked: set<Address>
    var slots: map<nat, Slot>
    var consumed: seq<(Address, nat)>
    var payments: seq<Payment>

    function View(): Global
      reads this
    {
      Global(world, locked, slots, consumed, payments)
    }

    method CheckForBlockedAccounts(passed: seq<Passed>) returns (ok: bool)
      ensures ok <==> Loaded(View(), passed) !! locked
    {
      for i := 0 to |passed|
        invariant Loaded(View(), passed[..i]) !! locked
      {
        PassedPrefix(passed, i);
        var key := passed[i].key;
        if key.Pda? && key.address in world.ether && key.address in locked {
          assert passed[i] in passed;
          assert key.address in Addresses(passed);
          return false;
        }
      }
      assert passed[..|passed|] == passed;
      ok := true;
    }

    /** `block_accounts(true)`. */
    method BlockAccounts(passed: seq<Passed>)
      modifies this`locked
      ensures locked == old(locked) + Loaded(old(View()), passed)
    {
      for i := 0 to |passed|
        invariant locked == old(locked) + Loaded(old(View()), passed[..i])
      {
        PassedPrefix(passed, i);
        if passed[i].key.Pda? && passed[i].key.address in world.ether {
          locked := locked + {passed[i].key.address};
        }
      }
      assert passed[..|passed|] == passed;
    }

    method CheckBlockedAccounts(list: seq<Meta>, passed: seq<Passed>, cancelling: bool) returns (ok: bool)
      ensures ok <==> AllMatch(View(), list, passed, cancelling)
    {
      if |list| != |passed| {
        return false;
      }
      for i := 0 to |list|
        invariant forall j :: 0 <= j < i ==> Matches(View(), list[j], passed[j], cancelling)
      {
        if list[i].key != passed[i].key
           || (list[i].writable && !passed[i].writable)
           || (!cancelling && !list[i].existed && Exists(View(), passed[i].key)) {
          assert !Matches(View(), list[i], passed[i], cancelling);
          return false;
        }
      }
      ok := true;
    }

    method RestoreState(k: nat, operator: nat, now: nat, passed: seq<Passed>, cancelling: bool)
        returns (r: Option<State>)
      ensures r == Restore(View(), k, operator, now, passed, cancelling)
    {
      if k !in slots || !slots[k].InFlight? {
        return None;
      }
      var st := slots[k].state;
      var ok := CheckBlockedAccounts(st.blocked, passed, cancelling);
      if !ok {
        return None;
      }
      if operator != st.operator && now - st.slot <= OPERATOR_PRIORITY_SLOTS {
        return None;
      }
      if st.operator != operator {
        st := st.(operator := operator, slot := now);
      }
      r := Some(st);
    }

    method WriteBlockedAccounts(passed: seq<Passed>) returns (list: seq<Meta>)
      ensures list == Metas(View(), passed)
    {
      list := [];
      for i := 0 to |passed|
        invariant list == Metas(View(), passed[..i])
      {
        PassedPrefix(passed, i);
        list := list + [MetaOf(View(), passed[i])];
      }
      assert passed[..|passed|] == passed;
    }

    method DoBegin(k: nat, op: Operator, now: nat, trx: Trx, passed: seq<Passed>, gas: nat, valid: bool)
        returns (ok: bool)
      modifies this
      ensures if ok then Begin(old(View()), k, op, now, trx, passed, gas, valid) == Some(View())
              else Begin(old(View()), k, op, now, trx, passed, gas, valid) == None
    {
      if k !in slots || slots[k].InFlight? || (slots[k].Finalized? && slots[k].hash == trx.hash)
         || SlotOwner(slots[k]) != op.key {
        return false;
      }
      var list := WriteBlockedAccounts(passed);
      var free := CheckForBlockedAccounts(passed);
      if !free {
        return false;
      }
      BlockAccounts(passed);
      if trx.caller !in Addresses(passed) || Nonce(world, trx.caller) != trx.nonce || trx.nonce >= U64_MAX || !valid {
        return false;
      }
      var st := State(op.key, trx.hash, trx.caller, trx.nonce, trx.gasLimit, trx.gasPrice, 0, op.key, now, list,
                      |payments|);
      var charged := Charged(st, gas);
      var paid := Pay(world, trx.caller, op.account, SaturatingMul(gas, trx.gasPrice));
      if charged.None? || paid.None? {
        return false;
      }
      var payment := PaymentOf(world, paid.value, st.id, trx.caller, op.account, gas, trx.gasPrice, trx.gasLimit);
      world, slots, payments := paid.value, slots[k := InFlight(charged.value)], payments + [payment];
      ok := true;
    }

    /** `do_continue` from its results on, with `finalize`. */
    method DoContinue(k: nat, op: Operator, now: nat, passed: seq<Passed>, gas: nat, result: Option<seq<Action>>)
      returns (ok: bool)
      modifies this
      ensures if ok then Continue(old(View()), k, op, now, passed, gas, result) == Some(View())
              else Continue(old(View()), k, op, now, passed, gas, result) == None
    {
      var restored := RestoreState(k, op.key, now, passed, false);
      if restored.None? {
        return false;
      }
      var applied, complete := ApplyResult(Addresses(passed), result);
      if !applied {
        return false;
      }
      var charged := Charged(restored.value, gas);
      if charged.None? {
        return false;
      }
      var st := charged.value;
      var paid := Pay(world, st.caller, op.account, SaturatingMul(gas, st.gasPrice));
      if paid.None? {
        return false;
      }
      payments := payments + [PaymentOf(world, paid.value, st.id, st.caller, op.account, gas, st.gasPrice,
                                        st.gasLimit)];
      world := paid.value;
      if complete {
        UnlockAll(passed);
        slots := slots[k := Finalized(st.owner, st.hash)];
        consumed := consumed + [(st.caller, st.nonce)];
      } else {
        slots := slots[k := InFlight(st)];
      }
      ok := true;
    }

    /** The results go through the storage of the passed accounts. */
    method ApplyResult(addresses: set<Address>, result: Option<seq<Action>>) returns (ok: bool, complete: bool)
      modifies this`world
      ensures if ok then ApplyResults(old(world), addresses, result) == Some((world, complete))
              else ApplyResults(old(world), addresses, result) == None
    {
      if result.None? {
        return true, false;
      }
      if !(Needed(Rearranged(result.value)).Keys <= addresses) {
        return false, false;
      }
      var part := World(map a | a in world.ether && a in addresses :: world.ether[a],
                        map a | a in world.spare && a in addresses :: world.spare[a], world.refused);
      var storage := new ProgramAccountStorage(part);
      var r := storage.ApplyStateChange(result.value);
      if r.Failed? {
        return false, false;
      }
      world := Merge(world, storage.World(), addresses);
      return true, r.value;
    }

    /** `block_accounts(false)`: everything that was loaded or created is among the passed accounts. */
    method UnlockAll(passed: seq<Passed>)
      modifies this`locked
      ensures locked == old(locked) - Addresses(passed)
    {
      for i := 0 to |passed|
        invariant locked == old(locked) - Addresses(passed[..i])
      {
        PassedPrefix(passed, i);
        if passed[i].key.Pda? {
          locked := locked - {passed[i].key.address};
        }
      }
      assert passed[..|passed|] == passed;
    }

    method DoCancel(k: nat, operator: nat, now: nat, passed: seq<Passed>, hash: nat) returns (ok: bool)
      requires forall a :: a in world.ether ==> world.ether[a].nonce <= U64_MAX
      modifies this
      ensures if ok then Cancel(old(View()), k, operator, now, passed, hash) == Some(View())
              else Cancel(old(View()), k, operator, now, passed, hash) == None
    {
      var restored := RestoreState(k, operator, now, passed, true);
      if restored.None? || restored.value.hash != hash {
        return false;
      }
      var st := restored.value;
      FreeHeld(st, passed);
      slots := slots[k := Finalized(st.owner, st.hash)];
      consumed := consumed + [(st.caller, st.nonce)];
      ok := true;
    }

    /** The loop of `do_cancel`: unlock every listed account, and count the caller's nonce. */
    method FreeHeld(st: State, passed: seq<Passed>)
      requires forall a :: a in world.ether ==> world.ether[a].nonce <= U64_MAX
      requires AllMatch(View(), st.blocked, passed, true)
      modifies this`world, this`locked
      ensures world == Bumped(old(world), st.caller, Bumps(st.blocked, st.caller))
      ensures locked == old(locked) - (HeldBy(st.blocked) * old(world).ether.Keys)
    {
      ghost var w := world;
      for i := 0 to |passed|
        invariant world == Bumped(w, st.caller, Bumps(st.blocked[..i], st.caller))
        invariant locked == old(locked) - (HeldBy(st.blocked[..i]) * w.ether.Keys)
      {
        assert Matches(old(View()), st.blocked[i], passed[i], true);
        CancelOne(w, st.blocked, i, st.caller);
        FreeOne(st.blocked[i], passed[i], st.caller);
      }
      assert st.blocked[..|passed|] == st.blocked;
    }

    method FreeOne(m: Meta, p: Passed, caller: Address)
      requires m.key == p.key
      modifies this`world, this`locked
      ensures locked == old(locked) - if Frees(m, old(world)) then {m.key.address} else {}
      ensures world == if Frees(m, old(world)) && m.key.address == caller then OneBump(old(world), caller)
              else old(world)
    {
      if m.existed && Exists(View(), p.key) {
        var a := p.key.address;
        locked := locked - {a};
        if a == caller {
          var bumped := (world.ether[a].nonce + 1) % (U64_MAX + 1);
          world := world.(ether := world.ether[a := world.ether[a].(nonce := bumped)]);
        }
      }
    }

    method DoBlockAdd(k: nat, operator: nat, passed: seq<Passed>) returns (ok: bool)
      modifies this
      ensures if ok then BlockAdd(old(View()), k, operator, passed) == Some(View())
              else BlockAdd(old(View()), k, operator, passed) == None
    {
      if k !in slots || !slots[k].InFlight? || slots[k].state.owner != operator {
        return false;
      }
      ghost var g := View();
      var list := slots[k].state.blocked;
      var keys := set m | m in list :: m.key;
      for i := 0 to |passed|
        invariant world == g.world && slots == g.slots && consumed == g.consumed && payments == g.payments
        invariant Extended(g, g.slots[k].state.blocked, passed[..i]) == Some((list, locked))
        invariant forall key :: key in keys <==> Has(list, key)
      {
        PassedPrefix(passed, i);
        var p := passed[i];
        if p.key !in keys {
          var existed := Exists(View(), p.key);
          if existed {
            if p.key.address in locked {
              ExtendedNone(g, g.slots[k].state.blocked, passed, i + 1);
              return false;
            }
            locked := locked + {p.key.address};
          }
          HasAppend(list, Meta(p.key, existed, p.writable));
          list := list + [Meta(p.key, existed, p.writable)];
          keys := keys + {p.key};
        }
      }
      assert passed[..|passed|] == passed;
      slots := slots[k := InFlight(slots[k].state.(blocked := list))];
      ok := true;
    }

    method DoExecute(op: Operator, trx: Trx, passed: seq<Passed>, gas: nat, log: seq<Action>, valid: bool)
        returns (ok: bool)
      modifies this
      ensures if ok then Execute(old(View()), op, trx, passed, gas, log, valid) == Some(View())
              else Execute(old(View()), op, trx, passed, gas, log, valid) == None
    {
      var free := CheckForBlockedAccounts(passed);
      if !free || trx.caller !in Addresses(passed) || Nonce(world, trx.caller) != trx.nonce || trx.nonce >= U64_MAX
        || !valid {
        return false;
      }
      var applied, complete := ApplyResult(Addresses(passed), Some(log));
      if !applied || !complete || gas > trx.gasLimit {
        return false;
      }
      var paid := Pay(world, trx.caller, op.account, SaturatingMul(gas, trx.gasPrice));
      if paid.None? {
        return false;
      }
      payments := payments
        + [PaymentOf(world, paid.value, |payments|, trx.caller, op.account, gas, trx.gasPrice, trx.gasLimit)];
      world := paid.value;
      consumed := consumed + [(trx.caller, trx.nonce)];
      ok := true;
    }
  }

  lemma HasAppend(list: seq<Meta>, m: Meta)
    ensures forall key :: Has(list + [m], key) <==> Has(list, key) || key == m.key
  {
    forall key ensures Has(list + [m], key) <==> Has(list, key) || key == m.key {
      if Has(list, key) {
        var n :| n in list && n.key == key;
        assert n in list + [m];
      }
      if key == m.key {
        assert m in list + [m];
      }
    }
  }
}
