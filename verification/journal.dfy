/** Finite ledgers of integers and their sums. */
module Ledgers {
  import opened Accounts

  function Get(m: map<Address, int>, a: Address): int {
    if a in m then m[a] else 0
  }

  ghost function Sum(m: map<Address, int>): int {
    if m == map[] then 0 else
      var a :| a in m;
      m[a] + Sum(m - {a})
  }

  /** The choice made by `Sum` does not matter. */
  lemma {:induction false} SumWithout(m: map<Address, int>, a: Address)
    requires a in m
    ensures Sum(m) == m[a] + Sum(m - {a})
  {
    var b :| b in m && Sum(m) == m[b] + Sum(m - {b});
    if b != a {
      SumWithout(m - {b}, a);
      SumWithout(m - {a}, b);
      assert m - {b} - {a} == m - {a} - {b};
    }
  }

  lemma SumUpdate(m: map<Address, int>, a: Address, v: int)
    ensures Sum(m[a := v]) == Sum(m) - Get(m, a) + v
  {
    SumWithout(m[a := v], a);
    assert m[a := v] - {a} == m - {a};
    if a in m {
      SumWithout(m, a);
    } else {
      assert m - {a} == m;
    }
  }

  lemma {:induction false} SumNonNegative(m: map<Address, int>)
    requires forall a :: a in m ==> m[a] >= 0
    ensures Sum(m) >= 0
  {
    if m != map[] {
      var a :| a in m;
      SumWithout(m, a);
      SumNonNegative(m - {a});
    }
  }

  /** No two entries together exceed the sum. */
  lemma PairBelowSum(m: map<Address, int>, a: Address, b: Address)
    requires forall c :: c in m ==> m[c] >= 0
    ensures Get(m, a) <= Sum(m)
    ensures a != b ==> Get(m, a) + Get(m, b) <= Sum(m)
  {
    SumUpdate(m, a, 0);
    var n := m[a := 0];
    SumNonNegative(n);
    SumUpdate(n, b, 0);
    SumNonNegative(n[b := 0]);
  }
}

/** `ExecutorState`: the append-only log of a transaction's effects, its reads over the backend
    and its snapshot marks. */
module Journal {
  import opened Opcodes
  import opened WordArithmetic
  import opened StorageLayout
  import opened Accounts
  import opened Ledgers

  datatype Action =
    | ExternalInstruction(id: nat)
    | NeonTransfer(source: Address, target: Address, value: Word)
    | NeonWithdraw(source: Address, value: Word)
    | EvmSetStorage(address: Address, index: Word, slot: Word32)
    | EvmIncrementNonce(address: Address)
    | EvmSetCode(address: Address, code: seq<Byte>)
    | EvmSelfDestruct(address: Address)

  datatype Error = IntegerOverflow | InsufficientBalance | ContractCodeSizeLimit

  datatype Result<+T> = Ok(value: T) | Err(error: Error)

  const CODE_SIZE_LIMIT: nat := 0x6000

  function Init<T>(s: seq<T>): seq<T>
    requires s != []
  {
    s[..|s| - 1]
  }

  function Last<T>(s: seq<T>): T
    requires s != []
  {
    s[|s| - 1]
  }

  // ---- What the log says about one account ---------------------------------------------------

  function NonceOver(n: nat, log: seq<Action>, a: Address): Result<nat>
    decreases |log|
  {
    if log == [] then Ok(n) else
      var before := NonceOver(n, Init(log), a);
      if before.Err? || Last(log) != EvmIncrementNonce(a) then before
      else if before.value >= U64_MAX then Err(IntegerOverflow)
      else Ok(before.value + 1)
  }

  function CheckedSub(b: Word, v: Word): Result<Word> {
    if b < v then Err(IntegerOverflow) else Ok(b - v)
  }

  function CheckedAdd(b: Word, v: Word): Result<Word> {
    if b + v < WORD then Ok(b + v) else Err(IntegerOverflow)
  }

  function BalanceStep(b: Word, action: Action, a: Address): Result<Word> {
    match action
    case NeonTransfer(source, target, value) =>
      var debited := if a == source then CheckedSub(b, value) else Ok(b);
      if debited.Ok? && a == target then CheckedAdd(debited.value, value) else debited
    case NeonWithdraw(source, value) => if a == source then CheckedSub(b, value) else Ok(b)
    case _ => Ok(b)
  }

  function BalanceOver(b: Word, log: seq<Action>, a: Address): Result<Word>
    decreases |log|
  {
    if log == [] then Ok(b) else
      var before := BalanceOver(b, Init(log), a);
      if before.Err? then before else BalanceStep(before.value, Last(log), a)
  }

  /** The code of the first deployment at `a`. */
  function Deployed(log: seq<Action>, a: Address): Option<seq<Byte>>
    decreases |log|
  {
    if log == [] then None
    else if Deployed(Init(log), a).Some? then Deployed(Init(log), a)
    else if Last(log).EvmSetCode? && Last(log).address == a then Some(Last(log).code)
    else None
  }

  function CodeOver(code: seq<Byte>, log: seq<Action>, a: Address): seq<Byte> {
    if Deployed(log, a).Some? then Deployed(log, a).value else code
  }

  /** The last write to the slot. */
  function StorageOver(v: Word32, log: seq<Action>, a: Address, index: Word): Word32
    decreases |log|
  {
    if log == [] then v
    else if Last(log).EvmSetStorage? && Last(log).address == a && Last(log).index == index then Last(log).slot
    else StorageOver(v, Init(log), a, index)
  }

  // ---- Balances as a ledger, and logs whose movements are covered -------------------------------

  function Balances(w: World): map<Address, int> {
    map a | a in w.ether :: w.ether[a].balance
  }

  function Move(m: map<Address, int>, action: Action): map<Address, int> {
    match action
    case NeonTransfer(source, target, value) =>
      var n := m[source := Get(m, source) - value];
      n[target := Get(n, target) + value]
    case NeonWithdraw(source, value) => m[source := Get(m, source) - value]
    case _ => m
  }

  function Ledger(m: map<Address, int>, log: seq<Action>): map<Address, int>
    decreases |log|
  {
    if log == [] then m else Move(Ledger(m, Init(log)), Last(log))
  }

  /** The action's source can pay it, and it is not a transfer to itself. */
  predicate Affordable(m: map<Address, int>, action: Action) {
    match action
    case NeonTransfer(source, target, value) => source != target && value <= Get(m, source)
    case NeonWithdraw(source, value) => value <= Get(m, source)
    case _ => true
  }

  predicate Covered(m: map<Address, int>, log: seq<Action>)
    decreases |log|
  {
    log == [] || (Covered(m, Init(log)) && Affordable(Ledger(m, Init(log)), Last(log)))
  }

  function Withdrawn(log: seq<Action>): int
    decreases |log|
  {
    if log == [] then 0
    else Withdrawn(Init(log)) + if Last(log).NeonWithdraw? then Last(log).value else 0
  }

  predicate NonNegative(m: map<Address, int>) {
    forall a :: a in m ==> m[a] >= 0
  }

  lemma MoveKeeps(m: map<Address, int>, action: Action)
    requires NonNegative(m) && Affordable(m, action)
    ensures NonNegative(Move(m, action))
    ensures Sum(Move(m, action)) + (if action.NeonWithdraw? then action.value else 0) == Sum(m)
  {
    match action
    case NeonTransfer(source, target, value) =>
      var n := m[source := Get(m, source) - value];
      SumUpdate(m, source, Get(m, source) - value);
      SumUpdate(n, target, Get(n, target) + value);
    case NeonWithdraw(source, value) => SumUpdate(m, source, Get(m, source) - value);
    case _ =>
  }

  /** Along a covered log no balance goes below zero and the sum drops by the withdrawals. */
  lemma {:induction false} LedgerConserves(m: map<Address, int>, log: seq<Action>)
    requires NonNegative(m) && Covered(m, log)
    ensures NonNegative(Ledger(m, log))
    ensures Sum(Ledger(m, log)) + Withdrawn(log) == Sum(m)
    decreases |log|
  {
    if log != [] {
      LedgerConserves(m, Init(log));
      MoveKeeps(Ledger(m, Init(log)), Last(log));
    }
  }

  lemma {:induction false} WithdrawnNonNegative(log: seq<Action>)
    ensures Withdrawn(log) >= 0
    decreases |log|
  {
    if log != [] {
      WithdrawnNonNegative(Init(log));
    }
  }

  /** Over a covered log, with the supply within 256 bits, no balance read fails and each read
      gives the ledger's value. */
  lemma {:induction false} CoveredReads(w: World, log: seq<Action>, a: Address)
    requires Covered(Balances(w), log) && Sum(Balances(w)) < WORD
    ensures BalanceOver(Balance(w, a), log, a).Ok?
    ensures BalanceOver(Balance(w, a), log, a).value == Get(Ledger(Balances(w), log), a)
    decreases |log|
  {
    var m := Balances(w);
    if log != [] {
      CoveredReads(w, Init(log), a);
      LedgerConserves(m, Init(log));
      WithdrawnNonNegative(Init(log));
      CoveredStep(Ledger(m, Init(log)), Last(log), a);
    }
  }

  lemma CoveredStep(m: map<Address, int>, action: Action, a: Address)
    requires NonNegative(m) && Affordable(m, action) && 0 <= Get(m, a) && Sum(m) < WORD
    ensures Get(m, a) < WORD
    ensures BalanceStep(Get(m, a), action, a) == Ok(Get(Move(m, action), a))
  {
    PairBelowSum(m, a, a);
    if action.NeonTransfer? {
      PairBelowSum(m, action.source, action.target);
    }
  }

  /** A prefix of a covered log is covered: reverting to a snapshot keeps the log covered. */
  lemma {:induction false} PrefixCovered(m: map<Address, int>, log: seq<Action>, n: nat)
    requires n <= |log| && Covered(m, log)
    ensures Covered(m, log[..n])
    decreases |log|
  {
    if n == |log| {
      assert log[..n] == log;
    } else {
      PrefixCovered(m, Init(log), n);
      assert Init(log)[..n] == log[..n];
    }
  }

  /** A successful read is the ledger's value whatever the log. */
  lemma {:induction false} ReadIsLedger(m: map<Address, int>, b: Word, log: seq<Action>, a: Address)
    requires Get(m, a) == b
    ensures BalanceOver(b, log, a).Ok? ==> BalanceOver(b, log, a).value == Get(Ledger(m, log), a)
    decreases |log|
  {
    if log != [] {
      ReadIsLedger(m, b, Init(log), a);
    }
  }

  lemma {:induction false} NonceGrows(n: nat, log: seq<Action>, a: Address)
    requires NonceOver(n, log, a).Ok?
    ensures NonceOver(n, log, a).value >= n + if log != [] && log[0] == EvmIncrementNonce(a) then 1 else 0
    decreases |log|
  {
    if log != [] {
      NonceGrows(n, Init(log), a);
      if |log| == 1 {
        assert Init(log) == [];
      } else {
        assert Init(log)[0] == log[0];
      }
    }
  }

  lemma {:induction false} NonceErrStays(n: nat, log: seq<Action>, i: nat, a: Address)
    requires i <= |log| && NonceOver(n, log[..i], a).Err?
    ensures NonceOver(n, log, a) == NonceOver(n, log[..i], a)
    decreases |log|
  {
    if i == |log| {
      assert log[..i] == log;
    } else {
      assert Init(log)[..i] == log[..i];
      NonceErrStays(n, Init(log), i, a);
    }
  }

  lemma {:induction false} BalanceErrStays(b: Word, log: seq<Action>, i: nat, a: Address)
    requires i <= |log| && BalanceOver(b, log[..i], a).Err?
    ensures BalanceOver(b, log, a) == BalanceOver(b, log[..i], a)
    decreases |log|
  {
    if i == |log| {
      assert log[..i] == log;
    } else {
      assert Init(log)[..i] == log[..i];
      BalanceErrStays(b, Init(log), i, a);
    }
  }

  lemma {:induction false} DeployedStays(log: seq<Action>, i: nat, a: Address)
    requires i <= |log| && Deployed(log[..i], a).Some?
    ensures Deployed(log, a) == Deployed(log[..i], a)
    decreases |log|
  {
    if i == |log| {
      assert log[..i] == log;
    } else {
      assert Init(log)[..i] == log[..i];
      DeployedStays(Init(log), i, a);
    }
  }

  lemma PrefixStep(log: seq<Action>, i: nat)
    requires i < |log|
    ensures log[..i + 1] != [] && Init(log[..i + 1]) == log[..i] && Last(log[..i + 1]) == log[i]
  {
  }

  // ---- The state, changed in place ------------------------------------------------------------------

  class ExecutorState {
    var actions: seq<Action>
    var stack: seq<nat>

    constructor ()
      ensures actions == [] && stack == []
    {
      actions, stack := [], [];
    }

    method Nonce(backend: World, from: Address) returns (r: Result<nat>)
      ensures r == NonceOver(Accounts.Nonce(backend, from), actions, from)
    {
      var nonce := Accounts.Nonce(backend, from);
      for i := 0 to |actions|
        invariant NonceOver(Accounts.Nonce(backend, from), actions[..i], from) == Ok(nonce)
      {
        PrefixStep(actions, i);
        if actions[i].EvmIncrementNonce? && actions[i].address == from {
          if nonce >= U64_MAX {
            NonceErrStays(Accounts.Nonce(backend, from), actions, i + 1, from);
            return Err(IntegerOverflow);
          }
          nonce := nonce + 1;
        }
      }
      assert actions[..|actions|] == actions;
      r := Ok(nonce);
    }

    method Balance(backend: World, from: Address) returns (r: Result<Word>)
      ensures r == BalanceOver(Accounts.Balance(backend, from), actions, from)
    {
      var balance := Accounts.Balance(backend, from);
      for i := 0 to |actions|
        invariant BalanceOver(Accounts.Balance(backend, from), actions[..i], from) == Ok(balance)
      {
        PrefixStep(actions, i);
        var step := BalanceStep(balance, actions[i], from);
        if step.Err? {
          BalanceErrStays(Accounts.Balance(backend, from), actions, i + 1, from);
          return step;
        }
        balance := step.value;
      }
      assert actions[..|actions|] == actions;
      r := Ok(balance);
    }

    /** `code`; the length is what `code_size` returns for an ordinary address. */
    method Code(backend: World, from: Address) returns (code: seq<Byte>)
      requires WorldOk(backend)
      ensures code == CodeOver(Accounts.Code(backend, from), actions, from)
    {
      for i := 0 to |actions|
        invariant Deployed(actions[..i], from) == None
      {
        PrefixStep(actions, i);
        if actions[i].EvmSetCode? && actions[i].address == from {
          DeployedStays(actions, i + 1, from);
          return actions[i].code;
        }
      }
      assert actions[..|actions|] == actions;
      code := Accounts.Code(backend, from);
    }

    method Storage(backend: World, from: Address, index: Word) returns (v: Word32)
      requires WorldOk(backend)
      ensures v == StorageOver(Accounts.Storage(backend, from, index), actions, from, index)
    {
      var i := |actions|;
      assert actions[..i] == actions;
      while i > 0
        invariant i <= |actions|
        invariant StorageOver(Accounts.Storage(backend, from, index), actions, from, index)
               == StorageOver(Accounts.Storage(backend, from, index), actions[..i], from, index)
      {
        i := i - 1;
        PrefixStep(actions, i);
        if actions[i].EvmSetStorage? && actions[i].address == from && actions[i].index == index {
          return actions[i].slot;
        }
      }
      v := Accounts.Storage(backend, from, index);
    }

    method Push(action: Action)
      modifies this`actions
      ensures actions == old(actions) + [action]
      ensures Init(actions) == old(actions) && Last(actions) == action
    {
      actions := actions + [action];
    }

    /** A transfer is logged only when the journal's own balance covers it, so the log stays
        covered. */
    method Transfer(backend: World, source: Address, target: Address, value: Word) returns (r: Result<()>)
      modifies this`actions
      ensures actions == if value != 0 && source != target && r.Ok?
                         then old(actions) + [NeonTransfer(source, target, value)] else old(actions)
      ensures r.Ok? <==>
        || value == 0 || source == target
        || (var b := BalanceOver(Accounts.Balance(backend, source), old(actions), source); b.Ok? && b.value >= value)
      ensures Covered(Balances(backend), old(actions)) ==> Covered(Balances(backend), actions)
    {
      if value == 0 || source == target {
        return Ok(());
      }
      var balance := Balance(backend, source);
      if balance.Err? {
        return Err(balance.error);
      }
      if balance.value < value {
        return Err(InsufficientBalance);
      }
      ReadIsLedger(Balances(backend), Accounts.Balance(backend, source), actions, source);
      Push(NeonTransfer(source, target, value));
      r := Ok(());
    }

    method SetCode(address: Address, code: seq<Byte>) returns (r: Result<()>)
      modifies this`actions
      ensures r.Ok? <==> |code| <= CODE_SIZE_LIMIT
      ensures actions == if r.Ok? then old(actions) + [EvmSetCode(address, code)] else old(actions)
    {
      if |code| > CODE_SIZE_LIMIT {
        return Err(ContractCodeSizeLimit);
      }
      Push(EvmSetCode(address, code));
      r := Ok(());
    }

    method Snapshot()
      modifies this`stack
      ensures stack == old(stack) + [|actions|]
    {
      stack := stack + [|actions|];
    }

    /** `panicked` stands for an empty stack or a failed sanity check. */
    method RevertSnapshot() returns (panicked: bool)
      modifies this
      ensures panicked <==>
        || old(stack) == []
        || (|old(stack)| == 1 && !(|actions| == 1 && actions[0].EvmIncrementNonce?))
      ensures old(stack) != [] ==> stack == Init(old(stack))
      ensures old(stack) != [] ==>
        actions == if Last(old(stack)) <= |old(actions)| then old(actions)[..Last(old(stack))] else old(actions)
    {
      if stack == [] {
        return true;
      }
      var len := Last(stack);
      stack := Init(stack);
      if len <= |actions| {
        actions := actions[..len];
      }
      panicked := stack == [] && !(|actions| == 1 && actions[0].EvmIncrementNonce?);
    }

    method CommitSnapshot() returns (panicked: bool)
      modifies this`stack
      ensures panicked <==> old(stack) == []
      ensures old(stack) != [] ==> stack == Init(old(stack))
    {
      if stack == [] {
        return true;
      }
      stack := Init(stack);
      panicked := false;
    }
  }
}
