/** Nonces over interleavings: frozen while a transaction is in flight, consumed at most once. */
module ReplaySafety {
  import opened Opcodes
  import opened WordArithmetic
  import opened StorageLayout
  import opened Accounts
  import opened Journal
  import opened Apply
  import opened ApplyRefinement
  import opened Protocol
  import opened ProtocolLaws
  import opened LockIsolation
  import CallFrames
  import FrameLaws
  import FrameCoverage
  import FrameCode

  // ---- Nonces under a change -------------------------------------------------------------------

  /** For an account that is not destroyed, applying never lowers the nonce, and a completed change of
      its own transaction raises it. */
  lemma AppliedNonce(w: World, addresses: set<Address>, result: Option<seq<Action>>, c: Address)
    requires WorldOk(w) && c in w.ether && ApplyResults(w, addresses, result).Some?
    requires result.Some? ==> c !in Destroyed(result.value)
    ensures
      var (v, done) := ApplyResults(w, addresses, result).value;
      && Nonce(v, c) >= Nonce(w, c)
      && (done && c in addresses && result.Some? && result.value != [] && result.value[0] == EvmIncrementNonce(c) ==>
          Nonce(v, c) > Nonce(w, c))
      && (c !in addresses || !done ==> Nonce(v, c) == Nonce(w, c))
  {
    if result.Some? {
      AppliedConfined(w, addresses, result);
      if c in addresses {
        var sub := Sub(w, addresses);
        SubOk(w, addresses);
        var v := StateChange(sub, result.value).value.world;
        ChangeKeys(sub, result.value, v);
        SubNonce(sub, result.value, v, c);
      }
    }
  }

  lemma SubNonce(sub: World, log: seq<Action>, v: World, c: Address)
    requires WorldOk(sub) && c in sub.ether && c !in Destroyed(log)
    requires StateChange(sub, log) == Done(Ready(v)) || StateChange(sub, log) == Done(NeedMoreReallocations(v))
    ensures StateChange(sub, log).value.NeedMoreReallocations? ==> Nonce(v, c) == Nonce(sub, c)
    ensures Nonce(v, c) >= Nonce(sub, c)
    ensures StateChange(sub, log).value.Ready? && log != [] && log[0] == EvmIncrementNonce(c) ==>
            Nonce(v, c) > Nonce(sub, c)
  {
    if StateChange(sub, log).value.Ready? {
      JournalRefinement(sub, log, v, c, 0);
      NonceGrows(Nonce(sub, c), log, c);
    } else {
      var ops := Operations(sub, Needed(Rearranged(log)));
      ProcessedReads(sub, ops);
      assert SameReadsAt(sub, Processed(sub, ops), c);
    }
  }

  // ---- What the claims assume of a step ---------------------------------------------------------

  /** Logs start with their caller's nonce increment and do not destroy `c`, and nonces stay clear of the
      end of 64 bits. */
  predicate Honest(g: Global, s: Step, c: Address) {
    match s
    case ContinueStep(k, _, _, _, _, result) =>
      result.Some? && k in g.slots && g.slots[k].InFlight? ==> OwnLog(result.value, g.slots[k].state.caller, c)
    case ExecuteStep(_, trx, _, _, log, _) => OwnLog(log, trx.caller, c)
    case CancelStep(k, _, _, _, _) =>
      k in g.slots && g.slots[k].InFlight? ==>
        Nonce(g.world, c) + Bumps(g.slots[k].state.blocked, g.slots[k].state.caller) <= U64_MAX
    case _ => true
  }

  predicate OwnLog(log: seq<Action>, caller: Address, c: Address) {
    log != [] && log[0] == EvmIncrementNonce(caller) && c !in Destroyed(log)
  }

  // ---- Frozen while in flight ------------------------------------------------------------------

  /** As long as a transaction in flight holds an account and stays in flight, no instruction changes
      that account's nonce, whatever the logs. */
  lemma NonceFrozen(g: Global, s: Step, l: nat, c: Address)
    requires WorldOk(g.world) && LocksOk(g) && c in HeldAt(g, l) && InFlightAt(Next(g, s), l)
    ensures Nonce(Next(g, s).world, c) == Nonce(g.world, c)
  {
    HeldReads(g, s, l, c);
  }

  // ---- Consumed once ---------------------------------------------------------------------------

  /** Every transaction of `c` in flight holds `c` and carries its current nonce. */
  ghost predicate InFlightOk(g: Global, c: Address) {
    forall k: nat :: k in g.slots && g.slots[k].InFlight? && g.slots[k].state.caller == c ==>
      c in HeldAt(g, k) && g.slots[k].state.nonce == Nonce(g.world, c)
  }

  /** The nonces `c` consumed are strictly increasing, and all below its current one. */
  predicate ConsumedOk(consumed: seq<(Address, nat)>, c: Address, nonce: nat) {
    && (forall i :: 0 <= i < |consumed| && consumed[i].0 == c ==> consumed[i].1 < nonce)
    && (forall i, j :: 0 <= i < j < |consumed| && consumed[i].0 == c && consumed[j].0 == c ==>
        consumed[i].1 < consumed[j].1)
  }

  ghost predicate NoReplay(g: Global, c: Address) {
    c in g.world.ether && InFlightOk(g, c) && ConsumedOk(g.consumed, c, Nonce(g.world, c))
  }

  lemma ConsumeOne(consumed: seq<(Address, nat)>, c: Address, nonce: nat, entry: (Address, nat), after: nat)
    requires ConsumedOk(consumed, c, nonce) && nonce <= after
    requires entry.0 == c ==> entry.1 == nonce < after
    ensures ConsumedOk(consumed + [entry], c, after)
  {
  }

  /** The nonce of `c` moves as the step's effect on what `c` consumed allows. */
  predicate NonceMoves(g: Global, h: Global, c: Address) {
    && Nonce(h.world, c) >= Nonce(g.world, c)
    && (h.consumed == g.consumed
        || (|h.consumed| == |g.consumed| + 1 && h.consumed == g.consumed + [Last(h.consumed)]
            && (Last(h.consumed).0 == c ==> Last(h.consumed).1 == Nonce(g.world, c) < Nonce(h.world, c))))
  }

  lemma ContinueMoves(g: Global, k: nat, op: Operator, now: nat, passed: seq<Passed>, gas: nat,
                      result: Option<seq<Action>>, c: Address)
    requires WorldOk(g.world) && LocksOk(g) && NoReplay(g, c)
    requires Honest(g, ContinueStep(k, op, now, passed, gas, result), c)
    requires Continue(g, k, op, now, passed, gas, result).Some?
    ensures NonceMoves(g, Continue(g, k, op, now, passed, gas, result).value, c)
  {
    ContinuedWorld(g, k, op, now, passed, gas, result);
    AppliedNonce(g.world, Addresses(passed), result, c);
    MatchedHeld(g, g.slots[k].state.blocked, passed, false);
    RestoredState(g, k, op.key, now, passed, false);
  }

  lemma CancelMoves(g: Global, k: nat, operator: nat, now: nat, passed: seq<Passed>, hash: nat, c: Address)
    requires WorldOk(g.world) && NoReplay(g, c) && Honest(g, CancelStep(k, operator, now, passed, hash), c)
    requires Cancel(g, k, operator, now, passed, hash).Some?
    ensures NonceMoves(g, Cancel(g, k, operator, now, passed, hash).value, c)
  {
    RestoredState(g, k, operator, now, passed, true);
    BumpsHeld(g.slots[k].state.blocked, c);
  }

  lemma ExecuteMoves(g: Global, op: Operator, trx: Trx, passed: seq<Passed>, gas: nat, log: seq<Action>, valid: bool,
                     c: Address)
    requires WorldOk(g.world) && NoReplay(g, c) && Honest(g, ExecuteStep(op, trx, passed, gas, log, valid), c)
    requires Execute(g, op, trx, passed, gas, log, valid).Some?
    ensures NonceMoves(g, Execute(g, op, trx, passed, gas, log, valid).value, c)
  {
    AppliedConfined(g.world, Addresses(passed), Some(log));
    AppliedNonce(g.world, Addresses(passed), Some(log), c);
    PayMoves(ApplyResults(g.world, Addresses(passed), Some(log)).value.0, trx.caller, op.account,
             SaturatingMul(gas, trx.gasPrice));
  }

  lemma StepMovesNonce(g: Global, s: Step, c: Address)
    requires WorldOk(g.world) && LocksOk(g) && NoReplay(g, c) && Honest(g, s, c)
    ensures NonceMoves(g, Next(g, s), c)
  {
    if Attempted(g, s).Some? {
      match s
      case BeginStep(_, op, _, trx, _, gas, _) =>
        PayMoves(g.world, trx.caller, op.account, SaturatingMul(gas, trx.gasPrice));
      case ContinueStep(k, op, now, passed, gas, result) => ContinueMoves(g, k, op, now, passed, gas, result, c);
      case CancelStep(k, operator, now, passed, hash) => CancelMoves(g, k, operator, now, passed, hash, c);
      case ExecuteStep(op, trx, passed, gas, log, valid) => ExecuteMoves(g, op, trx, passed, gas, log, valid, c);
      case _ =>
    }
  }

  lemma BegunOk(g: Global, s: Step, c: Address)
    requires s.BeginStep? && Attempted(g, s).Some? && s.trx.caller == c && c in g.world.ether
    ensures
      var h := Next(g, s);
      c in HeldAt(h, s.k) && h.slots[s.k].state.nonce == Nonce(h.world, c)
  {
    PayMoves(g.world, s.trx.caller, s.op.account, SaturatingMul(s.gas, s.trx.gasPrice));
    MetasHeld(g, s.passed);
  }

  lemma InFlightStays(g: Global, s: Step, c: Address)
    requires WorldOk(g.world) && LocksOk(g) && NoReplay(g, c) && Honest(g, s, c)
    ensures InFlightOk(Next(g, s), c)
  {
    var h := Next(g, s);
    forall k: nat | k in h.slots && h.slots[k].InFlight? && h.slots[k].state.caller == c
      ensures c in HeldAt(h, k) && h.slots[k].state.nonce == Nonce(h.world, c)
    {
      InFlightOrigin(g, s, k);
      if s.BeginStep? && s.k == k && Attempted(g, s).Some? {
        BegunOk(g, s, c);
      } else {
        PrefixHeld(g.slots[k].state.blocked, h.slots[k].state.blocked);
        NonceFrozen(g, s, k, c);
      }
    }
  }

  lemma HonestNoReplay(g: Global, s: Step, c: Address)
    requires WorldOk(g.world) && LocksOk(g) && NoReplay(g, c) && Honest(g, s, c)
    ensures NoReplay(Next(g, s), c)
  {
    var h := Next(g, s);
    WorldStays(g, s);
    InFlightStays(g, s, c);
    StepMovesNonce(g, s, c);
    if h.consumed != g.consumed {
      ConsumeOne(g.consumed, c, Nonce(g.world, c), Last(h.consumed), Nonce(h.world, c));
    }
  }

  // ---- An account without code -------------------------------------------------------------------

  function CodeNow(w: World, c: Address): seq<Byte> {
    if WorldOk(w) then Code(w, c) else []
  }

  /** `log` is what some transaction of `caller` left, run over accounts that may change from step to step
      but in which `c` has this code throughout. Frames without code only stop, and nothing is created at
      `c` while its nonce is unused. */
  ghost predicate RunOf(b: CallFrames.Backend, bs: seq<CallFrames.Backend>, chainId: Word, trx: CallFrames.Transaction,
                        caller: Address, created: Address, trace: FrameLaws.Trace, log: seq<Action>, code: seq<Byte>,
                        c: Address)
  {
    && |bs| == |trace| && Code(b.world, c) == code
    && (forall i :: 0 <= i < |bs| ==> Code(bs[i].world, c) == code)
    && CallFrames.NewMachine(b, chainId, trx, caller, created).Some?
    && (trx.target.None? ==> created != c)
    && var m := CallFrames.NewMachine(b, chainId, trx, caller, created).value;
    && FrameCode.Sensible(bs, m, trace, c)
    && FrameCode.Ran(bs, m, trace).Exited?
    && log == FrameCode.Ran(bs, m, trace).machine.log
  }

  ghost predicate FromRun(log: seq<Action>, caller: Address, code: seq<Byte>, c: Address) {
    exists b: CallFrames.Backend, bs: seq<CallFrames.Backend>, chainId: Word, trx: CallFrames.Transaction,
           created: Address, trace: FrameLaws.Trace ::
      RunOf(b, bs, chainId, trx, caller, created, trace, log, code, c)
  }

  /** Results come from runs of the machine over accounts in which `c` has the code it has, and nonces
      stay clear of the end of 64 bits. */
  ghost predicate Genuine(g: Global, s: Step, c: Address) {
    match s
    case ContinueStep(k, _, _, _, _, result) =>
      result.Some? && k in g.slots && g.slots[k].InFlight? ==>
        FromRun(result.value, g.slots[k].state.caller, CodeNow(g.world, c), c)
    case ExecuteStep(_, trx, _, _, log, _) => FromRun(log, trx.caller, CodeNow(g.world, c), c)
    case _ => Honest(g, s, c)
  }

  ghost predicate Codeless(g: Global, c: Address) {
    c in g.world.ether && CodeNow(g.world, c) == []
  }

  /** The log of a run over accounts in which `c` carries no code neither destroys nor deploys to `c`. */
  lemma RunIsOwn(log: seq<Action>, caller: Address, c: Address)
    requires FromRun(log, caller, [], c)
    ensures OwnLog(log, caller, c) && Deployed(log, c) == None
  {
    var b: CallFrames.Backend, bs: seq<CallFrames.Backend>, chainId: Word, trx: CallFrames.Transaction,
        created: Address, trace: FrameLaws.Trace :|
      RunOf(b, bs, chainId, trx, caller, created, trace, log, [], c);
    FrameCode.CodelessIsSpared(b, bs, chainId, trx, caller, created, trace, c);
    FrameCoverage.NewMachineGood(b, chainId, trx, caller, created);
    FrameCode.RanKeeps(bs, CallFrames.NewMachine(b, chainId, trx, caller, created).value, trace);
  }

  lemma GenuineIsHonest(g: Global, s: Step, c: Address)
    requires Codeless(g, c) && Genuine(g, s, c)
    ensures Honest(g, s, c)
  {
    match s
    case ContinueStep(k, _, _, _, _, result) =>
      if result.Some? && k in g.slots && g.slots[k].InFlight? {
        RunIsOwn(result.value, g.slots[k].state.caller, c);
      }
    case ExecuteStep(_, trx, _, _, log, _) => RunIsOwn(log, trx.caller, c);
    case _ =>
  }

  /** Applying a log that does not deploy to `c` leaves its code. */
  lemma AppliedCode(w: World, addresses: set<Address>, result: Option<seq<Action>>, c: Address)
    requires WorldOk(w) && c in w.ether && ApplyResults(w, addresses, result).Some?
    requires result.Some? ==> c !in Destroyed(result.value) && Deployed(result.value, c) == None
    ensures
      var v := ApplyResults(w, addresses, result).value.0;
      WorldOk(v) && c in v.ether && Code(v, c) == Code(w, c)
  {
    AppliedConfined(w, addresses, result);
    if result.Some? && c in addresses {
      AppliedPart(w, addresses, result.value, c);
    }
  }

  lemma AppliedPart(w: World, addresses: set<Address>, log: seq<Action>, c: Address)
    requires WorldOk(w) && c in w.ether && c in addresses && ApplyResults(w, addresses, Some(log)).Some?
    requires c !in Destroyed(log) && Deployed(log, c) == None
    ensures
      var v := ApplyResults(w, addresses, Some(log)).value.0;
      c in v.ether && (WorldOk(v) ==> Code(v, c) == Code(w, c))
  {
    var sub := Sub(w, addresses);
    SubOk(w, addresses);
    LoadedCode(w, addresses, c);
    var v := StateChange(sub, log).value.world;
    ChangeKeys(sub, log, v);
    SubCode(sub, log, v, c);
    MergedCode(w, v, addresses, c);
  }

  lemma LoadedCode(w: World, addresses: set<Address>, c: Address)
    requires WorldOk(w) && WorldOk(Sub(w, addresses)) && c in addresses
    ensures Code(Sub(w, addresses), c) == Code(w, c)
  {
  }

  lemma MergedCode(w: World, v: World, addresses: set<Address>, c: Address)
    requires WorldOk(v) && c in v.ether
    ensures c in Merge(w, v, addresses).ether
    ensures WorldOk(Merge(w, v, addresses)) ==> Code(Merge(w, v, addresses), c) == Code(v, c)
  {
  }

  lemma SubCode(sub: World, log: seq<Action>, v: World, c: Address)
    requires WorldOk(sub) && WorldOk(v) && c in sub.ether && c !in Destroyed(log) && Deployed(log, c) == None
    requires StateChange(sub, log) == Done(Ready(v)) || StateChange(sub, log) == Done(NeedMoreReallocations(v))
    ensures Code(v, c) == Code(sub, c)
  {
    if StateChange(sub, log).value.Ready? {
      JournalRefinement(sub, log, v, c, 0);
    } else {
      var ops := Operations(sub, Needed(Rearranged(log)));
      ProcessedReads(sub, ops);
      assert SameReadsAt(sub, Processed(sub, ops), c);
    }
  }

  lemma PaidCode(w: World, v: World, c: Address)
    requires WorldOk(w) && WorldOk(v) && OnlyBalances(w, v)
    ensures Code(v, c) == Code(w, c)
  {
  }

  /** No instruction gives code to an account that has none. */
  lemma CodelessStays(g: Global, s: Step, c: Address)
    requires WorldOk(g.world) && Codeless(g, c) && Genuine(g, s, c)
    ensures Codeless(Next(g, s), c)
  {
    WorldStays(g, s);
    if Attempted(g, s).Some? {
      match s
      case BeginStep(k, op, now, trx, passed, gas, valid) => BegunCode(g, k, op, now, trx, passed, gas, valid, c);
      case ContinueStep(k, op, now, passed, gas, result) =>
        ContinuedCode(g, k, op, now, passed, gas, result, c);
      case ExecuteStep(op, trx, passed, gas, log, valid) => ExecutedCode(g, op, trx, passed, gas, log, valid, c);
      case _ => OtherCode(g, s, c);
    }
  }

  lemma BegunCode(g: Global, k: nat, op: Operator, now: nat, trx: Trx, passed: seq<Passed>, gas: nat, valid: bool,
                  c: Address)
    requires WorldOk(g.world) && Codeless(g, c) && Begin(g, k, op, now, trx, passed, gas, valid).Some?
    ensures Codeless(Begin(g, k, op, now, trx, passed, gas, valid).value, c)
  {
    PayMoves(g.world, trx.caller, op.account, SaturatingMul(gas, trx.gasPrice));
    PaidCode(g.world, Begin(g, k, op, now, trx, passed, gas, valid).value.world, c);
  }

  lemma ContinuedCode(g: Global, k: nat, op: Operator, now: nat, passed: seq<Passed>, gas: nat,
                      result: Option<seq<Action>>, c: Address)
    requires WorldOk(g.world) && Codeless(g, c) && Continue(g, k, op, now, passed, gas, result).Some?
    requires Genuine(g, ContinueStep(k, op, now, passed, gas, result), c)
    ensures Codeless(Continue(g, k, op, now, passed, gas, result).value, c)
  {
    ContinuedWorld(g, k, op, now, passed, gas, result);
    if result.Some? {
      RunIsOwn(result.value, g.slots[k].state.caller, c);
    }
    AppliedCode(g.world, Addresses(passed), result, c);
    PaidCode(ApplyResults(g.world, Addresses(passed), result).value.0,
             Continue(g, k, op, now, passed, gas, result).value.world, c);
  }

  lemma ExecutedCode(g: Global, op: Operator, trx: Trx, passed: seq<Passed>, gas: nat, log: seq<Action>, valid: bool,
                     c: Address)
    requires WorldOk(g.world) && Codeless(g, c) && Execute(g, op, trx, passed, gas, log, valid).Some?
    requires Genuine(g, ExecuteStep(op, trx, passed, gas, log, valid), c)
    ensures Codeless(Execute(g, op, trx, passed, gas, log, valid).value, c)
  {
    RunIsOwn(log, trx.caller, c);
    AppliedCode(g.world, Addresses(passed), Some(log), c);
    var w := ApplyResults(g.world, Addresses(passed), Some(log)).value.0;
    PayMoves(w, trx.caller, op.account, SaturatingMul(gas, trx.gasPrice));
    PaidCode(w, Execute(g, op, trx, passed, gas, log, valid).value.world, c);
  }

  lemma OtherCode(g: Global, s: Step, c: Address)
    requires WorldOk(g.world) && c in g.world.ether && WorldOk(Next(g, s).world)
    requires !s.BeginStep? && !s.ContinueStep? && !s.ExecuteStep?
    ensures c in Next(g, s).world.ether && Code(Next(g, s).world, c) == Code(g.world, c)
  {
  }

  // ---- The claims --------------------------------------------------------------------------------

  lemma NoReplayStays(g: Global, s: Step, c: Address)
    requires WorldOk(g.world) && LocksOk(g) && NoReplay(g, c) && Codeless(g, c) && Genuine(g, s, c)
    ensures NoReplay(Next(g, s), c) && Codeless(Next(g, s), c)
  {
    GenuineIsHonest(g, s, c);
    HonestNoReplay(g, s, c);
    CodelessStays(g, s, c);
  }

  ghost predicate AllGenuine(g: Global, steps: seq<Step>, c: Address)
    decreases |steps|
  {
    steps != [] ==> AllGenuine(g, Init(steps), c) && Genuine(Played(g, Init(steps)), Last(steps), c)
  }

  /** Over every interleaving, no two finished, cancelled or single-shot transactions of a caller whose
      account exists and carries no code consume the same nonce; and it never gets code. */
  lemma {:induction false} ReplaySafety(g: Global, steps: seq<Step>, c: Address)
    requires WorldOk(g.world) && LocksOk(g) && NoReplay(g, c) && Codeless(g, c) && AllGenuine(g, steps, c)
    ensures NoReplay(Played(g, steps), c) && Codeless(Played(g, steps), c)
    decreases |steps|
  {
    if steps != [] {
      ReplaySafety(g, Init(steps), c);
      LockSafety(g, Init(steps));
      NoReplayStays(Played(g, Init(steps)), Last(steps), c);
    }
  }

  // ---- Cancelling counts per entry --------------------------------------------------------------

  /** Clear of the end of 64 bits, cancelling raises the caller's nonce by its number of entries in the
      list, so by one exactly when it is listed once. */
  lemma CancelCountsEntries(g: Global, k: nat, operator: nat, now: nat, passed: seq<Passed>, hash: nat)
    requires Cancel(g, k, operator, now, passed, hash).Some? && g.slots[k].state.caller in g.world.ether
    requires
      var st := g.slots[k].state;
      Nonce(g.world, st.caller) + Bumps(st.blocked, st.caller) <= U64_MAX
    ensures
      var st := g.slots[k].state;
      var after := Cancel(g, k, operator, now, passed, hash).value.world;
      && Nonce(after, st.caller) == Nonce(g.world, st.caller) + Bumps(st.blocked, st.caller)
      && (Nonce(after, st.caller) == Nonce(g.world, st.caller) + 1 <==> Bumps(st.blocked, st.caller) == 1)
  {
    RestoredState(g, k, operator, now, passed, true);
  }

  /** A transaction that begins with its caller's account passed twice lists it twice, so cancelling it
      uses up two nonces. */
  lemma PassedTwiceCountsTwice(g: Global, k: nat, op: Operator, now: nat, trx: Trx, gas: nat, valid: bool, later: nat)
    requires
      var passed := [Passed(Pda(trx.caller), true), Passed(Pda(trx.caller), true)];
      && trx.caller in g.world.ether && Nonce(g.world, trx.caller) + 2 <= U64_MAX
      && Begin(g, k, op, now, trx, passed, gas, valid).Some?
    ensures
      var passed := [Passed(Pda(trx.caller), true), Passed(Pda(trx.caller), true)];
      var begun := Begin(g, k, op, now, trx, passed, gas, valid).value;
      var cancelled := Cancel(begun, k, op.key, later, passed, trx.hash);
      && cancelled.Some?
      && Nonce(cancelled.value.world, trx.caller) == Nonce(begun.world, trx.caller) + 2 == trx.nonce + 2
  {
    var p := Passed(Pda(trx.caller), true);
    var passed := [p, p];
    var begun := Begin(g, k, op, now, trx, passed, gas, valid).value;
    var m := MetaOf(g, p);
    assert Init(passed) == [p] && Init([p]) == [];
    assert Metas(g, passed) == [m, m];
    assert Init([m, m]) == [m] && Init([m]) == [];
    assert Bumps([], trx.caller) == 0 && Bumps([m], trx.caller) == 1;
    assert Bumps([m, m], trx.caller) == 2;
    PayMoves(g.world, trx.caller, op.account, SaturatingMul(gas, trx.gasPrice));
    CancelCountsEntries(begun, k, op.key, later, passed, trx.hash);
  }
}
