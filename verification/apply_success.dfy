/** When applying a log succeeds, read off the log and the accounts before it. */
module ApplySuccess {
  import opened Opcodes
  import opened WordArithmetic
  import opened StorageLayout
  import opened Accounts
  import opened Ledgers
  import opened Journal
  import opened Apply
  import opened ApplyRefinement
  import opened Conservation
  import opened Reallocation

  // ---- One deployment --------------------------------------------------------------------------

  /** Code is deployed exactly to an account that is there, carries none, and has the space, and only if
      there is any code; then the account carries it. */
  lemma DeploysIff(w: World, a: Address, code: seq<Byte>)
    requires WorldOk(w)
    ensures
      var r := DeployedTo(w, a, code);
      && (r.Done? <==>
          && a in w.ether && Code(w, a) == [] && code != []
          && ACCOUNT_SIZE + |w.ether[a].data| >= ACCOUNT_SIZE + |code| + INTERNAL_STORAGE_SIZE)
      && (r.Done? ==> WorldOk(r.value) && Code(r.value, a) == code)
  {
    if a in w.ether {
      CodeSizeMeans(w.ether[a]);
    }
    if DeployedTo(w, a, code).Done? {
      DeployReads(w, a, code);
    }
  }

  lemma CodeSizeMeans(x: Account)
    requires AccountOk(x)
    ensures x.codeSize == 0 <==> CodeOf(x) == []
  {
    if x.codeSize > 0 {
      assert |CodeOf(x)| == x.codeSize;
    }
  }

  // ---- What an action asks for -----------------------------------------------------------------

  /** The action creates the account if it is missing. */
  predicate Calls(action: Action, a: Address) {
    match action
    case NeonTransfer(_, target, _) => target == a
    case EvmSetCode(address, _) => address == a
    case EvmSelfDestruct(address) => address == a
    case _ => false
  }

  predicate Called(log: seq<Action>, a: Address) {
    exists i :: 0 <= i < |log| && Calls(log[i], a)
  }

  /** The account is there when the actions are carried out. */
  predicate Present(w: World, log: seq<Action>, a: Address) {
    a in w.ether || Called(log, a)
  }

  function Increments(log: seq<Action>, a: Address): nat
    decreases |log|
  {
    if log == [] then 0 else Increments(Init(log), a) + if Last(log) == EvmIncrementNonce(a) then 1 else 0
  }

  function Destructions(log: seq<Action>, a: Address): nat
    decreases |log|
  {
    if log == [] then 0 else Destructions(Init(log), a) + if Last(log) == EvmSelfDestruct(a) then 1 else 0
  }

  /** The action opens a storage account: it writes something else than zero to a slot of it. */
  predicate Opens(action: Action, a: Address, c: Word) {
    && action.EvmSetStorage? && action.address == a && action.index >= STATIC_ENTRIES
    && action.slot != ZERO && ChunkOf(action.index) == c
  }

  predicate Opened(chunks: map<Word, Chunk>, before: seq<Action>, a: Address, c: Word) {
    c in chunks || exists j :: 0 <= j < |before| && Opens(before[j], a, c)
  }

  /** A slot can be written: it is kept with the contract, its storage account is open, or no open one has
      the same address. */
  ghost predicate SlotFits(chunks: map<Word, Chunk>, before: seq<Action>, a: Address, index: Word) {
    || index < STATIC_ENTRIES
    || Opened(chunks, before, a, ChunkOf(index))
    || forall d: Word :: Opened(chunks, before, a, d) ==> d % SEED_RANGE != ChunkOf(index) % SEED_RANGE
  }

  /** What the action at position `i` needs, beside funds and space. */
  ghost predicate Fits(w: World, log: seq<Action>, i: nat)
    requires WorldOk(w) && i < |log|
  {
    match log[i]
    case ExternalInstruction(id) => id !in w.refused
    case NeonTransfer(source, _, _) => Present(w, log, source)
    case NeonWithdraw(source, _) => Present(w, log, source)
    case EvmIncrementNonce(a) =>
      a !in Destroyed(log) ==> Present(w, log, a) && Nonce(w, a) + Increments(log[..i], a) < U64_MAX
    case EvmSetCode(a, code) =>
      a !in Destroyed(log) ==> code != [] && Code(w, a) == [] && Deployed(log[..i], a) == None
    case EvmSelfDestruct(a) => Generation(w, a) + Destructions(log[..i], a) < U32_MAX
    case EvmSetStorage(a, index, _) =>
      a !in Destroyed(log) ==>
        (Code(w, a) != [] || Deployed(log, a) != None) && SlotFits(ChunksAt(w, a), log[..i], a, index)
  }

  ghost predicate AllFit(w: World, log: seq<Action>)
    requires WorldOk(w)
  {
    forall i :: 0 <= i < |log| ==> Fits(w, log, i)
  }

  // ---- Accounts that are there -----------------------------------------------------------------

  lemma CallsAppend(xs: seq<Action>, ys: seq<Action>, a: Address)
    ensures Called(xs + ys, a) <==> Called(xs, a) || Called(ys, a)
  {
    if i :| 0 <= i < |xs| && Calls(xs[i], a) {
      assert Calls((xs + ys)[i], a);
    }
    if i :| 0 <= i < |ys| && Calls(ys[i], a) {
      assert Calls((xs + ys)[|xs| + i], a);
    }
  }

  lemma CallsLast(log: seq<Action>, a: Address)
    requires log != []
    ensures Called(log, a) <==> Called(Init(log), a) || Calls(Last(log), a)
  {
    CallsAppend(Init(log), [Last(log)], a);
    assert log == Init(log) + [Last(log)];
    if Called([Last(log)], a) {
      assert Calls([Last(log)][0], a);
    }
    if Calls(Last(log), a) {
      assert Calls([Last(log)][0], a);
    }
  }

  lemma {:induction false} CreatedAccounts(w: World, actions: seq<Action>, a: Address)
    requires Created(w, actions).Done?
    ensures
      var v := Created(w, actions).value;
      (a in v.ether <==> Present(w, actions, a)) && v.refused == w.refused
    decreases |actions|
  {
    if actions != [] {
      CreatedAccounts(w, Init(actions), a);
      CallsLast(actions, a);
    }
  }

  lemma {:induction false} CalledKept(log: seq<Action>, destroyed: set<Address>, a: Address)
    ensures Called(Kept(log, destroyed), a) ==> Called(log, a)
    ensures Called(log, a) ==> Called(Kept(log, destroyed), a) || a in destroyed || a in Destroyed(log)
    ensures Called(Destructs(log), a) <==> a in Destroyed(log)
    decreases |log|
  {
    if log != [] {
      CalledKept(Init(log), destroyed, a);
      CallsLast(log, a);
      var kept, last := Kept(Init(log), destroyed), Last(log);
      CallsAppend(kept, [last], a);
      CallsAppend(Destructs(Init(log)), [last], a);
      CallsOne(last, a);
      assert kept + [] == kept && Destructs(Init(log)) + [] == Destructs(Init(log));
    }
  }

  lemma CallsOne(action: Action, a: Address)
    ensures Called([action], a) <==> Calls(action, a)
  {
    if Calls(action, a) {
      assert Calls([action][0], a);
    }
  }

  lemma {:induction false} DestroyedCalled(log: seq<Action>, a: Address)
    requires a in Destroyed(log)
    ensures Called(log, a)
    decreases |log|
  {
    CallsLast(log, a);
    if !Calls(Last(log), a) {
      DestroyedCalled(Init(log), a);
    }
  }

  /** Rearranging calls for the same accounts. */
  lemma CalledRearranged(log: seq<Action>, a: Address)
    ensures Called(Rearranged(log), a) <==> Called(log, a)
  {
    CallsAppend(Kept(log, Destroyed(log)), Destructs(log), a);
    CalledKept(log, Destroyed(log), a);
    if a in Destroyed(log) {
      DestroyedCalled(log, a);
    }
  }

  // ---- The kept actions ------------------------------------------------------------------------

  /** What a kept action needs of the accounts `w` it starts from, after `before`. */
  predicate KeptFits(w: World, before: seq<Action>, action: Action)
    requires WorldOk(w)
  {
    match action
    case ExternalInstruction(id) => id !in w.refused
    case NeonTransfer(source, target, _) => source in w.ether && target in w.ether
    case NeonWithdraw(source, _) => source in w.ether
    case EvmIncrementNonce(a) => a in w.ether && Nonce(w, a) + Increments(before, a) < U64_MAX
    case EvmSetCode(a, code) => a in w.ether && code != [] && Code(w, a) == [] && Deployed(before, a) == None
    case _ => true
  }

  lemma {:induction false} NonceCounts(n: nat, log: seq<Action>, a: Address)
    requires NonceOver(n, log, a).Ok?
    ensures NonceOver(n, log, a).value == n + Increments(log, a)
    decreases |log|
  {
    if log != [] {
      NonceCounts(n, Init(log), a);
    }
  }

  /** Where the actions kept so far have led, as far as the next one is concerned. */
  ghost predicate Along(w: World, before: seq<Action>, v: World, action: Action)
    requires WorldOk(w) && WorldOk(v)
  {
    && v.ether.Keys == w.ether.Keys && v.refused == w.refused
    && Roomy(v, action) && Affordable(Balances(v), action)
    && (action.EvmIncrementNonce? ==>
        Nonce(v, action.address) == Nonce(w, action.address) + Increments(before, action.address))
    && (action.EvmSetCode? ==>
        (Code(v, action.address) == [] <==> Code(w, action.address) == [] && Deployed(before, action.address) == None))
  }

  lemma KeptStepIff(w: World, before: seq<Action>, p: Progress, action: Action)
    requires WorldOk(w) && WorldOk(p.world) && Along(w, before, p.world, action) && !action.EvmSelfDestruct?
    ensures Step(p, action).Done? <==> KeptFits(w, before, action)
  {
    if action.EvmSetCode? {
      DeployStepIff(w, before, p, action.address, action.code);
    } else {
      OtherStepIff(w, before, p, action);
    }
  }

  lemma DeployStepIff(w: World, before: seq<Action>, p: Progress, a: Address, code: seq<Byte>)
    requires WorldOk(w) && WorldOk(p.world) && Along(w, before, p.world, EvmSetCode(a, code))
    ensures Step(p, EvmSetCode(a, code)).Done? <==> KeptFits(w, before, EvmSetCode(a, code))
  {
    DeploysIff(p.world, a, code);
  }

  lemma OtherStepIff(w: World, before: seq<Action>, p: Progress, action: Action)
    requires WorldOk(w) && WorldOk(p.world) && Along(w, before, p.world, action)
    requires !action.EvmSelfDestruct? && !action.EvmSetCode?
    ensures Step(p, action).Done? <==> KeptFits(w, before, action)
  {
  }

  /** The start of the fold: the log is covered and everyone has the space. */
  ghost predicate Starts(p: Progress, log: seq<Action>, destroyed: set<Address>) {
    && WorldOk(p.world) && Covered(Balances(p.world), log) && Supply(p.world) < WORD
    && forall i :: 0 <= i < |log| && Keeps(log[i], destroyed) ==> Roomy(p.world, log[i])
  }

  lemma StartsPrefix(p: Progress, log: seq<Action>, destroyed: set<Address>)
    requires log != [] && Starts(p, log, destroyed)
    ensures Starts(p, Init(log), destroyed)
    ensures Keeps(log[|log| - 1], destroyed) ==> Roomy(p.world, log[|log| - 1])
  {
    forall i | 0 <= i < |log| - 1 && Keeps(Init(log)[i], destroyed) ensures Roomy(p.world, Init(log)[i]) {
      assert Init(log)[i] == log[i];
    }
  }

  lemma {:induction false} KeptRefused(p: Progress, log: seq<Action>, destroyed: set<Address>)
    requires Fold(p, Kept(log, destroyed)).Done?
    ensures Fold(p, Kept(log, destroyed)).value.world.refused == p.world.refused
    decreases |log|
  {
    if log != [] {
      FoldKept(p, log, destroyed);
      KeptRefused(p, Init(log), destroyed);
    }
  }

  lemma {:induction false} KeptSpace(p: Progress, log: seq<Action>, destroyed: set<Address>)
    requires Starts(p, log, destroyed) && Fold(p, Kept(log, destroyed)).Done?
    ensures SameSpace(p.world, Fold(p, Kept(log, destroyed)).value.world)
    decreases |log|
  {
    if log != [] {
      FoldKept(p, log, destroyed);
      StartsPrefix(p, log, destroyed);
      KeptSpace(p, Init(log), destroyed);
      if Keeps(Last(log), destroyed) {
        SameRoom(p.world, Fold(p, Kept(Init(log), destroyed)).value.world, Last(log));
        StepSameSpace(Fold(p, Kept(Init(log), destroyed)).value, Last(log));
      }
    }
  }

  lemma SameRoom(w: World, v: World, action: Action)
    requires SameSpace(w, v) && Roomy(w, action)
    ensures Roomy(v, action)
  {
  }

  lemma KeptAlong(p: Progress, log: seq<Action>, destroyed: set<Address>)
    requires log != [] && Starts(p, log, destroyed) && Keeps(Last(log), destroyed)
    requires Fold(p, Kept(Init(log), destroyed)).Done?
    ensures WorldOk(Fold(p, Kept(Init(log), destroyed)).value.world)
    ensures Along(p.world, Init(log), Fold(p, Kept(Init(log), destroyed)).value.world, Last(log))
  {
    var before, action := Init(log), Last(log);
    var q := Fold(p, Kept(before, destroyed)).value;
    StartsPrefix(p, log, destroyed);
    FoldOk(p, Kept(before, destroyed));
    KeptRefused(p, before, destroyed);
    KeptSpace(p, before, destroyed);
    SameRoom(p.world, q.world, action);
    CoveredToOthers(Balances(p.world), before);
    KeptMoves(p, before, destroyed);
    if action.EvmIncrementNonce? {
      KeptNonce(p, before, destroyed, action.address);
      NonceCounts(Nonce(p.world, action.address), before, action.address);
    } else if action.EvmSetCode? {
      KeptCode(p, before, destroyed, action.address);
    }
  }

  ghost predicate AllKeptFit(w: World, log: seq<Action>, destroyed: set<Address>)
    requires WorldOk(w)
  {
    forall i :: 0 <= i < |log| && Keeps(log[i], destroyed) ==> KeptFits(w, log[..i], log[i])
  }

  lemma AllKeptFitStep(w: World, log: seq<Action>, destroyed: set<Address>)
    requires WorldOk(w) && log != []
    ensures AllKeptFit(w, log, destroyed) <==>
            && AllKeptFit(w, Init(log), destroyed)
            && (Keeps(Last(log), destroyed) ==> KeptFits(w, Init(log), Last(log)))
  {
    var front := Init(log);
    assert forall i :: 0 <= i < |front| ==> front[i] == log[i] && front[..i] == log[..i];
    assert log[..|log| - 1] == front;
  }

  /** The kept actions go through exactly when each has what it needs. */
  lemma {:induction false} KeptIff(p: Progress, log: seq<Action>, destroyed: set<Address>)
    requires Starts(p, log, destroyed)
    ensures Fold(p, Kept(log, destroyed)).Done? <==> AllKeptFit(p.world, log, destroyed)
    decreases |log|
  {
    if log != [] {
      StartsPrefix(p, log, destroyed);
      KeptIff(p, Init(log), destroyed);
      FoldKept(p, log, destroyed);
      AllKeptFitStep(p.world, log, destroyed);
      if Fold(p, Kept(Init(log), destroyed)).Done? && Keeps(Last(log), destroyed) {
        KeptAlong(p, log, destroyed);
        KeptStepIff(p.world, Init(log), Fold(p, Kept(Init(log), destroyed)).value, Last(log));
      }
    }
  }

  // ---- The self-destructs ----------------------------------------------------------------------

  predicate DestructsFit(w: World, log: seq<Action>) {
    forall i :: 0 <= i < |log| && log[i].EvmSelfDestruct? ==>
      Generation(w, log[i].address) + Destructions(log[..i], log[i].address) < U32_MAX
  }

  lemma DestructsFitStep(w: World, log: seq<Action>)
    requires log != []
    ensures DestructsFit(w, log) <==>
            && DestructsFit(w, Init(log))
            && (Last(log).EvmSelfDestruct? ==>
                Generation(w, Last(log).address) + Destructions(Init(log), Last(log).address) < U32_MAX)
  {
    var front := Init(log);
    assert forall i :: 0 <= i < |front| ==> front[i] == log[i] && front[..i] == log[..i];
    assert log[..|log| - 1] == front;
  }

  lemma {:induction false} DestructsCount(p: Progress, log: seq<Action>, a: Address)
    requires Fold(p, Destructs(log)).Done?
    ensures
      var q := Fold(p, Destructs(log)).value;
      && q.world.ether.Keys == p.world.ether.Keys
      && (a in p.world.ether ==> Generation(q.world, a) == Generation(p.world, a) + Destructions(log, a))
    decreases |log|
  {
    if log != [] {
      FoldDestructs(p, log);
      DestructsCount(p, Init(log), a);
    }
  }

  lemma {:induction false} DestructsIff(p: Progress, log: seq<Action>)
    requires Destroyed(log) <= p.world.ether.Keys
    ensures Fold(p, Destructs(log)).Done? <==> DestructsFit(p.world, log)
    decreases |log|
  {
    if log != [] {
      FoldDestructs(p, log);
      DestructsFitStep(p.world, log);
      DestructsIff(p, Init(log));
      if Fold(p, Destructs(Init(log))).Done? && Last(log).EvmSelfDestruct? {
        DestructsCount(p, Init(log), Last(log).address);
      }
    }
  }

  // ---- The collected writes --------------------------------------------------------------------

  function WritesTo(log: seq<Action>, a: Address): seq<Write>
    decreases |log|
  {
    if log == [] then []
    else
      WritesTo(Init(log), a)
      + if Last(log).EvmSetStorage? && Last(log).address == a then [(Last(log).index, Last(log).slot)] else []
  }

  lemma {:induction false} KeptWrites(p: Progress, log: seq<Action>, destroyed: set<Address>, a: Address)
    requires p.pending == map[] && Fold(p, Kept(log, destroyed)).Done?
    ensures
      var q := Fold(p, Kept(log, destroyed)).value;
      if a in destroyed then a !in q.pending
      else PendingFor(q.pending, a) == WritesTo(log, a) && (a in q.pending <==> WritesTo(log, a) != [])
    decreases |log|
  {
    if log != [] {
      FoldKept(p, log, destroyed);
      KeptWrites(p, Init(log), destroyed, a);
    }
  }

  /** All writes of the log to `a` fit its storage accounts. */
  ghost predicate WritesFit(chunks: map<Word, Chunk>, log: seq<Action>, a: Address) {
    forall i :: 0 <= i < |log| && log[i].EvmSetStorage? && log[i].address == a ==>
      SlotFits(chunks, log[..i], a, log[i].index)
  }

  lemma WritesFitStep(chunks: map<Word, Chunk>, log: seq<Action>, a: Address)
    requires log != []
    ensures WritesFit(chunks, log, a) <==>
            && WritesFit(chunks, Init(log), a)
            && (Last(log).EvmSetStorage? && Last(log).address == a ==>
                SlotFits(chunks, Init(log), a, Last(log).index))
  {
    var front := Init(log);
    assert forall i :: 0 <= i < |front| ==> front[i] == log[i] && front[..i] == log[..i];
    assert log[..|log| - 1] == front;
  }

  lemma OpenedStep(chunks: map<Word, Chunk>, log: seq<Action>, a: Address, c: Word)
    requires log != []
    ensures Opened(chunks, log, a, c) <==> Opened(chunks, Init(log), a, c) || Opens(Last(log), a, c)
  {
    if j :| 0 <= j < |Init(log)| && Opens(Init(log)[j], a, c) {
      assert Opens(log[j], a, c);
    }
    if Opens(Last(log), a, c) {
      assert Opens(log[|log| - 1], a, c);
    }
    if j :| 0 <= j < |log| && Opens(log[j], a, c) {
      assert j == |log| - 1 || Opens(Init(log)[j], a, c);
    }
  }

  /** After the writes, the open storage accounts are those that were open and those they opened. */
  predicate OpenAre(x: Account, chunks: map<Word, Chunk>, before: seq<Action>, a: Address) {
    forall c: Word :: c in x.chunks <==> Opened(chunks, before, a, c)
  }

  lemma SlotIff(x: Account, chunks: map<Word, Chunk>, before: seq<Action>, a: Address, index: Word, value: Word32)
    requires OpenAre(x, chunks, before, a) && |x.data| >= INTERNAL_STORAGE_SIZE
    ensures WriteSlot(x, (index, value)).Done? <==> SlotFits(chunks, before, a, index)
    ensures WriteSlot(x, (index, value)).Done? ==>
      var y := WriteSlot(x, (index, value)).value;
      && |y.data| == |x.data|
      && forall c: Word :: c in y.chunks <==> c in x.chunks || Opens(EvmSetStorage(a, index, value), a, c)
  {
    var c := ChunkOf(index);
    if index >= STATIC_ENTRIES && c !in x.chunks {
      assert AddressTaken(x.chunks, c) <==>
             exists d: Word :: Opened(chunks, before, a, d) && d % SEED_RANGE == c % SEED_RANGE by {
        if d: Word :| Opened(chunks, before, a, d) && d % SEED_RANGE == c % SEED_RANGE {
          assert d in x.chunks;
        }
      }
    }
  }

  lemma {:induction false} WritesIff(x: Account, log: seq<Action>, a: Address)
    requires |x.data| >= INTERNAL_STORAGE_SIZE
    ensures WriteSlots(x, WritesTo(log, a)).Done? <==> WritesFit(x.chunks, log, a)
    ensures WriteSlots(x, WritesTo(log, a)).Done? ==>
      var y := WriteSlots(x, WritesTo(log, a)).value;
      |y.data| == |x.data| && OpenAre(y, x.chunks, log, a)
    decreases |log|
  {
    if log != [] {
      WritesIff(x, Init(log), a);
      WritesFitStep(x.chunks, log, a);
      var before, last := WriteSlots(x, WritesTo(Init(log), a)), Last(log);
      if last.EvmSetStorage? && last.address == a {
        WritesAppend(x, WritesTo(Init(log), a), (last.index, last.slot));
        if before.Done? {
          SlotIff(before.value, x.chunks, Init(log), a, last.index, last.slot);
        }
      } else {
        assert WritesTo(log, a) == WritesTo(Init(log), a);
      }
      OpenedAfter(x.chunks, log, a);
    }
  }

  lemma OpenedAfter(chunks: map<Word, Chunk>, log: seq<Action>, a: Address)
    requires log != []
    ensures forall c: Word :: Opened(chunks, log, a, c) <==> Opened(chunks, Init(log), a, c) || Opens(Last(log), a, c)
  {
    forall c: Word ensures Opened(chunks, log, a, c) <==> Opened(chunks, Init(log), a, c) || Opens(Last(log), a, c) {
      OpenedStep(chunks, log, a, c);
    }
  }

  lemma WritesAppend(x: Account, writes: seq<Write>, write: Write)
    ensures WriteSlots(x, writes + [write]) ==
            var before := WriteSlots(x, writes);
            if before.Failed? then before else WriteSlot(before.value, write)
  {
    assert Init(writes + [write]) == writes;
  }

  // ---- The whole change ------------------------------------------------------------------------

  /** Applying `log` to `w` gets to the actions themselves, and they start from `p`. */
  ghost predicate Started(w: World, log: seq<Action>, p: Progress)
    requires WorldOk(w)
  {
    && WorldOk(p.world) && SameReads(w, p.world) && p.pending == map[] && Starts(p, log, Destroyed(log))
    && p.world.refused == w.refused
    && forall a: Address :: (a in p.world.ether <==> Present(w, log, a)) && ChunksAt(p.world, a) == ChunksAt(w, a)
  }

  lemma StartsFrom(w: World, log: seq<Action>) returns (p: Progress)
    requires WorldOk(w) && Covered(Balances(w), log) && Supply(w) < WORD
    requires AllReached(Operations(w, Needed(Rearranged(log))))
    ensures Started(w, log, p)
    ensures StateChange(w, log) == match Fold(p, Rearranged(log))
                                   case Failed(f) => Failed(f)
                                   case Done(q) => Finished(WrittenOut(q.world, q.pending))
  {
    var actions := Rearranged(log);
    var grown := Processed(w, Operations(w, Needed(actions)));
    ReachedIsRoomy(w, actions);
    CreatedRoomy(grown, actions);
    p := Progress(Created(grown, actions).value, map[]);
    StartReads(w, actions, p.world);
    StartBalances(w, actions);
    CoveredSameGets(Balances(w), Balances(p.world), log);
    KeptRoomy(grown, log, p.world);
    StartAccounts(w, log, p.world);
  }

  lemma StartReads(w: World, actions: seq<Action>, v: World)
    requires WorldOk(w) && Created(Processed(w, Operations(w, Needed(actions))), actions) == Done(v)
    ensures WorldOk(v) && SameReads(w, v)
  {
    var grown := Processed(w, Operations(w, Needed(actions)));
    ProcessedReads(w, Operations(w, Needed(actions)));
    CreatedReads(grown, actions);
    SameReadsTrans(w, grown, v);
  }

  lemma StartAccounts(w: World, log: seq<Action>, v: World)
    requires Created(Processed(w, Operations(w, Needed(Rearranged(log)))), Rearranged(log)) == Done(v)
    ensures v.refused == w.refused
    ensures forall a: Address :: (a in v.ether <==> Present(w, log, a)) && ChunksAt(v, a) == ChunksAt(w, a)
  {
    var actions := Rearranged(log);
    var grown := Processed(w, Operations(w, Needed(actions)));
    CreatedAccounts(grown, actions, 0);
    forall a: Address ensures (a in v.ether <==> Present(w, log, a)) && ChunksAt(v, a) == ChunksAt(w, a) {
      CreatedAccounts(grown, actions, a);
      CalledRearranged(log, a);
      CreatedChunks(grown, actions, a);
    }
  }

  lemma {:induction false} KeptIn(log: seq<Action>, destroyed: set<Address>, i: nat)
    requires i < |log| && Keeps(log[i], destroyed)
    ensures log[i] in Kept(log, destroyed)
    decreases |log|
  {
    if i < |log| - 1 {
      assert Init(log)[i] == log[i];
      KeptIn(Init(log), destroyed, i);
    }
  }

  /** Space for the rearranged actions is space for those that are kept. */
  lemma KeptRoomy(grown: World, log: seq<Action>, v: World)
    requires RoomyFor(grown, Rearranged(log)) && SameSpace(grown, v)
    ensures forall i :: 0 <= i < |log| && Keeps(log[i], Destroyed(log)) ==> Roomy(v, log[i])
  {
    var kept := Kept(log, Destroyed(log));
    forall i | 0 <= i < |log| && Keeps(log[i], Destroyed(log)) ensures Roomy(v, log[i]) {
      KeptIn(log, Destroyed(log), i);
      RoomyInFront(grown, kept, Destructs(log), log[i]);
      SameRoom(grown, v, log[i]);
    }
  }

  lemma RoomyInFront(w: World, front: seq<Action>, back: seq<Action>, action: Action)
    requires RoomyFor(w, front + back) && action in front
    ensures Roomy(w, action)
  {
    var j :| 0 <= j < |front| && front[j] == action;
    assert (front + back)[j] == action;
  }

  /** What the writes need. */
  ghost predicate StorageFits(w: World, log: seq<Action>, a: Address)
    requires WorldOk(w)
  {
    WritesTo(log, a) != [] ==>
      (Code(w, a) != [] || Deployed(log, a) != None) && WritesFit(ChunksAt(w, a), log, a)
  }

  ghost predicate AllStorageFit(w: World, log: seq<Action>)
    requires WorldOk(w)
  {
    forall a: Address :: a !in Destroyed(log) ==> StorageFits(w, log, a)
  }

  lemma {:induction false} HasWrites(log: seq<Action>, a: Address)
    ensures WritesTo(log, a) != [] <==> exists i :: 0 <= i < |log| && log[i].EvmSetStorage? && log[i].address == a
    decreases |log|
  {
    if log != [] {
      HasWrites(Init(log), a);
      if i :| 0 <= i < |log| - 1 && Init(log)[i].EvmSetStorage? && Init(log)[i].address == a {
        assert log[i].EvmSetStorage?;
      }
      if Last(log).EvmSetStorage? && Last(log).address == a {
        assert log[|log| - 1].EvmSetStorage?;
      }
      if i :| 0 <= i < |log| && log[i].EvmSetStorage? && log[i].address == a {
        assert i == |log| - 1 || Init(log)[i].EvmSetStorage?;
      }
    }
  }

  /** The conditions on the log are those of the stages. */
  lemma FitsByStages(w: World, log: seq<Action>, p: Progress)
    requires WorldOk(w) && Started(w, log, p)
    ensures AllFit(w, log) <==>
            AllKeptFit(p.world, log, Destroyed(log)) && DestructsFit(p.world, log) && AllStorageFit(w, log)
  {
    if AllFit(w, log) {
      FitsGive(w, log, p);
    }
    if AllKeptFit(p.world, log, Destroyed(log)) && DestructsFit(p.world, log) && AllStorageFit(w, log) {
      forall i | 0 <= i < |log| ensures Fits(w, log, i) {
        StagesGive(w, log, p, i);
      }
    }
  }

  lemma CalledHere(log: seq<Action>, i: nat, a: Address)
    requires i < |log| && Calls(log[i], a)
    ensures Called(log, a)
  {
  }

  lemma StagesGive(w: World, log: seq<Action>, p: Progress, i: nat)
    requires WorldOk(w) && Started(w, log, p) && i < |log|
    requires AllKeptFit(p.world, log, Destroyed(log)) && DestructsFit(p.world, log) && AllStorageFit(w, log)
    ensures Fits(w, log, i)
  {
    var action := log[i];
    match action
    case EvmSetStorage(a, index, _) =>
      if a !in Destroyed(log) {
        HasWrites(log, a);
        assert StorageFits(w, log, a);
      }
    case EvmSelfDestruct(a) => assert SameReadsAt(w, p.world, a);
    case EvmIncrementNonce(a) => assert SameReadsAt(w, p.world, a);
    case EvmSetCode(a, _) => assert SameReadsAt(w, p.world, a);
    case _ =>
  }

  lemma FitsGive(w: World, log: seq<Action>, p: Progress)
    requires WorldOk(w) && Started(w, log, p) && AllFit(w, log)
    ensures AllKeptFit(p.world, log, Destroyed(log)) && DestructsFit(p.world, log) && AllStorageFit(w, log)
  {
    forall i | 0 <= i < |log| && Keeps(log[i], Destroyed(log)) ensures KeptFits(p.world, log[..i], log[i]) {
      FitsGiveKept(w, log, p, i);
    }
    forall i | 0 <= i < |log| && log[i].EvmSelfDestruct?
      ensures Generation(p.world, log[i].address) + Destructions(log[..i], log[i].address) < U32_MAX
    {
      assert Fits(w, log, i) && SameReadsAt(w, p.world, log[i].address);
    }
    forall a: Address | a !in Destroyed(log) ensures StorageFits(w, log, a) {
      HasWrites(log, a);
      if WritesTo(log, a) != [] {
        var i :| 0 <= i < |log| && log[i].EvmSetStorage? && log[i].address == a;
        assert Fits(w, log, i);
      }
      forall i | 0 <= i < |log| && log[i].EvmSetStorage? && log[i].address == a
        ensures SlotFits(ChunksAt(w, a), log[..i], a, log[i].index)
      {
        assert Fits(w, log, i);
      }
    }
  }

  lemma FitsGiveKept(w: World, log: seq<Action>, p: Progress, i: nat)
    requires WorldOk(w) && Started(w, log, p) && i < |log| && Fits(w, log, i) && Keeps(log[i], Destroyed(log))
    ensures KeptFits(p.world, log[..i], log[i])
  {
    match log[i]
    case NeonTransfer(_, target, _) => CalledHere(log, i, target);
    case EvmSetCode(a, _) =>
      CalledHere(log, i, a);
      assert SameReadsAt(w, p.world, a);
    case EvmIncrementNonce(a) => assert SameReadsAt(w, p.world, a);
    case _ =>
  }

  /** The collected writes go out exactly when they fit. */
  lemma WrittenIff(w: World, log: seq<Action>, p: Progress, kept: Progress, end: Progress)
    requires WorldOk(w) && Started(w, log, p) && Fold(p, Kept(log, Destroyed(log))) == Done(kept)
    requires Fold(kept, Destructs(log)) == Done(end)
    ensures WrittenOut(end.world, end.pending).Done? <==> AllStorageFit(w, log)
  {
    forall a: Address
      ensures a in Destroyed(log) ==> a !in end.pending
      ensures a !in Destroyed(log) ==> ((a in end.pending ==> CanWrite(end.world, a,
              end.pending[a])) <==> StorageFits(w, log, a))
    {
      OneWrittenIff(w, log, p, kept, end, a);
    }
    if AllStorageFit(w, log) {
      forall a | a in end.pending ensures CanWrite(end.world, a, end.pending[a]) {
        assert a !in Destroyed(log) && StorageFits(w, log, a);
      }
    }
  }

  lemma OneWrittenIff(w: World, log: seq<Action>, p: Progress, kept: Progress, end: Progress, a: Address)
    requires WorldOk(w) && Started(w, log, p) && Fold(p, Kept(log, Destroyed(log))) == Done(kept)
    requires Fold(kept, Destructs(log)) == Done(end)
    ensures a in Destroyed(log) ==> a !in end.pending
    ensures a !in Destroyed(log) ==> ((a in end.pending ==> CanWrite(end.world, a,
                                                                     end.pending[a])) <==> StorageFits(w, log, a))
  {
    KeptWrites(p, log, Destroyed(log), a);
    if a in Destroyed(log) {
      DestructsForget(kept, log, a);
    } else {
      DestructsSpare(kept, log, a);
      KeptCode(p, log, Destroyed(log), a);
      KeptChunks(p, log, Destroyed(log), a);
      assert SameReadsAt(w, p.world, a);
      if a in kept.world.ether {
        CodeSizeMeans(kept.world.ether[a]);
        if kept.world.ether[a].codeSize != 0 {
          WritesIff(kept.world.ether[a], log, a);
        }
      }
    }
  }

  lemma {:induction false} DestructsForget(p: Progress, log: seq<Action>, a: Address)
    requires Fold(p, Destructs(log)).Done? && a !in p.pending
    ensures a !in Fold(p, Destructs(log)).value.pending
    decreases |log|
  {
    if log != [] {
      FoldDestructs(p, log);
      DestructsForget(p, Init(log), a);
    }
  }

  /** Once the accounts have their space, a covered log applies exactly when every action fits. */
  lemma CoveredAppliesIff(w: World, log: seq<Action>)
    requires WorldOk(w) && Covered(Balances(w), log) && Supply(w) < WORD
    requires AllReached(Operations(w, Needed(Rearranged(log))))
    ensures StateChange(w, log).Done? <==> AllFit(w, log)
  {
    var p := StartsFrom(w, log);
    var destroyed := Destroyed(log);
    FitsByStages(w, log, p);
    KeptIff(p, log, destroyed);
    FoldConcat(p, Kept(log, destroyed), Destructs(log));
    if Fold(p, Kept(log, destroyed)).Done? {
      var kept := Fold(p, Kept(log, destroyed)).value;
      FoldOk(p, Kept(log, destroyed));
      DestroyedPresent(w, log, p);
      DestructsIff(kept, log);
      SameDestructs(p, log, kept);
      if Fold(kept, Destructs(log)).Done? {
        WrittenIff(w, log, p, kept, Fold(kept, Destructs(log)).value);
      }
    }
  }

  lemma DestroyedPresent(w: World, log: seq<Action>, p: Progress)
    requires WorldOk(w) && Started(w, log, p)
    ensures Destroyed(log) <= p.world.ether.Keys
  {
    forall a | a in Destroyed(log) ensures a in p.world.ether {
      DestroyedCalled(log, a);
    }
  }

  lemma SameDestructs(p: Progress, log: seq<Action>, kept: Progress)
    requires Fold(p, Kept(log, Destroyed(log))) == Done(kept)
    ensures DestructsFit(kept.world, log) <==> DestructsFit(p.world, log)
  {
    forall a: Address ensures Generation(kept.world, a) == Generation(p.world, a) {
      KeptChunks(p, log, Destroyed(log), a);
    }
  }

  /** A log without transfers to oneself is applied exactly when every account gets its space in this
      instruction, the balances cover it, and every action has what it needs of the accounts before:
      no external instruction is refused; whoever pays or counts a nonce is there; nonces and generations
      stay below their limits; code is deployed once, not empty, and where there was none; and slots are
      written where there is code, to storage accounts whose address is free or theirs. */
  lemma AppliesIff(w: World, log: seq<Action>)
    requires WorldOk(w) && AllToOthers(log) && Supply(w) < WORD
    ensures StateChange(w, log).Done? && StateChange(w, log).value.Ready? <==>
            && AllReached(Operations(w, Needed(Rearranged(log))))
            && Covered(Balances(w), log) && AllFit(w, log)
  {
    if StateChange(w, log).Done? && StateChange(w, log).value.Ready? {
      ReadyConserves(w, log, StateChange(w, log).value.world);
    }
    if AllReached(Operations(w, Needed(Rearranged(log)))) && Covered(Balances(w), log) {
      CoveredAppliesIff(w, log);
    }
  }

  /** For instance, a creation that returns no code: its log can never be applied. */
  lemma EmptyCodeNeverApplies(w: World, log: seq<Action>, i: nat, a: Address)
    requires WorldOk(w) && AllToOthers(log) && Supply(w) < WORD
    requires i < |log| && log[i] == EvmSetCode(a, []) && a !in Destroyed(log)
    ensures !(StateChange(w, log).Done? && StateChange(w, log).value.Ready?)
  {
    AppliesIff(w, log);
    assert AllFit(w, log) ==> Fits(w, log, i);
  }
}
