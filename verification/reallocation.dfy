/** Reallocation over several instructions: an account grows by at most 10240 bytes per instruction,
    so a change may be postponed. The number of postponements is the emulator's prediction. */
module Reallocation {
  import opened Opcodes
  import opened WordArithmetic
  import opened StorageLayout
  import opened Accounts
  import opened Ledgers
  import opened Journal
  import opened Apply
  import opened ApplyRefinement

  /** The world after `k` postponed attempts at the same change. */
  function Attempts(w: World, needed: map<Address, nat>, k: nat): World {
    if k == 0 then w else
      var before := Attempts(w, needed, k - 1);
      Processed(before, Operations(before, needed))
  }

  function Current(w: World, a: Address): nat {
    if SpaceOf(w, a).Some? then SpaceOf(w, a).value else 0
  }

  // ---- Sizes over the attempts ----------------------------------------------------------------

  lemma ProcessedSpace(w: World, ops: map<Address, Operation>, a: Address)
    requires a in ops && a in w.ether ==> ACCOUNT_SIZE + |w.ether[a].data| <= Reached(ops[a])
    ensures SpaceOf(Processed(w, ops), a) == if a in ops then Some(Reached(ops[a])) else SpaceOf(w, a)
  {
  }

  /** One attempt on an account of size `space` that must reach `goal`. */
  function Attempt(space: Option<nat>, goal: nat): Option<nat> {
    var current := if space.Some? then space.value else 0;
    if space.None? || current < goal then Some(Min(goal, current + MAX_PERMITTED_DATA_INCREASE)) else space
  }

  function SizeAfter(space: Option<nat>, goal: nat, k: nat): Option<nat> {
    var current := if space.Some? then space.value else 0;
    if k > 0 && (space.None? || current < goal) then Some(Min(goal, current + k * MAX_PERMITTED_DATA_INCREASE))
    else space
  }

  lemma OneMoreAttempt(space: Option<nat>, goal: nat, k: nat)
    requires k > 0
    ensures Attempt(SizeAfter(space, goal, k - 1), goal) == SizeAfter(space, goal, k)
  {
  }

  lemma AttemptSpace(w: World, needed: map<Address, nat>, a: Address)
    ensures SpaceOf(Processed(w, Operations(w, needed)), a) ==
            if a in needed then Attempt(SpaceOf(w, a), needed[a]) else SpaceOf(w, a)
  {
    ProcessedSpace(w, Operations(w, needed), a);
  }

  lemma {:induction false} SpaceAfter(w: World, needed: map<Address, nat>, k: nat, a: Address)
    ensures SpaceOf(Attempts(w, needed, k), a) ==
            if a in needed then SizeAfter(SpaceOf(w, a), needed[a], k) else SpaceOf(w, a)
  {
    if k > 0 {
      var before := Attempts(w, needed, k - 1);
      SpaceAfter(w, needed, k - 1, a);
      SpaceAfterOne(w, before, needed, k, a);
    }
  }

  lemma SpaceAfterOne(w: World, before: World, needed: map<Address, nat>, k: nat, a: Address)
    requires k > 0
    requires SpaceOf(before, a) == if a in needed then SizeAfter(SpaceOf(w, a), needed[a], k - 1) else SpaceOf(w, a)
    ensures SpaceOf(Processed(before, Operations(before, needed)), a) ==
            if a in needed then SizeAfter(SpaceOf(w, a), needed[a], k) else SpaceOf(w, a)
  {
    AttemptSpace(before, needed, a);
    if a in needed {
      OneMoreAttempt(SpaceOf(w, a), needed[a], k);
    }
  }

  // ---- The prediction -------------------------------------------------------------------------

  /** `additional_resize_steps` with saturating subtractions. */
  function ResizeSteps(current: nat, size: nat): nat {
    var lacking: nat := if size > current then size - current else 0;
    (if lacking > 0 then lacking - 1 else 0) / MAX_PERMITTED_DATA_INCREASE
  }

  lemma StepsFit(current: nat, size: nat, k: nat)
    ensures size <= current + (k + 1) * MAX_PERMITTED_DATA_INCREASE <==> ResizeSteps(current, size) <= k
  {
  }

  predicate IsPrediction(w: World, ops: map<Address, Operation>, iterations: nat) {
    && (forall a :: a in ops ==> ResizeSteps(Current(w, a), Goal(ops[a])) <= iterations)
    && (iterations > 0 ==> exists a :: a in ops && ResizeSteps(Current(w, a), Goal(ops[a])) == iterations)
  }

  const U64_RANGE: nat := U64_MAX + 1
  const LAMPORTS_PER_SIGNATURE: nat := 5000

  /** The resize instructions, in a product that wraps. */
  function ResizeCost(iterations: nat): nat {
    iterations * LAMPORTS_PER_SIGNATURE % U64_RANGE
  }

  /** What each account costs in rent once it has its size. */
  function Rents(ops: map<Address, Operation>, rent: nat -> nat, of: set<Address>): map<Address, int> {
    map a | a in of && a in ops :: rent(Goal(ops[a]))
  }

  ghost function TotalRent(ops: map<Address, Operation>, rent: nat -> nat): nat {
    SumNonNegative(Rents(ops, rent, ops.Keys));
    Sum(Rents(ops, rent, ops.Keys))
  }

  lemma RentOfOne(ops: map<Address, Operation>, rent: nat -> nat, of: set<Address>, a: Address)
    requires a in of && a in ops
    ensures Sum(Rents(ops, rent, of)) == rent(Goal(ops[a])) + Sum(Rents(ops, rent, of - {a}))
  {
    SumWithout(Rents(ops, rent, of), a);
    assert Rents(ops, rent, of) - {a} == Rents(ops, rent, of - {a});
  }

  /** `iterations` is the prediction for the operations outside `todo`. */
  predicate Counted(w: World, ops: map<Address, Operation>, todo: set<Address>, iterations: nat) {
    && (forall a :: a in ops && a !in todo ==> ResizeSteps(Current(w, a), Goal(ops[a])) <= iterations)
    && (iterations > 0 ==>
        exists a :: a in ops && a !in todo && ResizeSteps(Current(w, a), Goal(ops[a])) == iterations)
  }

  lemma CountOne(w: World, ops: map<Address, Operation>, todo: set<Address>, a: Address, iterations: nat, steps: nat)
    requires Counted(w, ops, todo, iterations) && a in todo && a in ops
    requires steps == ResizeSteps(Current(w, a), Goal(ops[a]))
    ensures Counted(w, ops, todo - {a}, if steps > iterations then steps else iterations)
  {
    if steps <= iterations && iterations > 0 {
      var c :| c in ops && c !in todo && ResizeSteps(Current(w, c), Goal(ops[c])) == iterations;
      assert c !in todo - {a};
    }
  }

  /** The rent of the operations outside `todo`. */
  ghost predicate Added(ops: map<Address, Operation>, rent: nat -> nat, todo: set<Address>, gas: nat) {
    var rest := Sum(Rents(ops, rent, todo));
    TotalRent(ops, rent) >= rest && gas == Min(U64_MAX, TotalRent(ops, rent) - rest)
  }

  lemma AddOne(ops: map<Address, Operation>, rent: nat -> nat, todo: set<Address>, a: Address, gas: nat)
    requires Added(ops, rent, todo, gas) && a in todo && a in ops
    ensures Added(ops, rent, todo - {a}, Min(U64_MAX, gas + rent(Goal(ops[a]))))
  {
    RentOfOne(ops, rent, todo, a);
  }

  /** `apply_accounts_operations`: the largest number of additional resize steps, and the exact cost of
      rent and resize instructions unless it saturates or the product wraps. */
  method PredictIterations(w: World, ops: map<Address, Operation>, rent: nat -> nat) returns (iterations: nat, gas: nat)
    ensures IsPrediction(w, ops, iterations)
    ensures gas == Min(U64_MAX, TotalRent(ops, rent) + ResizeCost(iterations))
  {
    iterations, gas := 0, 0;
    var todo := ops.Keys;
    while todo != {}
      invariant todo <= ops.Keys && Counted(w, ops, todo, iterations) && Added(ops, rent, todo, gas)
      decreases |todo|
    {
      var a :| a in todo;
      var steps := ResizeSteps(Current(w, a), Goal(ops[a]));
      CountOne(w, ops, todo, a, iterations, steps);
      AddOne(ops, rent, todo, a, gas);
      todo := todo - {a};
      if steps > iterations {
        iterations := steps;
      }
      gas := Min(U64_MAX, gas + rent(Goal(ops[a])));
    }
    assert Rents(ops, rent, {}) == map[];
    gas := Min(U64_MAX, gas + ResizeCost(iterations));
  }

  lemma AttemptReaches(w: World, needed: map<Address, nat>, k: nat, a: Address)
    requires a in needed && Lacks(w, a, needed[a])
    ensures
      var v := Attempts(w, needed, k);
      (Lacks(v, a, needed[a]) ==> Reached(OperationFor(v, a, needed[a])) >= needed[a])
      <==> ResizeSteps(Current(w, a), needed[a]) <= k
  {
    SpaceAfter(w, needed, k, a);
    StepsFit(Current(w, a), needed[a], k);
    var c := Current(w, a);
    assert c + (k + 1) * MAX_PERMITTED_DATA_INCREASE
        == c + k * MAX_PERMITTED_DATA_INCREASE + MAX_PERMITTED_DATA_INCREASE;
  }

  /** Attempt number `k` still needs more reallocations exactly when `k` is below the prediction. */
  lemma PredictionIsExact(w: World, needed: map<Address, nat>, iterations: nat, k: nat)
    requires IsPrediction(w, Operations(w, needed), iterations)
    ensures
      var v := Attempts(w, needed, k);
      AllReached(Operations(v, needed)) <==> k >= iterations
  {
    var v := Attempts(w, needed, k);
    var first, ops := Operations(w, needed), Operations(v, needed);
    if k >= iterations {
      forall a | a in ops ensures Reached(ops[a]) >= Goal(ops[a]) {
        SpaceAfter(w, needed, k, a);
        assert a in first;
        AttemptReaches(w, needed, k, a);
      }
    } else {
      var a :| a in first && ResizeSteps(Current(w, a), Goal(first[a])) == iterations;
      AttemptReaches(w, needed, k, a);
      assert a in ops && Reached(ops[a]) < Goal(ops[a]);
    }
  }

  /** Reads do not change while a change is postponed. */
  lemma {:induction false} AttemptsRead(w: World, needed: map<Address, nat>, k: nat)
    requires WorldOk(w)
    ensures WorldOk(Attempts(w, needed, k)) && SameReads(w, Attempts(w, needed, k))
  {
    if k > 0 {
      AttemptsRead(w, needed, k - 1);
      var before := Attempts(w, needed, k - 1);
      ProcessedReads(before, Operations(before, needed));
      SameReadsTrans(w, before, Attempts(w, needed, k));
    }
  }

  /** Repeating a change whose log stays the same is postponed exactly as often as predicted, and
      then carried out. */
  lemma PostponedAsPredicted(w: World, log: seq<Action>, iterations: nat, k: nat)
    requires IsPrediction(w, Operations(w, Needed(Rearranged(log))), iterations)
    ensures
      var needed := Needed(Rearranged(log));
      var r := StateChange(Attempts(w, needed, k), log);
      if k < iterations then r == Done(NeedMoreReallocations(Attempts(w, needed, k + 1)))
      else r == ApplyActions(Attempts(w, needed, k + 1), Rearranged(log))
  {
    PredictionIsExact(w, Needed(Rearranged(log)), iterations, k);
  }

  /** However often it was postponed, a change that becomes ready gives what the journal read over
      the accounts as they were before the first attempt. */
  lemma RefinementAfterPostponing(w: World, log: seq<Action>, k: nat, v: World, a: Address, index: Word)
    requires WorldOk(w) && a !in Destroyed(log)
    requires StateChange(Attempts(w, Needed(Rearranged(log)), k), log) == Done(Ready(v))
    ensures WorldOk(v)
    ensures NonceOver(Nonce(w, a), log, a) == Journal.Ok(Nonce(v, a))
    ensures CodeOver(Code(w, a), log, a) == Code(v, a)
    ensures StorageOver(Storage(w, a, index), log, a, index) == Storage(v, a, index)
  {
    AttemptsRead(w, Needed(Rearranged(log)), k);
    var u := Attempts(w, Needed(Rearranged(log)), k);
    assert SameReadsAt(w, u, a);
    JournalRefinement(u, log, v, a, index);
  }

  // ---- Space and existence once ready ---------------------------------------------------------

  predicate Roomy(w: World, action: Action) {
    Demand(action).Some? ==>
      var (a, size) := Demand(action).value;
      SpaceOf(w, a).Some? && SpaceOf(w, a).value >= SpaceNeeded(size)
  }

  predicate RoomyFor(w: World, actions: seq<Action>) {
    forall i :: 0 <= i < |actions| ==> Roomy(w, actions[i])
  }

  lemma {:induction false} NeededCovers(actions: seq<Action>, i: nat)
    requires i < |actions| && Demand(actions[i]).Some?
    ensures Demand(actions[i]).value.0 in Needed(actions)
    ensures Needed(actions)[Demand(actions[i]).value.0] >= SpaceNeeded(Demand(actions[i]).value.1)
    decreases |actions|
  {
    if i < |actions| - 1 {
      assert Init(actions)[i] == actions[i];
      NeededCovers(Init(actions), i);
    }
  }

  lemma ReachedIsRoomy(w: World, actions: seq<Action>)
    requires AllReached(Operations(w, Needed(actions)))
    ensures RoomyFor(Processed(w, Operations(w, Needed(actions))), actions)
  {
    var needed := Needed(actions);
    var ops := Operations(w, needed);
    forall i | 0 <= i < |actions| ensures Roomy(Processed(w, ops), actions[i]) {
      if Demand(actions[i]).Some? {
        NeededCovers(actions, i);
        AttemptSpace(w, needed, Demand(actions[i]).value.0);
      }
    }
  }

  predicate SameSpace(w: World, v: World) {
    forall a: Address :: SpaceOf(v, a) == SpaceOf(w, a)
  }

  lemma CreateSameSpace(w: World, a: Address)
    requires CreateIfMissing(w, a).Done?
    ensures SameSpace(w, CreateIfMissing(w, a).value) && a in CreateIfMissing(w, a).value.ether
    ensures w.ether.Keys <= CreateIfMissing(w, a).value.ether.Keys
  {
  }

  /** No account is missing when it has to be initialized. */
  lemma {:induction false} CreatedRoomy(w: World, actions: seq<Action>)
    requires RoomyFor(w, actions)
    ensures Created(w, actions).Done? && SameSpace(w, Created(w, actions).value)
    decreases |actions|
  {
    if actions != [] {
      CreatedRoomy(w, Init(actions));
      assert Roomy(w, Last(actions));
      var before := Created(w, Init(actions)).value;
      if Demand(Last(actions)).Some? {
        CreateSameSpace(before, Demand(Last(actions)).value.0);
      }
    }
  }

  lemma StepSameSpace(p: Progress, action: Action)
    requires Roomy(p.world, action)
    ensures Step(p, action) != Failed(NotEnoughSpace)
    ensures Step(p, action).Done? ==> SameSpace(p.world, Step(p, action).value.world)
  {
  }

  lemma {:induction false} FoldRoomy(p: Progress, actions: seq<Action>)
    requires RoomyFor(p.world, actions)
    ensures Fold(p, actions) != Failed(NotEnoughSpace)
    ensures Fold(p, actions).Done? ==> SameSpace(p.world, Fold(p, actions).value.world)
    decreases |actions|
  {
    if actions != [] {
      FoldRoomy(p, Init(actions));
      assert Roomy(p.world, Last(actions));
      if Fold(p, Init(actions)).Done? {
        StepSameSpace(Fold(p, Init(actions)).value, Last(actions));
      }
    }
  }

  /** The space assertion of `deploy_contract` cannot fail, nor can the creation of a missing account. */
  lemma DeployHasSpace(w: World, log: seq<Action>)
    requires AllReached(Operations(w, Needed(Rearranged(log))))
    ensures
      var grown := Processed(w, Operations(w, Needed(Rearranged(log))));
      Created(grown, Rearranged(log)).Done?
    ensures StateChange(w, log) != Failed(NotEnoughSpace)
  {
    var actions := Rearranged(log);
    var grown := Processed(w, Operations(w, Needed(actions)));
    ReachedIsRoomy(w, actions);
    CreatedRoomy(grown, actions);
    FoldRoomy(Progress(Created(grown, actions).value, map[]), actions);
  }
}
