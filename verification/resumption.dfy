/** `do_continue` up to applying: a run cut into iterations by step limits, with the machine and the
    journal saved as bytes in between, ends as the uncut run does. The exception is a run that ends
    because the outermost frame failed on a memory range: its machine cannot be saved. */
module Resumption {
  import opened Opcodes
  import opened WordBytes
  import opened WordArithmetic
  import opened Accounts
  import opened Journal
  import opened CallFrames
  import opened FrameLaws
  import opened FrameMemory
  import FrameCoverage
  import opened LegacyMachine
  import EvmMemory

  // ---- Saving and restoring --------------------------------------------------------------------

  /** A frame as it is saved: the bytes of its stack and of its memory up to the size, and its other
      fields. */
  datatype SavedFrame = SavedFrame(rest: Frame, stack: seq<Byte>, memory: seq<Byte>)

  datatype SavedMachine = SavedMachine(top: SavedFrame, parents: seq<SavedFrame>, log: seq<Action>, marks: seq<nat>)

  /** What a State account holds between iterations: machine and journal, and the exit status once
      the run is over. */
  datatype Saved = Saved(machine: SavedMachine, exit: Option<ExitStatus>)

  /** `None` for the panic on a memory whose size is beyond its capacity. */
  function SaveFrame(f: Frame): Option<SavedFrame> {
    match EvmMemory.SaveMem(f.memory)
    case None => None
    case Some(v) => Some(SavedFrame(f.(stack := [], memory := EvmMemory.Mem([], 0)), StackBytes(f.stack), v))
  }

  function LoadFrame(s: SavedFrame): Frame {
    s.rest.(stack := StackWords(s.stack), memory := EvmMemory.LoadMem(s.memory))
  }

  /** Every element in order, unless one has no image. */
  function MapAll<A, B>(f: A -> Option<B>, s: seq<A>): Option<seq<B>> {
    if s == [] then Some([])
    else
      match (MapAll(f, Init(s)), f(Last(s)))
      case (Some(front), Some(last)) => Some(front + [last])
      case _ => None
  }

  function Map<A, B>(f: A -> B, s: seq<A>): seq<B> {
    if s == [] then [] else Map(f, Init(s)) + [f(Last(s))]
  }

  lemma {:induction false} MapBack<A, B>(f: A -> Option<B>, g: B -> A, s: seq<A>)
    requires forall i :: 0 <= i < |s| ==> f(s[i]).Some? && g(f(s[i]).value) == s[i]
    ensures MapAll(f, s).Some? && Map(g, MapAll(f, s).value) == s
  {
    if s != [] {
      var front, last := s[..|s| - 1], s[|s| - 1];
      MapBack(f, g, front);
      MapAppend(g, MapAll(f, front).value, f(last).value);
      SplitLast(s, front, last);
    }
  }

  lemma SplitLast<A>(s: seq<A>, front: seq<A>, last: A)
    requires s != [] && front == s[..|s| - 1] && last == s[|s| - 1]
    ensures s == front + [last]
  {
  }

  lemma MapAppend<A, B>(g: B -> A, front: seq<B>, last: B)
    ensures Map(g, front + [last]) == Map(g, front) + [g(last)]
  {
    assert Init(front + [last]) == front && Last(front + [last]) == last;
  }

  function SaveMachine(m: Machine): Option<SavedMachine> {
    match (SaveFrame(m.top), MapAll(SaveFrame, m.parents))
    case (Some(top), Some(parents)) => Some(SavedMachine(top, parents, m.log, m.marks))
    case _ => None
  }

  function LoadMachine(s: SavedMachine): Machine {
    Machine(LoadFrame(s.top), Map(LoadFrame, s.parents), s.log, s.marks)
  }

  lemma FrameRestored(f: Frame)
    requires Tidy(f)
    ensures SaveFrame(f).Some? && LoadFrame(SaveFrame(f).value) == f
  {
    EvmMemory.RestoredMem(f.memory);
    StackRoundTrip(f.stack);
  }

  lemma FramesRestored(frames: seq<Frame>)
    requires TidyAll(frames)
    ensures MapAll(SaveFrame, frames).Some? && Map(LoadFrame, MapAll(SaveFrame, frames).value) == frames
  {
    forall i | 0 <= i < |frames|
      ensures SaveFrame(frames[i]).Some? && LoadFrame(SaveFrame(frames[i]).value) == frames[i]
    {
      FrameRestored(frames[i]);
    }
    MapBack(SaveFrame, LoadFrame, frames);
  }

  /** A machine in order is restored exactly: every frame with its stack, its memory and its capacity. */
  lemma MachineRestored(m: Machine)
    requires TidyMachine(m)
    ensures SaveMachine(m).Some? && LoadMachine(SaveMachine(m).value) == m
  {
    FrameRestored(m.top);
    FramesRestored(m.parents);
  }

  /** With its parents in order, a machine can be saved exactly when its current memory is not broken. */
  lemma SavedUnlessBroken(m: Machine)
    requires TidyAll(m.parents)
    ensures SaveMachine(m).Some? <==> !Broken(m.top.memory)
  {
    FramesRestored(m.parents);
  }

  method SerializeMachine(m: Machine) returns (r: Option<SavedMachine>)
    ensures r == SaveMachine(m)
  {
    var top := SaveFrame(m.top);
    var parents: seq<SavedFrame> := [];
    for i := 0 to |m.parents|
      invariant MapAll(SaveFrame, m.parents[..i]) == Some(parents)
    {
      assert Init(m.parents[..i + 1]) == m.parents[..i];
      var saved := SaveFrame(m.parents[i]);
      if saved.None? {
        UnsavedStays(SaveFrame, m.parents, i + 1);
        return None;
      }
      parents := parents + [saved.value];
    }
    assert m.parents[..|m.parents|] == m.parents;
    r := if top.Some? then Some(SavedMachine(top.value, parents, m.log, m.marks)) else None;
  }

  lemma {:induction false} UnsavedStays<A, B>(f: A -> Option<B>, s: seq<A>, i: nat)
    requires i <= |s| && MapAll(f, s[..i]).None?
    ensures MapAll(f, s).None?
    decreases |s|
  {
    if i == |s| {
      assert s[..i] == s;
    } else {
      assert Init(s)[..i] == s[..i];
      UnsavedStays(f, Init(s), i);
    }
  }

  method DeserializeMachine(s: SavedMachine) returns (m: Machine)
    ensures m == LoadMachine(s)
  {
    var parents: seq<Frame> := [];
    for i := 0 to |s.parents|
      invariant parents == Map(LoadFrame, s.parents[..i])
    {
      assert Init(s.parents[..i + 1]) == s.parents[..i];
      parents := parents + [LoadFrame(s.parents[i])];
    }
    assert s.parents[..|s.parents|] == s.parents;
    m := Machine(LoadFrame(s.top), parents, s.log, s.marks);
  }

  // ---- One iteration ---------------------------------------------------------------------------

  /** What an iteration hands on: nothing yet, or a status with actions to apply. A rejected or
      panicking one is rolled back and changes nothing. */
  datatype Iteration =
    | Suspended(saved: Saved)
    | Results(saved: Saved, status: ExitStatus, actions: seq<Action>)
    | Rejected
    | Panicking

  const EVM_STEPS_MIN: nat
  const EVM_STEPS_LAST_ITERATION_MAX: nat

  /** The step, at most `limit`, at which a run that is not running any more stopped. */
  function StepsTo(next: Machine -> Outcome, m: Machine, limit: nat): nat {
    if limit == 0 || After(next, m, limit - 1).Running? then limit else StepsTo(next, m, limit - 1)
  }

  /** `into_actions` asserts that no snapshot is open. */
  function HandOver(saved: Saved, status: ExitStatus, m: Machine): Iteration {
    if m.marks != [] then Panicking else Results(saved, status, m.log)
  }

  /** After any step the machine is saved, whatever it exited with. */
  function Kept(o: Outcome, steps: nat): Iteration {
    match o
    case Running(m) =>
      (match SaveMachine(m)
       case None => Panicking
       case Some(k) => Suspended(Saved(k, None)))
    case Exited(m, status) =>
      (match SaveMachine(m)
       case None => Panicking
       case Some(k) =>
         if steps > EVM_STEPS_LAST_ITERATION_MAX then Suspended(Saved(k, Some(status)))
         else HandOver(Saved(k, Some(status)), status, m))
    case Aborted => Rejected
    case Crashed => Panicking
  }

  predicate Admits(limit: nat, gasPrice: nat) {
    limit >= EVM_STEPS_MIN || gasPrice == 0
  }

  function Iterate(next: Machine -> Outcome, s: Saved, limit: nat, gasPrice: nat): Iteration {
    if !Admits(limit, gasPrice) then Rejected
    else
      var m := LoadMachine(s.machine);
      if s.exit.Some? then HandOver(s, s.exit.value, m)
      else Kept(After(next, m, limit), StepsTo(next, m, limit))
  }

  /** An iteration of a transaction sent to a precompiled contract: it takes no step, so it saves nothing. */
  function NativeIterate(s: Saved, limit: nat, gasPrice: nat, value: seq<Byte>): Iteration {
    if !Admits(limit, gasPrice) then Rejected
    else
      var m := LoadMachine(s.machine);
      if s.exit.Some? then HandOver(s, s.exit.value, m)
      else
        match NativeExit(m, value)
        case Exited(n, status) => HandOver(s, status, n)
        case _ => Panicking
  }

  /** Its results come out of the first admitted iteration, and of every further one. */
  lemma NativeResultsComeOut(m: Machine, limit: nat, gasPrice: nat, value: seq<Byte>)
    requires Good(m) && TidyMachine(m) && m.parents == [] && Admits(limit, gasPrice)
    ensures NativeIterate(Begun(m), limit, gasPrice, value) == Results(Begun(m), Output(value), m.log)
  {
    MachineRestored(m);
  }

  lemma StoppedAt(next: Machine -> Outcome, m: Machine, n: nat, limit: nat)
    requires 0 < n <= limit && After(next, m, n - 1).Running? && !After(next, m, n).Running?
    ensures After(next, m, limit) == After(next, m, n) && StepsTo(next, m, limit) == n
  {
    if n < limit {
      StoppedAt(next, m, n, limit - 1);
    }
  }

  /** What `execute` reports, as the run has it. */
  lemma ExecutedTo(next: Machine -> Outcome, m: Machine, limit: nat, r: Execution, n: Machine, steps: nat)
    requires if r == StepLimit then steps == limit + 1 else 1 <= steps <= limit
    requires Came(r, n) == After(next, m, if r == StepLimit then limit else steps)
    requires r != StepLimit ==> After(next, m, steps - 1).Running?
    ensures Kept(Came(r, n), steps) == Kept(After(next, m, limit), StepsTo(next, m, limit))
  {
    if r != StepLimit {
      StoppedAt(next, m, steps, limit);
    }
  }

  method RunWithin(evm: Evm, b: Backend, decode: Decode, native: Option<seq<Byte>>, limit: nat,
                   ghost next: Machine -> Outcome)
    returns (result: Execution, steps: nat)
    requires Follows(next, b, decode)
    modifies evm, evm.state
    ensures native.Some? ==>
      result != StepLimit && Came(result, evm.View()) == NativeExit(old(evm.View()), native.value)
    ensures native.None? ==>
      Kept(Came(result, evm.View()), steps)
      == Kept(After(next, old(evm.View()), limit), StepsTo(next, old(evm.View()), limit))
  {
    result, steps := evm.Execute(b, decode, native, limit, next);
    if native.None? {
      ExecutedTo(next, old(evm.View()), limit, result, evm.View(), steps);
    }
  }

  /** `native` is the answer of the precompiled contract that the machine runs as, if it does. */
  method DoContinue(b: Backend, decode: Decode, native: Option<seq<Byte>>, s: Saved, limit: nat, gasPrice: nat,
                    ghost next: Machine -> Outcome)
    returns (it: Iteration)
    requires Follows(next, b, decode)
    ensures it == if native.None? then Iterate(next, s, limit, gasPrice)
                  else NativeIterate(s, limit, gasPrice, native.value)
  {
    if limit < EVM_STEPS_MIN && gasPrice > 0 {
      return Rejected;
    }
    var m := DeserializeMachine(s.machine);
    if s.exit.Some? {
      return if m.marks != [] then Panicking else Results(s, s.exit.value, m.log);
    }
    var evm := new Evm(m);
    var result, steps := RunWithin(evm, b, decode, native, limit, next);
    if native.Some? && result != Crash {
      return if evm.state.stack != [] then Panicking else Results(s, result.status, evm.state.actions);
    }
    it := KeepIteration(evm, result, steps);
  }

  /** The second half of `do_continue`, after at least one step: save the machine, hand over the results. */
  method KeepIteration(evm: Evm, result: Execution, steps: nat) returns (it: Iteration)
    ensures it == Kept(Came(result, evm.View()), steps)
  {
    if result == Abort {
      return Rejected;
    }
    if result == Crash {
      return Panicking;
    }
    var saved := SerializeMachine(evm.View());
    if saved.None? {
      return Panicking;
    }
    if result == StepLimit {
      return Suspended(Saved(saved.value, None));
    }
    var done := Saved(saved.value, Some(result.status));
    if steps > EVM_STEPS_LAST_ITERATION_MAX {
      return Suspended(done);
    }
    it := if evm.state.stack != [] then Panicking else Results(done, result.status, evm.state.actions);
  }

  // ---- The uncut run ---------------------------------------------------------------------------

  /** A run of some program from a machine in order. */
  ghost predicate Starts(next: Machine -> Outcome, b: Backend, decode: Decode, m: Machine) {
    Follows(next, b, decode) && Good(m) && TidyMachine(m)
  }

  /** Every transaction's run is one. */
  lemma TransactionStarts(next: Machine -> Outcome, b: Backend, decode: Decode, chainId: Word, trx: Transaction,
                          origin: Address, created: Address)
    requires NewMachine(b, chainId, trx, origin, created).Some? && Follows(next, b, decode)
    ensures Starts(next, b, decode, NewMachine(b, chainId, trx, origin, created).value)
  {
    FrameCoverage.NewMachineGood(b, chainId, trx, origin, created);
    NewMachineTidy(b, chainId, trx, origin, created);
  }

  lemma {:induction false} AfterAdds(next: Machine -> Outcome, m: Machine, i: nat, j: nat)
    ensures After(next, m, i + j) ==
            var o := After(next, m, i);
            if o.Running? then After(next, o.machine, j) else o
  {
    if j > 0 {
      AfterAdds(next, m, i, j - 1);
      assert i + j - 1 == i + (j - 1);
    }
  }

  lemma ExitIsFinal(next: Machine -> Outcome, m: Machine, i: nat, j: nat)
    requires !After(next, m, i).Running? && i <= j
    ensures After(next, m, j) == After(next, m, i)
  {
    AfterAdds(next, m, i, j - i);
  }

  /** Runs that start well never fail an assertion, leave no snapshot open when they exit, and stay in
      order as long as they go on. */
  lemma {:induction false} OwnRunKeeps(next: Machine -> Outcome, b: Backend, decode: Decode, m: Machine, n: nat)
    requires Starts(next, b, decode, m)
    ensures
      var o := After(next, m, n);
      && o != Crashed
      && (o.Running? ==> Good(o.machine) && TidyMachine(o.machine) && o.machine.log[0] == m.log[0])
      && (o.Exited? ==> Finished(o.machine) && |o.machine.top.stack| <= OPERANDS && o.machine.log[0] == m.log[0])
      && (o.Exited? ==> Broken(o.machine.top.memory) || EvmMemory.MemOk(o.machine.top.memory))
  {
    if n > 0 {
      OwnRunKeeps(next, b, decode, m, n - 1);
      if After(next, m, n - 1).Running? {
        OwnStepKeeps(next, b, decode, After(next, m, n - 1).machine);
      }
    }
  }

  lemma OwnStepKeeps(next: Machine -> Outcome, b: Backend, decode: Decode, k: Machine)
    requires Starts(next, b, decode, k)
    ensures
      var o := next(k);
      && o != Crashed
      && (o.Running? ==> Good(o.machine) && TidyMachine(o.machine) && o.machine.log[0] == k.log[0])
      && (o.Exited? ==> Finished(o.machine) && |o.machine.top.stack| <= OPERANDS && o.machine.log[0] == k.log[0])
      && (o.Exited? ==> if LosesMemory(Handle(b, k, decode(k).0)) then Broken(o.machine.top.memory)
                        else EvmMemory.MemOk(o.machine.top.memory))
  {
    assert next(k) == OwnStep(b, decode, k);
    StepKeeps(b, k, decode(k).0, decode(k).1, 0);
    StepTidy(b, k, decode(k).0, decode(k).1);
    SameStart(k, next(k));
  }

  /** An outcome whose machine can be saved is restored as it was. */
  lemma OutcomeRestored(next: Machine -> Outcome, b: Backend, decode: Decode, m: Machine, n: nat)
    requires Starts(next, b, decode, m) && (After(next, m, n).Running? || After(next, m, n).Exited?)
    ensures
      var k := After(next, m, n).machine;
      && (SaveMachine(k).Some? ==> LoadMachine(SaveMachine(k).value) == k)
      && (After(next, m, n).Running? ==> SaveMachine(k).Some?)
      && (After(next, m, n).Exited? ==> (SaveMachine(k).Some? <==> !Broken(k.top.memory)))
  {
    OwnRunKeeps(next, b, decode, m, n);
    var o := After(next, m, n);
    if o.Running? {
      MachineRestored(o.machine);
    } else {
      SavedUnlessBroken(o.machine);
      if !Broken(o.machine.top.memory) {
        MachineRestored(o.machine);
      }
    }
  }

  // ---- Many iterations -------------------------------------------------------------------------

  /** What the State account holds after an iteration; results whose application was postponed are
      handed over again by the next one. */
  function StateAfter(s: Saved, it: Iteration): Saved {
    match it
    case Suspended(t) => t
    case Results(t, _, _) => t
    case _ => s
  }

  function Iterated(next: Machine -> Outcome, gasPrice: nat): (Saved, nat) -> Saved {
    (s: Saved, limit: nat) => StateAfter(s, Iterate(next, s, limit, gasPrice))
  }

  function Folded(step: (Saved, nat) -> Saved, s: Saved, limits: seq<nat>): Saved
    decreases |limits|
  {
    if limits == [] then s else step(Folded(step, s, Init(limits)), Last(limits))
  }

  function StatesAfter(next: Machine -> Outcome, s: Saved, limits: seq<nat>, gasPrice: nat): Saved {
    Folded(Iterated(next, gasPrice), s, limits)
  }

  /** What every admitted iteration carries on from one point of the run to a later one holds after all
      of them. */
  lemma {:induction false} Carried(step: (Saved, nat) -> Saved, s: Saved, limits: seq<nat>, admits: nat -> bool,
                                   at: (nat, Saved) -> bool)
    requires at(0, s) && forall i :: 0 <= i < |limits| ==> admits(limits[i])
    requires forall k: nat, t: Saved, limit: nat :: at(k, t) && admits(limit) ==> at(k + limit, step(t, limit))
    ensures at(Total(limits), Folded(step, s, limits))
    decreases |limits|
  {
    if limits != [] {
      Carried(step, s, Init(limits), admits, at);
      assert admits(limits[|limits| - 1]);
    }
  }

  /** What `do_begin` saves. */
  function Begun(m: Machine): Saved
    requires TidyMachine(m)
  {
    MachineRestored(m);
    Saved(SaveMachine(m).value, None)
  }

  predicate Holds(o: Outcome, s: Saved) {
    && (o.Running? || o.Exited?)
    && SaveMachine(o.machine) == Some(s.machine)
    && s.exit == if o.Running? then None else Some(o.status)
  }

  /** `s` lies on the uncut run from `m`. */
  ghost predicate OnRun(next: Machine -> Outcome, m: Machine, s: Saved) {
    exists n: nat :: Holds(After(next, m, n), s)
  }

  /** What an iteration does from a point of the uncut run, in terms of that run. */
  predicate Continues(next: Machine -> Outcome, m: Machine, n: nat, s: Saved, limit: nat, gasPrice: nat) {
    && (After(next, m, n).Running? || After(next, m, n).Exited?)
    && Iterate(next, s, limit, gasPrice) ==
    if !Admits(limit, gasPrice) then Rejected
    else if s.exit.Some? then HandOver(s, s.exit.value, After(next, m, n).machine)
    else Kept(After(next, m, n + limit), StepsTo(next, After(next, m, n).machine, limit))
  }

  lemma IterateFrom(next: Machine -> Outcome, b: Backend, decode: Decode, m: Machine, n: nat, s: Saved, limit: nat,
                    gasPrice: nat)
    requires Starts(next, b, decode, m) && Holds(After(next, m, n), s)
    ensures Continues(next, m, n, s, limit, gasPrice)
  {
    OutcomeRestored(next, b, decode, m, n);
    AfterAdds(next, m, n, limit);
  }

  lemma KeptOrSame(o: Outcome, steps: nat, s: Saved)
    ensures StateAfter(s, Kept(o, steps)) == s || Holds(o, StateAfter(s, Kept(o, steps)))
  {
  }

  /** The results of the run that ended with `o`. */
  predicate Handed(o: Outcome, it: Iteration) {
    it.Results? && o.Exited? && o.status == it.status && it.actions == o.machine.log && Holds(o, it.saved)
  }

  lemma KeptResults(o: Outcome, steps: nat)
    requires Kept(o, steps).Results?
    ensures Handed(o, Kept(o, steps))
  {
  }

  lemma HandOverResults(o: Outcome, s: Saved)
    requires Holds(o, s) && s.exit.Some? && HandOver(s, s.exit.value, o.machine).Results?
    ensures Handed(o, HandOver(s, s.exit.value, o.machine))
  {
  }

  lemma OnRunFrom(next: Machine -> Outcome, m: Machine, n: nat, s: Saved, limit: nat, gasPrice: nat)
    requires Holds(After(next, m, n), s) && Continues(next, m, n, s, limit, gasPrice)
    ensures OnRun(next, m, StateAfter(s, Iterate(next, s, limit, gasPrice)))
  {
    if s.exit.None? && Admits(limit, gasPrice) {
      KeptOrSame(After(next, m, n + limit), StepsTo(next, After(next, m, n).machine, limit), s);
    }
  }

  lemma IterateOnRun(next: Machine -> Outcome, b: Backend, decode: Decode, m: Machine, s: Saved, limit: nat,
                     gasPrice: nat)
    requires Starts(next, b, decode, m) && OnRun(next, m, s)
    ensures OnRun(next, m, Iterated(next, gasPrice)(s, limit))
  {
    var n: nat :| Holds(After(next, m, n), s);
    IterateFrom(next, b, decode, m, n, s, limit, gasPrice);
    OnRunFrom(next, m, n, s, limit, gasPrice);
  }

  lemma StatesOnRun(next: Machine -> Outcome, b: Backend, decode: Decode, m: Machine, limits: seq<nat>, gasPrice: nat)
    requires Starts(next, b, decode, m)
    ensures OnRun(next, m, StatesAfter(next, Begun(m), limits, gasPrice))
  {
    BegunHolds(next, m);
    forall t: Saved, limit: nat | OnRun(next, m, t) ensures OnRun(next, m, Iterated(next, gasPrice)(t, limit)) {
      IterateOnRun(next, b, decode, m, t, limit, gasPrice);
    }
    CarriedOnRun(next, m, Begun(m), limits, gasPrice);
  }

  lemma CarriedOnRun(next: Machine -> Outcome, m: Machine, s: Saved, limits: seq<nat>, gasPrice: nat)
    requires OnRun(next, m, s)
    requires forall t: Saved, limit: nat :: OnRun(next, m, t) ==> OnRun(next, m, Iterated(next, gasPrice)(t, limit))
    ensures OnRun(next, m, StatesAfter(next, s, limits, gasPrice))
  {
    Carried(Iterated(next, gasPrice), s, limits, limit => true, (k: nat, t: Saved) => OnRun(next, m, t));
  }

  lemma BegunHolds(next: Machine -> Outcome, m: Machine)
    requires TidyMachine(m)
    ensures Holds(After(next, m, 0), Begun(m)) && OnRun(next, m, Begun(m))
  {
    MachineRestored(m);
  }

  lemma HandedFrom(next: Machine -> Outcome, m: Machine, n: nat, s: Saved, limit: nat, gasPrice: nat) returns (k: nat)
    requires Holds(After(next, m, n), s) && Continues(next, m, n, s, limit, gasPrice)
    requires Iterate(next, s, limit, gasPrice).Results?
    ensures Handed(After(next, m, k), Iterate(next, s, limit, gasPrice))
  {
    if s.exit.Some? {
      k := n;
      HandOverResults(After(next, m, n), s);
    } else {
      k := n + limit;
      KeptResults(After(next, m, k), StepsTo(next, After(next, m, n).machine, limit));
    }
  }

  lemma HandedOver(next: Machine -> Outcome, b: Backend, decode: Decode, m: Machine, s: Saved, limit: nat,
                   gasPrice: nat)
      returns (k: nat)
    requires Starts(next, b, decode, m) && OnRun(next, m, s) && Iterate(next, s, limit, gasPrice).Results?
    ensures Handed(After(next, m, k), Iterate(next, s, limit, gasPrice))
  {
    var n: nat :| Holds(After(next, m, n), s);
    IterateFrom(next, b, decode, m, n, s, limit, gasPrice);
    k := HandedFrom(next, m, n, s, limit, gasPrice);
  }

  /** Whatever the limits, results handed over are those of the uncut run: its status and its log. */
  lemma ResultsAreTheRuns(next: Machine -> Outcome, b: Backend, decode: Decode, m: Machine, limits: seq<nat>,
                          limit: nat, gasPrice: nat, n: nat)
    requires Starts(next, b, decode, m) && !After(next, m, n).Running?
    requires Iterate(next, StatesAfter(next, Begun(m), limits, gasPrice), limit, gasPrice).Results?
    ensures
      var it := Iterate(next, StatesAfter(next, Begun(m), limits, gasPrice), limit, gasPrice);
      var o := After(next, m, n);
      o.Exited? && o.status == it.status && it.actions == o.machine.log && !Broken(o.machine.top.memory)
  {
    var s := StatesAfter(next, Begun(m), limits, gasPrice);
    StatesOnRun(next, b, decode, m, limits, gasPrice);
    var k := HandedOver(next, b, decode, m, s, limit, gasPrice);
    ExitIsFinal(next, m, k, if k <= n then n else k);
    ExitIsFinal(next, m, n, if k <= n then n else k);
    OutcomeRestored(next, b, decode, m, n);
  }

  function Total(limits: seq<nat>): nat
    decreases |limits|
  {
    if limits == [] then 0 else Total(Init(limits)) + Last(limits)
  }

  predicate Admitted(limits: seq<nat>, gasPrice: nat) {
    forall i :: 0 <= i < |limits| ==> Admits(limits[i], gasPrice)
  }

  /** The run from `m` ends after `n` steps, with a machine that can be saved. */
  predicate EndsWell(next: Machine -> Outcome, m: Machine, n: nat) {
    After(next, m, n).Exited? && !Broken(After(next, m, n).machine.top.memory)
  }

  function HoldsAt(next: Machine -> Outcome, m: Machine): (nat, Saved) -> bool {
    (k: nat, s: Saved) => Holds(After(next, m, k), s)
  }

  function AdmitsAt(gasPrice: nat): nat -> bool {
    (limit: nat) => Admits(limit, gasPrice)
  }

  lemma AdvanceAll(next: Machine -> Outcome, b: Backend, decode: Decode, m: Machine, gasPrice: nat, n: nat)
    requires Starts(next, b, decode, m) && EndsWell(next, m, n)
    ensures
      var at, step := HoldsAt(next, m), Iterated(next, gasPrice);
      forall k: nat, t: Saved, limit: nat :: at(k, t) && AdmitsAt(gasPrice)(limit) ==> at(k + limit, step(t, limit))
  {
    forall k: nat, t: Saved, limit: nat | HoldsAt(next, m)(k, t) && AdmitsAt(gasPrice)(limit)
      ensures HoldsAt(next, m)(k + limit, Iterated(next, gasPrice)(t, limit))
    {
      AdvanceOne(next, b, decode, m, k, t, limit, gasPrice, n);
    }
  }

  /** Where the saved state is after the limits, for such a run. */
  lemma StatesAdvance(next: Machine -> Outcome, b: Backend, decode: Decode, m: Machine, limits: seq<nat>,
                      gasPrice: nat, n: nat)
    requires Starts(next, b, decode, m) && Admitted(limits, gasPrice) && EndsWell(next, m, n)
    ensures Holds(After(next, m, Total(limits)), StatesAfter(next, Begun(m), limits, gasPrice))
  {
    BegunHolds(next, m);
    AdvanceAll(next, b, decode, m, gasPrice, n);
    Carried(Iterated(next, gasPrice), Begun(m), limits, AdmitsAt(gasPrice), HoldsAt(next, m));
  }

  /** An outcome that can be saved. */
  predicate Savable(o: Outcome) {
    (o.Running? || (o.Exited? && o.machine.marks == [])) && SaveMachine(o.machine).Some?
  }

  lemma KeptHolds(o: Outcome, steps: nat, s: Saved)
    requires Savable(o)
    ensures Holds(o, StateAfter(s, Kept(o, steps)))
  {
  }

  lemma SavableOnRun(next: Machine -> Outcome, b: Backend, decode: Decode, m: Machine, k: nat, n: nat)
    requires Starts(next, b, decode, m) && EndsWell(next, m, n)
    ensures Savable(After(next, m, k)) && LoadMachine(SaveMachine(After(next, m, k).machine).value)
            == After(next, m, k).machine
  {
    OwnRunKeeps(next, b, decode, m, k);
    if !After(next, m, k).Running? {
      var top := if n <= k then k else n;
      ExitIsFinal(next, m, n, top);
      ExitIsFinal(next, m, k, top);
    }
    OutcomeRestored(next, b, decode, m, k);
  }

  lemma AdvanceFrom(next: Machine -> Outcome, m: Machine, k: nat, s: Saved, limit: nat, gasPrice: nat)
    requires HoldsAt(next, m)(k, s) && AdmitsAt(gasPrice)(limit)
    requires Continues(next, m, k, s, limit, gasPrice) && Savable(After(next, m, k + limit))
    ensures HoldsAt(next, m)(k + limit, Iterated(next, gasPrice)(s, limit))
  {
    if s.exit.None? {
      KeptHolds(After(next, m, k + limit), StepsTo(next, After(next, m, k).machine, limit), s);
    } else {
      ExitIsFinal(next, m, k, k + limit);
      HandOverKeeps(s, After(next, m, k).machine);
    }
  }

  lemma HandOverKeeps(s: Saved, m: Machine)
    requires s.exit.Some?
    ensures StateAfter(s, HandOver(s, s.exit.value, m)) == s
  {
  }

  lemma SavableAfter(next: Machine -> Outcome, b: Backend, decode: Decode, m: Machine, k: nat, n: nat)
    requires Starts(next, b, decode, m) && EndsWell(next, m, n)
    ensures Savable(After(next, m, k))
  {
    SavableOnRun(next, b, decode, m, k, n);
  }

  lemma IterateFromAt(next: Machine -> Outcome, b: Backend, decode: Decode, m: Machine, k: nat, s: Saved, limit: nat,
                      gasPrice: nat)
    requires Starts(next, b, decode, m) && HoldsAt(next, m)(k, s)
    ensures Continues(next, m, k, s, limit, gasPrice)
  {
    assert Holds(After(next, m, k), s);
    IterateFrom(next, b, decode, m, k, s, limit, gasPrice);
  }

  lemma AdvanceReady(next: Machine -> Outcome, b: Backend, decode: Decode, m: Machine, k: nat, s: Saved, limit: nat,
                     gasPrice: nat, n: nat)
    requires Starts(next, b, decode, m) && EndsWell(next, m, n) && HoldsAt(next, m)(k, s)
    ensures Continues(next, m, k, s, limit, gasPrice) && Savable(After(next, m, k + limit))
  {
    IterateFromAt(next, b, decode, m, k, s, limit, gasPrice);
    SavableAfter(next, b, decode, m, k + limit, n);
  }

  lemma AdvanceOne(next: Machine -> Outcome, b: Backend, decode: Decode, m: Machine, k: nat, s: Saved, limit: nat,
                   gasPrice: nat, n: nat)
    requires Starts(next, b, decode, m) && EndsWell(next, m, n)
    requires HoldsAt(next, m)(k, s) && AdmitsAt(gasPrice)(limit)
    ensures HoldsAt(next, m)(k + limit, Iterated(next, gasPrice)(s, limit))
  {
    AdvanceReady(next, b, decode, m, k, s, limit, gasPrice, n);
    AdvanceFrom(next, m, k, s, limit, gasPrice);
  }

  /** The run from `m` exits in its step number `e`. */
  predicate ExitsAt(next: Machine -> Outcome, m: Machine, e: nat) {
    e > 0 && After(next, m, e - 1).Running? && EndsWell(next, m, e)
  }

  lemma StepsToExit(next: Machine -> Outcome, m: Machine, k: nat, e: nat, limit: nat)
    requires ExitsAt(next, m, e) && k < e <= k + limit && After(next, m, k).Running?
    ensures StepsTo(next, After(next, m, k).machine, limit) == e - k && After(next, m, k + limit) == After(next, m, e)
  {
    AfterAdds(next, m, k, e - k - 1);
    AfterAdds(next, m, k, e - k);
    StoppedAt(next, After(next, m, k).machine, e - k, limit);
    ExitIsFinal(next, m, e, k + limit);
  }

  lemma RunningBefore(next: Machine -> Outcome, m: Machine, i: nat, j: nat)
    requires i <= j && After(next, m, j).Running?
    ensures After(next, m, i).Running?
  {
    if !After(next, m, i).Running? {
      ExitIsFinal(next, m, i, j);
    }
  }

  lemma KeptRunning(o: Outcome, steps: nat)
    requires Savable(o) && o.Running?
    ensures Kept(o, steps).Suspended? && Holds(o, Kept(o, steps).saved)
  {
  }

  lemma KeptExited(o: Outcome, steps: nat)
    requires Savable(o) && o.Exited?
    ensures if steps > EVM_STEPS_LAST_ITERATION_MAX then Kept(o, steps).Suspended? && Holds(o, Kept(o, steps).saved)
            else Handed(o, Kept(o, steps))
  {
  }

  /** What one iteration does, for a run that exits in its step `e` with a machine that can be saved, from
      the state saved after `k` steps. A limit below the minimum is refused unless gas is free. Otherwise
      the machine goes on by exactly the limit; if it exits within it, the results are handed over, unless
      the iteration took more steps than a last one may: then they are left to the next. */
  lemma IterationIs(next: Machine -> Outcome, b: Backend, decode: Decode, m: Machine, k: nat, s: Saved, limit: nat,
                    gasPrice: nat, e: nat)
    requires Starts(next, b, decode, m) && ExitsAt(next, m, e) && k < e && Holds(After(next, m, k), s)
    ensures
      var it := Iterate(next, s, limit, gasPrice);
      if limit < EVM_STEPS_MIN && gasPrice > 0 then it == Rejected
      else if k + limit < e then it.Suspended? && Holds(After(next, m, k + limit), it.saved)
      else if e - k > EVM_STEPS_LAST_ITERATION_MAX then it.Suspended? && Holds(After(next, m, e), it.saved)
      else Handed(After(next, m, e), it)
  {
    IterateFrom(next, b, decode, m, k, s, limit, gasPrice);
    SavableAfter(next, b, decode, m, k + limit, e);
    RunningBefore(next, m, k, e - 1);
    IterationFrom(next, m, k, s, limit, gasPrice, e);
  }

  lemma IterationFrom(next: Machine -> Outcome, m: Machine, k: nat, s: Saved, limit: nat, gasPrice: nat, e: nat)
    requires Continues(next, m, k, s, limit, gasPrice) && Savable(After(next, m, k + limit))
    requires ExitsAt(next, m, e) && k < e && Holds(After(next, m, k), s) && After(next, m, k).Running?
    ensures
      var it := Iterate(next, s, limit, gasPrice);
      if limit < EVM_STEPS_MIN && gasPrice > 0 then it == Rejected
      else if k + limit < e then it.Suspended? && Holds(After(next, m, k + limit), it.saved)
      else if e - k > EVM_STEPS_LAST_ITERATION_MAX then it.Suspended? && Holds(After(next, m, e), it.saved)
      else Handed(After(next, m, e), it)
  {
    var steps := StepsTo(next, After(next, m, k).machine, limit);
    if k + limit < e {
      RunningBefore(next, m, k + limit, e - 1);
      KeptRunning(After(next, m, k + limit), steps);
    } else {
      StepsToExit(next, m, k, e, limit);
      KeptExited(After(next, m, k + limit), steps);
    }
  }

  /** Once the limits add up to the length of a run whose last machine can be saved, the next iteration
      hands over its results, and does so again as often as applying them is postponed. */
  lemma ResultsComeOut(next: Machine -> Outcome, b: Backend, decode: Decode, m: Machine, limits: seq<nat>, limit: nat,
                       gasPrice: nat, n: nat)
    requires Starts(next, b, decode, m) && Admitted(limits, gasPrice) && Admits(limit, gasPrice) && Total(limits) >= n
    requires EndsWell(next, m, n)
    ensures
      var s := StatesAfter(next, Begun(m), limits, gasPrice);
      var o := After(next, m, n);
      Iterate(next, s, limit, gasPrice) == Results(s, o.status, o.machine.log)
  {
    StatesAdvance(next, b, decode, m, limits, gasPrice, n);
    ExitIsFinal(next, m, n, Total(limits));
    SavableOnRun(next, b, decode, m, n, n);
  }

  /** The other runs never hand over results, whatever the limits. */
  lemma BrokenRunNeverEnds(next: Machine -> Outcome, b: Backend, decode: Decode, m: Machine, limits: seq<nat>,
                           limit: nat, gasPrice: nat, n: nat)
    requires Starts(next, b, decode, m)
    requires After(next, m, n).Exited? && Broken(After(next, m, n).machine.top.memory)
    ensures !Iterate(next, StatesAfter(next, Begun(m), limits, gasPrice), limit, gasPrice).Results?
  {
    if Iterate(next, StatesAfter(next, Begun(m), limits, gasPrice), limit, gasPrice).Results? {
      ResultsAreTheRuns(next, b, decode, m, limits, limit, gasPrice, n);
    }
  }

  // ---- Panics ----------------------------------------------------------------------------------

  /** In the step after `n`, the outermost frame fails on a memory range that is out of limits without
      overflowing. */
  predicate LosesAt(next: Machine -> Outcome, b: Backend, decode: Decode, m: Machine, n: nat) {
    var o := After(next, m, n);
    o.Running? && LosesMemory(Handle(b, o.machine, decode(o.machine).0))
  }

  /** Such a failure is the end of the run, with a machine that cannot be saved; every other end leaves
      one that can. */
  lemma BrokenExit(next: Machine -> Outcome, b: Backend, decode: Decode, m: Machine, n: nat)
    requires Starts(next, b, decode, m) && After(next, m, n).Running?
    ensures LosesAt(next, b, decode, m, n) <==>
            After(next, m, n + 1).Exited? && Broken(After(next, m, n + 1).machine.top.memory)
  {
    OwnRunKeeps(next, b, decode, m, n);
    var k := After(next, m, n).machine;
    OwnStepKeeps(next, b, decode, k);
    if LosesAt(next, b, decode, m, n) {
      HandleCourse(b, k, decode(k).0);
      LossExits(k, decode(k).0, Handle(b, k, decode(k).0), decode(k).1);
      assert next(k) == OwnStep(b, decode, k);
    }
  }

  lemma LossExits(k: Machine, i: Instruction, h: Handled, message: seq<Byte>)
    requires Good(k) && Course(k, i, h) && LosesMemory(h)
    ensures Recover(h, message).Exited? && Recover(h, message).status == RevertedWith(message)
  {
    RevertRolls(h.machine, message);
  }

  lemma ExitStep(next: Machine -> Outcome, m: Machine, limit: nat) returns (n: nat)
    requires After(next, m, limit).Exited?
    ensures n < limit && After(next, m, n).Running? && After(next, m, n + 1) == After(next, m, limit)
  {
    if After(next, m, limit - 1).Running? {
      n := limit - 1;
    } else {
      n := ExitStep(next, m, limit - 1);
    }
  }

  /** An iteration panics exactly when, within its limit, the outermost frame fails on a memory range that
      is out of limits without overflowing. */
  lemma PanicsIff(next: Machine -> Outcome, b: Backend, decode: Decode, k: Machine, limit: nat, gasPrice: nat)
    requires Starts(next, b, decode, k)
    ensures Iterate(next, Begun(k), limit, gasPrice) == Panicking <==>
            Admits(limit, gasPrice) && exists n: nat :: n < limit && LosesAt(next, b, decode, k, n)
  {
    MachineRestored(k);
    if Kept(After(next, k, limit), StepsTo(next, k, limit)) == Panicking {
      PanicsOnLoss(next, b, decode, k, limit);
    }
    if n: nat :| n < limit && LosesAt(next, b, decode, k, n) {
      LossPanics(next, b, decode, k, limit, n);
    }
  }

  lemma PanicsOnLoss(next: Machine -> Outcome, b: Backend, decode: Decode, k: Machine, limit: nat)
    requires Starts(next, b, decode, k) && Kept(After(next, k, limit), StepsTo(next, k, limit)) == Panicking
    ensures exists n: nat :: n < limit && LosesAt(next, b, decode, k, n)
  {
    OwnRunKeeps(next, b, decode, k, limit);
    OutcomeRestored(next, b, decode, k, limit);
    var n := ExitStep(next, k, limit);
    BrokenExit(next, b, decode, k, n);
    assert LosesAt(next, b, decode, k, n);
  }

  lemma LossPanics(next: Machine -> Outcome, b: Backend, decode: Decode, k: Machine, limit: nat, n: nat)
    requires Starts(next, b, decode, k) && n < limit && LosesAt(next, b, decode, k, n)
    ensures Kept(After(next, k, limit), StepsTo(next, k, limit)) == Panicking
  {
    BrokenExit(next, b, decode, k, n);
    ExitIsFinal(next, k, n + 1, limit);
    OutcomeRestored(next, b, decode, k, limit);
  }

  /** The same for every iteration of a transaction; one whose run is over never panics. */
  lemma IterationPanicsIff(next: Machine -> Outcome, b: Backend, decode: Decode, m: Machine, limits: seq<nat>,
                           limit: nat, gasPrice: nat)
    requires Starts(next, b, decode, m)
    ensures
      var s := StatesAfter(next, Begun(m), limits, gasPrice);
      Iterate(next, s, limit, gasPrice) == Panicking <==>
      s.exit.None? && Admits(limit, gasPrice)
      && exists n: nat :: n < limit && LosesAt(next, b, decode, LoadMachine(s.machine), n)
  {
    var s := StatesAfter(next, Begun(m), limits, gasPrice);
    StatesOnRun(next, b, decode, m, limits, gasPrice);
    var n: nat :| Holds(After(next, m, n), s);
    OwnRunKeeps(next, b, decode, m, n);
    OutcomeRestored(next, b, decode, m, n);
    if s.exit.None? {
      PanicsIff(next, b, decode, LoadMachine(s.machine), limit, gasPrice);
    }
  }

  /** For instance, outermost code that loads a word from 0x100000: the load fails and the frame is
      reverted, but the machine cannot be saved, so every iteration that gets there panics. */
  lemma FarLoadPanics(next: Machine -> Outcome, b: Backend, decode: Decode, m: Machine, limit: nat, gasPrice: nat)
    requires Starts(next, b, decode, m) && m.parents == [] && decode(m).0 == Load(0x10_0000, 32, [], 0)
    requires limit > 0 && Admits(limit, gasPrice)
    ensures After(next, m, 1).Exited? && After(next, m, 1).status == RevertedWith(decode(m).1)
    ensures Iterate(next, Begun(m), limit, gasPrice) == Panicking
  {
    FarLoadLoses(b, m);
    HandleCourse(b, m, decode(m).0);
    LossExits(m, decode(m).0, Handle(b, m, decode(m).0), decode(m).1);
    assert After(next, m, 0) == Running(m) && LosesAt(next, b, decode, m, 0);
    assert After(next, m, 1) == next(m) == OwnStep(b, decode, m);
    PanicsIff(next, b, decode, m, limit, gasPrice);
  }

  lemma FarLoadLoses(b: Backend, m: Machine)
    requires TidyMachine(m) && m.parents == []
    ensures LosesMemory(Handle(b, m, Load(0x10_0000, 32, [], 0)))
  {
    EvmMemory.ReallocatedMeaning(m.top.memory, 0x10_0000, 32);
  }
}
