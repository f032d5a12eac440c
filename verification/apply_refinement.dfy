/** What `ExecutorState` reads over its log is what the backend reads once the log is applied. */
module ApplyRefinement {
  import opened Opcodes
  import opened WordArithmetic
  import opened StorageLayout
  import opened Accounts
  import opened Journal
  import opened Apply

  // ---- Growing and creating accounts changes no read -----------------------------------------

  predicate SameAccountReads(a: Account, b: Account)
    requires AccountOk(a) && AccountOk(b)
  {
    && b.nonce == a.nonce && b.balance == a.balance && b.generation == a.generation
    && b.codeSize == a.codeSize && b.chunks == a.chunks
    && CodeOf(b) == CodeOf(a)
    && forall index: Word :: SlotOf(b, index) == SlotOf(a, index)
  }

  lemma GrowReads(a: Account, space: nat)
    requires AccountOk(a)
    ensures AccountOk(Grow(a, space)) && SameAccountReads(a, Grow(a, space))
  {
  }

  /** The accounts read alike everywhere; new ones read as missing ones do. */
  predicate SameReads(w: World, v: World)
    requires WorldOk(w) && WorldOk(v)
  {
    forall a: Address :: SameReadsAt(w, v, a)
  }

  predicate SameReadsAt(w: World, v: World, a: Address)
    requires WorldOk(w) && WorldOk(v)
  {
    && Nonce(v, a) == Nonce(w, a) && Balance(v, a) == Balance(w, a) && Generation(v, a) == Generation(w, a)
    && Code(v, a) == Code(w, a)
    && forall index: Word :: Storage(v, a, index) == Storage(w, a, index)
  }

  /** A postponed change reads as if nothing had been applied. */
  lemma ProcessedReads(w: World, ops: map<Address, Operation>)
    requires WorldOk(w)
    ensures WorldOk(Processed(w, ops)) && SameReads(w, Processed(w, ops))
  {
    var v := Processed(w, ops);
    forall a | a in w.ether ensures AccountOk(v.ether[a]) && SameAccountReads(w.ether[a], v.ether[a]) {
      if a in ops {
        GrowReads(w.ether[a], Reached(ops[a]));
      }
    }
  }

  lemma CreateReads(w: World, a: Address)
    requires WorldOk(w) && CreateIfMissing(w, a).Done?
    ensures
      var v := CreateIfMissing(w, a).value;
      WorldOk(v) && SameReads(w, v) && a in v.ether && w.ether.Keys <= v.ether.Keys
  {
    var v := CreateIfMissing(w, a).value;
    forall b: Address ensures SameReadsAt(w, v, b) {
      assert b != a && b in v.ether ==> v.ether[b] == w.ether[b];
    }
  }

  lemma {:induction false} CreatedReads(w: World, actions: seq<Action>)
    requires WorldOk(w) && Created(w, actions).Done?
    ensures
      var v := Created(w, actions).value;
      WorldOk(v) && SameReads(w, v) && w.ether.Keys <= v.ether.Keys
    decreases |actions|
  {
    if actions != [] {
      CreatedReads(w, Init(actions));
      if Demand(Last(actions)).Some? {
        var before := Created(w, Init(actions)).value;
        CreateReads(before, Demand(Last(actions)).value.0);
        SameReadsTrans(w, before, Created(w, actions).value);
      }
    }
  }

  // ---- One step of the fold --------------------------------------------------------------------

  lemma DeployReads(w: World, a: Address, code: seq<Byte>)
    requires WorldOk(w) && DeployedTo(w, a, code).Done?
    ensures
      var v := DeployedTo(w, a, code).value;
      && WorldOk(v) && Code(w, a) == [] && Code(v, a) == code && code != []
      && forall index: Word :: Storage(v, a, index) == Storage(w, a, index)
  {
    var v := DeployedTo(w, a, code).value;
    var d, e := w.ether[a].data, v.ether[a].data;
    assert e[INTERNAL_STORAGE_SIZE..INTERNAL_STORAGE_SIZE + |code|] == code;
    forall index: Word | index < STATIC_ENTRIES ensures e[32 * index..32 * index + 32] == ZERO {
      assert e[32 * index..32 * index + 32] == d[32 * index..32 * index + 32];
      ZeroSlice(d, 32 * index);
    }
  }

  lemma DeleteReads(w: World, a: Address)
    requires WorldOk(w) && Deleted(w, a).Done?
    ensures
      var v := Deleted(w, a).value;
      && WorldOk(v) && Nonce(v, a) == 0 && Code(v, a) == [] && Balance(v, a) == Balance(w, a)
      && Generation(v, a) == Generation(w, a) + 1
      && v.ether[a].chunks == w.ether[a].chunks
      && forall index: Word | index < STATIC_ENTRIES :: Storage(v, a, index) == ZERO
  {
  }

  lemma StepOk(p: Progress, action: Action)
    requires WorldOk(p.world) && Step(p, action).Done?
    ensures WorldOk(Step(p, action).value.world)
    ensures Step(p, action).value.world.ether.Keys == p.world.ether.Keys
  {
    match action
    case EvmSetCode(a, code) => DeployReads(p.world, a, code);
    case EvmSelfDestruct(a) => DeleteReads(p.world, a);
    case _ =>
  }

  lemma StepNonce(p: Progress, action: Action, a: Address)
    requires Step(p, action).Done? && !action.EvmSelfDestruct?
    ensures Nonce(Step(p, action).value.world, a) ==
            Nonce(p.world, a) + if action == EvmIncrementNonce(a) then 1 else 0
    ensures action == EvmIncrementNonce(a) ==> Nonce(p.world, a) < U64_MAX
  {
  }

  lemma StepCode(p: Progress, action: Action, a: Address)
    requires WorldOk(p.world) && Step(p, action).Done? && !action.EvmSelfDestruct?
    requires WorldOk(Step(p, action).value.world)
    ensures
      var v := Step(p, action).value.world;
      if action.EvmSetCode? && action.address == a then
        Code(p.world, a) == [] && Code(v, a) == action.code && action.code != []
      else Code(v, a) == Code(p.world, a)
  {
    if action.EvmSetCode? {
      DeployReads(p.world, action.address, action.code);
    }
  }

  lemma StepSlots(p: Progress, action: Action, a: Address, index: Word)
    requires WorldOk(p.world) && Step(p, action).Done? && !action.EvmSelfDestruct?
    requires WorldOk(Step(p, action).value.world)
    ensures Storage(Step(p, action).value.world, a, index) == Storage(p.world, a, index)
  {
    if action.EvmSetCode? {
      DeployReads(p.world, action.address, action.code);
    } else {
      StepKeepsData(p, action, a);
    }
  }

  lemma StepKeepsData(p: Progress, action: Action, a: Address)
    requires Step(p, action).Done? && !action.EvmSelfDestruct? && !action.EvmSetCode?
    ensures
      var w, v := p.world, Step(p, action).value.world;
      && (a in v.ether <==> a in w.ether)
      && (a in w.ether ==> v.ether[a] == w.ether[a].(nonce := v.ether[a].nonce, balance := v.ether[a].balance))
  {
  }

  // ---- The whole fold over the kept actions ---------------------------------------------------------

  lemma FoldAppend(p: Progress, actions: seq<Action>, action: Action)
    ensures Fold(p, actions + [action]) ==
            var before := Fold(p, actions);
            if before.Failed? then before else Step(before.value, action)
  {
    assert Init(actions + [action]) == actions;
  }

  lemma FoldKept(p: Progress, log: seq<Action>, destroyed: set<Address>)
    requires log != []
    ensures Fold(p, Kept(log, destroyed)) ==
            var before := Fold(p, Kept(Init(log), destroyed));
            if before.Failed? || !Keeps(Last(log), destroyed) then before else Step(before.value, Last(log))
  {
    if Keeps(Last(log), destroyed) {
      FoldAppend(p, Kept(Init(log), destroyed), Last(log));
    } else {
      assert Kept(log, destroyed) == Kept(Init(log), destroyed);
    }
  }

  lemma {:induction false} FoldOk(p: Progress, actions: seq<Action>)
    requires WorldOk(p.world) && Fold(p, actions).Done?
    ensures WorldOk(Fold(p, actions).value.world)
    ensures Fold(p, actions).value.world.ether.Keys == p.world.ether.Keys
    decreases |actions|
  {
    if actions != [] {
      FoldOk(p, Init(actions));
      StepOk(Fold(p, Init(actions)).value, Last(actions));
    }
  }

  lemma {:induction false} KeptNonce(p: Progress, log: seq<Action>, destroyed: set<Address>, a: Address)
    requires Fold(p, Kept(log, destroyed)).Done? && a !in destroyed
    ensures NonceOver(Nonce(p.world, a), log, a) == Ok(Nonce(Fold(p, Kept(log, destroyed)).value.world, a))
    decreases |log|
  {
    if log != [] {
      FoldKept(p, log, destroyed);
      KeptNonce(p, Init(log), destroyed, a);
      if Keeps(Last(log), destroyed) {
        StepNonce(Fold(p, Kept(Init(log), destroyed)).value, Last(log), a);
      }
    }
  }

  lemma {:induction false} KeptCode(p: Progress, log: seq<Action>, destroyed: set<Address>, a: Address)
    requires WorldOk(p.world) && Fold(p, Kept(log, destroyed)).Done? && a !in destroyed
    ensures
      var v := Fold(p, Kept(log, destroyed)).value.world;
      && WorldOk(v) && Code(v, a) == CodeOver(Code(p.world, a), log, a)
      && (Deployed(log, a).Some? ==> Deployed(log, a).value != [])
    decreases |log|
  {
    FoldOk(p, Kept(log, destroyed));
    if log != [] {
      FoldKept(p, log, destroyed);
      KeptCode(p, Init(log), destroyed, a);
      if Keeps(Last(log), destroyed) {
        StepCode(Fold(p, Kept(Init(log), destroyed)).value, Last(log), a);
      }
    }
  }

  /** The value of the last write to `index`. */
  function LastTo(v: Word32, writes: seq<Write>, index: Word): Word32
    decreases |writes|
  {
    if writes == [] then v
    else if Last(writes).0 == index then Last(writes).1
    else LastTo(v, Init(writes), index)
  }

  lemma LastToAppend(v: Word32, writes: seq<Write>, write: Write, index: Word)
    ensures LastTo(v, writes + [write], index) == if write.0 == index then write.1 else LastTo(v, writes, index)
  {
    assert Init(writes + [write]) == writes;
  }

  lemma StepPending(p: Progress, action: Action, a: Address, v: Word32, index: Word)
    requires Step(p, action).Done? && !action.EvmSelfDestruct?
    ensures LastTo(v, PendingFor(Step(p, action).value.pending, a), index) ==
            if action.EvmSetStorage? && action.address == a && action.index == index then action.slot
            else LastTo(v, PendingFor(p.pending, a), index)
  {
    if action.EvmSetStorage? && action.address == a {
      LastToAppend(v, PendingFor(p.pending, a), (action.index, action.slot), index);
    }
  }

  /** Applied storage with the pending writes on top is what the journal reads. */
  lemma {:induction false} KeptStorage(p: Progress, log: seq<Action>, destroyed: set<Address>, a: Address, index: Word)
    requires WorldOk(p.world) && p.pending == map[] && Fold(p, Kept(log, destroyed)).Done? && a !in destroyed
    ensures
      var q := Fold(p, Kept(log, destroyed)).value;
      && WorldOk(q.world) && Storage(q.world, a, index) == Storage(p.world, a, index)
      && LastTo(Storage(p.world, a, index), PendingFor(q.pending, a), index)
         == StorageOver(Storage(p.world, a, index), log, a, index)
    decreases |log|
  {
    FoldOk(p, Kept(log, destroyed));
    if log != [] {
      FoldKept(p, log, destroyed);
      KeptStorage(p, Init(log), destroyed, a, index);
      if Keeps(Last(log), destroyed) {
        var q := Fold(p, Kept(Init(log), destroyed)).value;
        StepSlots(q, Last(log), a, index);
        StepPending(q, Last(log), a, Storage(p.world, a, index), index);
      }
    }
  }

  lemma StepBalance(p: Progress, action: Action, a: Address, b: Word)
    requires Step(p, action).Done? && Balance(p.world, a) == b && BalanceStep(b, action, a).Ok?
    ensures Balance(Step(p, action).value.world, a) == BalanceStep(b, action, a).value
  {
  }

  /** Balances agree for destroyed accounts too. */
  lemma {:induction false} KeptBalance(p: Progress, log: seq<Action>, destroyed: set<Address>, a: Address)
    requires Fold(p, Kept(log, destroyed)).Done? && BalanceOver(Balance(p.world, a), log, a).Ok?
    ensures BalanceOver(Balance(p.world, a), log, a).value == Balance(Fold(p, Kept(log, destroyed)).value.world, a)
    decreases |log|
  {
    if log != [] {
      FoldKept(p, log, destroyed);
      KeptBalance(p, Init(log), destroyed, a);
      if Keeps(Last(log), destroyed) {
        StepBalance(Fold(p, Kept(Init(log), destroyed)).value, Last(log), a,
                    BalanceOver(Balance(p.world, a), Init(log), a).value);
      }
    }
  }

  // ---- The self-destructs at the end ---------------------------------------------------------------------

  lemma {:induction false} FoldConcat(p: Progress, xs: seq<Action>, ys: seq<Action>)
    ensures Fold(p, xs + ys) == if Fold(p, xs).Failed? then Fold(p, xs) else Fold(Fold(p, xs).value, ys)
    decreases |ys|
  {
    if ys == [] {
      assert xs + ys == xs;
    } else {
      assert Init(xs + ys) == xs + Init(ys);
      FoldConcat(p, xs, Init(ys));
    }
  }

  lemma FoldDestructs(p: Progress, log: seq<Action>)
    requires log != []
    ensures Fold(p, Destructs(log)) ==
            var before := Fold(p, Destructs(Init(log)));
            if before.Failed? || !Last(log).EvmSelfDestruct? then before else Step(before.value, Last(log))
  {
    if Last(log).EvmSelfDestruct? {
      FoldAppend(p, Destructs(Init(log)), Last(log));
    } else {
      assert Destructs(log) == Destructs(Init(log));
    }
  }

  lemma {:induction false} DestructsSpare(p: Progress, log: seq<Action>, a: Address)
    requires Fold(p, Destructs(log)).Done?
    ensures
      var q := Fold(p, Destructs(log)).value;
      && Balance(q.world, a) == Balance(p.world, a)
      && (a !in Destroyed(log) ==>
          && (a in q.world.ether <==> a in p.world.ether) && (a in q.pending <==> a in p.pending)
          && (a in q.world.ether ==> q.world.ether[a] == p.world.ether[a])
          && (a in q.pending ==> q.pending[a] == p.pending[a]))
    decreases |log|
  {
    if log != [] {
      FoldDestructs(p, log);
      DestructsSpare(p, Init(log), a);
    }
  }

  /** An account of the log's self-destructs ends blank, one or more generations later. */
  lemma {:induction false} DestructsBlank(p: Progress, log: seq<Action>, a: Address)
    requires WorldOk(p.world) && Fold(p, Destructs(log)).Done? && a in p.world.ether
    ensures
      var q := Fold(p, Destructs(log)).value;
      && WorldOk(q.world) && a in q.world.ether && q.world.ether[a].chunks == p.world.ether[a].chunks
      && q.pending.Keys <= p.pending.Keys && Generation(q.world, a) >= Generation(p.world, a)
      && (a in Destroyed(log) ==>
          && a !in q.pending && Nonce(q.world, a) == 0 && Code(q.world, a) == []
          && Generation(q.world, a) > Generation(p.world, a))
    decreases |log|
  {
    if log != [] {
      FoldDestructs(p, log);
      DestructsBlank(p, Init(log), a);
      if Last(log).EvmSelfDestruct? {
        DeleteReads(Fold(p, Destructs(Init(log))).value.world, Last(log).address);
      }
    }
  }

  // ---- Writing out -----------------------------------------------------------------------------------------

  lemma SameChunkSlot(i: Word, j: Word)
    requires ChunkOf(i) == ChunkOf(j) && SubindexOf(i) == SubindexOf(j)
    ensures i == j
  {
  }

  lemma EmptyLookup(sub: Byte, other: Byte, value: Word32)
    ensures WellFormed(Put([], sub, value))
    ensures Lookup(Put([], sub, value), other) == if other == sub then value else ZERO
  {
    assert WellFormed([]) by { assert Subindices([]) == []; }
    PutWellFormed([], sub, value);
    LookupPut([], sub, value, other);
  }

  function ChunkRead(chunks: map<Word, Chunk>, index: Word): Word32 {
    if ChunkOf(index) in chunks then Lookup(chunks[ChunkOf(index)].entries, SubindexOf(index)) else ZERO
  }

  lemma WriteChunkReads(chunks: map<Word, Chunk>, generation: nat, i: Word, value: Word32, index: Word)
    requires ChunksOk(chunks) && WriteChunk(chunks, generation, i, value).Done?
    ensures
      var after := WriteChunk(chunks, generation, i, value).value;
      ChunksOk(after) && ChunkRead(after, index) == if index == i then value else ChunkRead(chunks, index)
  {
    if ChunkOf(i) == ChunkOf(index) && SubindexOf(i) == SubindexOf(index) {
      SameChunkSlot(i, index);
    }
    if ChunkOf(i) in chunks {
      PutWellFormed(chunks[ChunkOf(i)].entries, SubindexOf(i), value);
      LookupPut(chunks[ChunkOf(i)].entries, SubindexOf(i), value, SubindexOf(index));
    } else {
      EmptyLookup(SubindexOf(i), SubindexOf(index), value);
    }
  }

  lemma StaticWriteReads(d: seq<Byte>, i: nat, value: Word32, index: nat)
    requires i < STATIC_ENTRIES && index < STATIC_ENTRIES && INTERNAL_STORAGE_SIZE <= |d|
    ensures
      var e := d[..32 * i] + value + d[32 * i + 32..];
      && |e| == |d|
      && e[32 * index..32 * index + 32] == (if index == i then value else d[32 * index..32 * index + 32])
      && e[INTERNAL_STORAGE_SIZE..] == d[INTERNAL_STORAGE_SIZE..]
  {
    var e := d[..32 * i] + value + d[32 * i + 32..];
    forall k | 0 <= k < |d| && !(32 * i <= k < 32 * i + 32) ensures e[k] == d[k] {}
    assert e[32 * i..32 * i + 32] == value;
  }

  lemma SameBehindStatic(a: Account, b: Account)
    requires AccountOk(a) && a.codeSize > 0 && b == a.(data := b.data) && |b.data| == |a.data|
    requires b.data[INTERNAL_STORAGE_SIZE..] == a.data[INTERNAL_STORAGE_SIZE..]
    ensures AccountOk(b) && CodeOf(b) == CodeOf(a)
  {
    assert CodeOf(a) == a.data[INTERNAL_STORAGE_SIZE..][..a.codeSize];
    assert CodeOf(b) == b.data[INTERNAL_STORAGE_SIZE..][..a.codeSize];
  }

  lemma StaticSlotReads(a: Account, write: Write, index: Word)
    requires AccountOk(a) && a.codeSize > 0 && write.0 < STATIC_ENTRIES
    ensures
      var b := a.(data := a.data[..32 * write.0] + write.1 + a.data[32 * write.0 + 32..]);
      && AccountOk(b) && CodeOf(b) == CodeOf(a)
      && SlotOf(b, index) == if index == write.0 then write.1 else SlotOf(a, index)
  {
    var b := a.(data := a.data[..32 * write.0] + write.1 + a.data[32 * write.0 + 32..]);
    StaticWriteReads(a.data, write.0, write.1, if index < STATIC_ENTRIES then index else 0);
    SameBehindStatic(a, b);
  }

  lemma WriteSlotReads(a: Account, write: Write, index: Word)
    requires AccountOk(a) && a.codeSize > 0 && WriteSlot(a, write).Done?
    ensures
      var b := WriteSlot(a, write).value;
      && AccountOk(b) && b == a.(data := b.data, chunks := b.chunks)
      && CodeOf(b) == CodeOf(a)
      && SlotOf(b, index) == if index == write.0 then write.1 else SlotOf(a, index)
  {
    if write.0 < STATIC_ENTRIES {
      StaticSlotReads(a, write, index);
    } else {
      WriteChunkReads(a.chunks, a.generation, write.0, write.1, index);
    }
  }

  /** A run of writes reads back as a plain map from 256-bit index to word would. */
  lemma {:induction false} WriteSlotsRead(a: Account, writes: seq<Write>, index: Word)
    requires AccountOk(a) && a.codeSize > 0 && WriteSlots(a, writes).Done?
    ensures
      var b := WriteSlots(a, writes).value;
      && AccountOk(b) && b == a.(data := b.data, chunks := b.chunks)
      && CodeOf(b) == CodeOf(a)
      && SlotOf(b, index) == LastTo(SlotOf(a, index), writes, index)
    decreases |writes|
  {
    if writes != [] {
      WriteSlotsRead(a, Init(writes), index);
      WriteSlotReads(WriteSlots(a, Init(writes)).value, Last(writes), index);
    }
  }

  lemma WrittenOutOk(w: World, pending: map<Address, seq<Write>>)
    requires WorldOk(w) && WrittenOut(w, pending).Done?
    ensures WorldOk(WrittenOut(w, pending).value)
  {
    forall a | a in w.ether ensures AccountOk(Written(w, a, pending)) {
      if a in pending {
        WriteSlotsRead(w.ether[a], pending[a], 0);
      }
    }
  }

  lemma WrittenOutReads(w: World, pending: map<Address, seq<Write>>, a: Address, index: Word)
    requires WorldOk(w) && WrittenOut(w, pending).Done? && WorldOk(WrittenOut(w, pending).value)
    ensures
      var v := WrittenOut(w, pending).value;
      && Nonce(v, a) == Nonce(w, a) && Balance(v, a) == Balance(w, a) && Generation(v, a) == Generation(w, a)
      && Code(v, a) == Code(w, a)
      && Storage(v, a, index) == LastTo(Storage(w, a, index), PendingFor(pending, a), index)
  {
    if a in pending {
      assert CanWrite(w, a, pending[a]);
      WriteSlotsRead(w.ether[a], pending[a], index);
    }
  }

  // ---- The main theorem ----------------------------------------------------------------------------------------

  /** The stages of a change that came out ready. */
  predicate Stages(w: World, log: seq<Action>, start: Progress, kept: Progress, end: Progress, v: World) {
    && StateChange(w, log) == Done(Ready(v))
    && Fold(start, Kept(log, Destroyed(log))) == Done(kept)
    && Fold(kept, Destructs(log)) == Done(end)
    && WrittenOut(end.world, end.pending) == Done(v)
    && start.pending == map[]
  }

  lemma StagesOf(w: World, log: seq<Action>, v: World) returns (start: Progress, kept: Progress, end: Progress)
    requires WorldOk(w) && StateChange(w, log) == Done(Ready(v))
    ensures Stages(w, log, start, kept, end, v)
    ensures WorldOk(start.world) && WorldOk(kept.world) && WorldOk(end.world) && WorldOk(v)
    ensures SameReads(w, start.world) && kept.world.ether.Keys == start.world.ether.Keys
    ensures forall a :: a in Destroyed(log) ==> a in start.world.ether
    ensures start.world == Created(Processed(w, Operations(w, Needed(Rearranged(log)))), Rearranged(log)).value
  {
    var actions := Rearranged(log);
    var ops := Operations(w, Needed(actions));
    ProcessedReads(w, ops);
    var grown := Processed(w, ops);
    CreatedReads(grown, actions);
    start := Progress(Created(grown, actions).value, map[]);
    FoldConcat(start, Kept(log, Destroyed(log)), Destructs(log));
    kept := Fold(start, Kept(log, Destroyed(log))).value;
    end := Fold(kept, Destructs(log)).value;
    FoldOk(start, Kept(log, Destroyed(log)));
    FoldOk(kept, Destructs(log));
    WrittenOutOk(end.world, end.pending);
    SameReadsTrans(w, grown, start.world);
    forall a | a in Destroyed(log) ensures a in start.world.ether {
      DestroyedExists(kept, log, a);
    }
  }

  lemma SameReadsTrans(u: World, v: World, w: World)
    requires WorldOk(u) && WorldOk(v) && WorldOk(w) && SameReads(u, v) && SameReads(v, w)
    ensures SameReads(u, w)
  {
    forall a: Address ensures SameReadsAt(u, w, a) {
      assert SameReadsAt(u, v, a) && SameReadsAt(v, w, a);
    }
  }

  lemma {:induction false} DestroyedExists(p: Progress, log: seq<Action>, a: Address)
    requires WorldOk(p.world) && Fold(p, Destructs(log)).Done? && a in Destroyed(log)
    ensures a in p.world.ether
    decreases |log|
  {
    FoldDestructs(p, log);
    if a in Destroyed(Init(log)) {
      DestroyedExists(p, Init(log), a);
    } else {
      FoldOk(p, Destructs(Init(log)));
      DestructNeeds(Fold(p, Destructs(Init(log))).value, Last(log));
    }
  }

  lemma DestructNeeds(p: Progress, action: Action)
    requires action.EvmSelfDestruct? && Step(p, action).Done?
    ensures action.address in p.world.ether
  {
  }

  /** For every account the log does not destroy: nonce, code and every storage slot read after a
      change that is ready are what the journal read over the log before. Balances agree for every
      account whose journal read succeeds. */
  lemma JournalRefinement(w: World, log: seq<Action>, v: World, a: Address, index: Word)
    requires WorldOk(w) && StateChange(w, log) == Done(Ready(v))
    ensures WorldOk(v)
    ensures a !in Destroyed(log) ==> NonceOver(Nonce(w, a), log, a) == Ok(Nonce(v, a))
    ensures a !in Destroyed(log) ==> CodeOver(Code(w, a), log, a) == Code(v, a)
    ensures a !in Destroyed(log) ==> StorageOver(Storage(w, a, index), log, a, index) == Storage(v, a, index)
    ensures BalanceOver(Balance(w, a), log, a).Ok? ==> BalanceOver(Balance(w, a), log, a).value == Balance(v, a)
  {
    var start, kept, end := StagesOf(w, log, v);
    assert SameReadsAt(w, start.world, a);
    WrittenOutReads(end.world, end.pending, a, index);
    DestructsSpare(kept, log, a);
    if a !in Destroyed(log) {
      KeptNonce(start, log, Destroyed(log), a);
      KeptCode(start, log, Destroyed(log), a);
      KeptStorage(start, log, Destroyed(log), a, index);
    }
    if BalanceOver(Balance(w, a), log, a).Ok? {
      KeptBalance(start, log, Destroyed(log), a);
    }
  }

  function ChunksAt(w: World, a: Address): map<Word, Chunk> {
    if a in w.ether then w.ether[a].chunks else map[]
  }

  lemma {:induction false} CreatedChunks(w: World, actions: seq<Action>, a: Address)
    requires Created(w, actions).Done?
    ensures ChunksAt(Created(w, actions).value, a) == ChunksAt(w, a)
    decreases |actions|
  {
    if actions != [] {
      CreatedChunks(w, Init(actions), a);
    }
  }

  lemma StepChunks(p: Progress, action: Action, a: Address)
    requires Step(p, action).Done?
    ensures ChunksAt(Step(p, action).value.world, a) == ChunksAt(p.world, a)
    ensures !action.EvmSelfDestruct? ==> Generation(Step(p, action).value.world, a) == Generation(p.world, a)
  {
  }

  lemma {:induction false} KeptChunks(p: Progress, log: seq<Action>, destroyed: set<Address>, a: Address)
    requires Fold(p, Kept(log, destroyed)).Done?
    ensures
      var q := Fold(p, Kept(log, destroyed)).value;
      ChunksAt(q.world, a) == ChunksAt(p.world, a) && Generation(q.world, a) == Generation(p.world, a)
    decreases |log|
  {
    if log != [] {
      FoldKept(p, log, destroyed);
      KeptChunks(p, Init(log), destroyed, a);
      if Keeps(Last(log), destroyed) {
        StepChunks(Fold(p, Kept(Init(log), destroyed)).value, Last(log), a);
      }
    }
  }

  /** An account without code whose storage accounts are all of an older generation is blank once
      loaded. */
  lemma StaleIsBlank(v: World, a: Address, index: Word)
    requires WorldOk(v) && a in v.ether && v.ether[a].codeSize == 0
    requires forall c :: c in v.ether[a].chunks ==> v.ether[a].chunks[c].generation != v.ether[a].generation
    ensures WorldOk(Load(v)) && Storage(Load(v), a, index) == ZERO && Code(Load(v), a) == []
  {
    LoadOk(v);
    var chunks := LoadAccount(v.ether[a]).chunks;
    assert forall c :: c in chunks ==> chunks[c].entries == [];
    assert Load(v).ether[a] == LoadAccount(v.ether[a]);
  }

  lemma StartChunks(w: World, log: seq<Action>, v: World, start: Progress, kept: Progress, end: Progress, a: Address)
    requires WorldOk(w) && Stages(w, log, start, kept, end, v)
    requires start.world == Created(Processed(w, Operations(w, Needed(Rearranged(log)))), Rearranged(log)).value
    ensures ChunksAt(start.world, a) == ChunksAt(w, a)
  {
    CreatedChunks(Processed(w, Operations(w, Needed(Rearranged(log)))), Rearranged(log), a);
  }

  /** A destroyed account starts the next transaction with nonce zero, no code and every slot zero:
      its storage accounts are of an older generation and are cleared when loaded. */
  lemma DestroyedIsBlank(w: World, log: seq<Action>, v: World, a: Address, index: Word)
    requires WorldOk(w) && (a in w.ether ==> Fresh(w.ether[a]))
    requires StateChange(w, log) == Done(Ready(v)) && a in Destroyed(log)
    ensures WorldOk(v) && WorldOk(Load(v))
    ensures Nonce(Load(v), a) == 0 && Code(Load(v), a) == [] && Generation(Load(v), a) > Generation(w, a)
    ensures Storage(Load(v), a, index) == ZERO
  {
    var start, kept, end := StagesOf(w, log, v);
    assert SameReadsAt(w, start.world, a);
    StartChunks(w, log, v, start, kept, end, a);
    KeptChunks(start, log, Destroyed(log), a);
    DestructsBlank(kept, log, a);
    assert v.ether[a] == end.world.ether[a];
    StaleIsBlank(v, a, index);
  }

  // ---- From one transaction to the next ------------------------------------------------------------------------

  lemma WriteChunkFresh(chunks: map<Word, Chunk>, generation: nat, i: Word, value: Word32)
    requires WriteChunk(chunks, generation, i, value).Done?
    requires forall c :: c in chunks ==> chunks[c].generation == generation
    ensures
      var after := WriteChunk(chunks, generation, i, value).value;
      forall c :: c in after ==> after[c].generation == generation
  {
  }

  lemma {:induction false} WriteSlotsFresh(a: Account, writes: seq<Write>)
    requires Fresh(a) && WriteSlots(a, writes).Done?
    ensures Fresh(WriteSlots(a, writes).value) && WriteSlots(a, writes).value.generation == a.generation
    decreases |writes|
  {
    if writes != [] {
      WriteSlotsFresh(a, Init(writes));
      var before, write := WriteSlots(a, Init(writes)).value, Last(writes);
      if write.0 >= STATIC_ENTRIES {
        WriteChunkFresh(before.chunks, before.generation, write.0, write.1);
      }
    }
  }

  predicate FreshAt(w: World, a: Address) {
    a in w.ether ==> Fresh(w.ether[a])
  }

  /** Loading changes nothing in an account that a ready change did not destroy, so what the journal
      read is also what the next transaction reads. */
  lemma ReadyStaysFresh(w: World, log: seq<Action>, v: World, a: Address)
    requires WorldOk(w) && FreshAt(w, a) && StateChange(w, log) == Done(Ready(v)) && a !in Destroyed(log)
    ensures a in v.ether ==> Load(v).ether[a] == v.ether[a]
  {
    var start, kept, end := StagesOf(w, log, v);
    assert SameReadsAt(w, start.world, a);
    StartChunks(w, log, v, start, kept, end, a);
    KeptChunks(start, log, Destroyed(log), a);
    DestructsSpare(kept, log, a);
    if a in v.ether {
      var before := end.world.ether[a];
      assert Fresh(before);
      if a in end.pending {
        assert CanWrite(end.world, a, end.pending[a]);
        WriteSlotsFresh(before, end.pending[a]);
      }
      assert v.ether[a] == Written(end.world, a, end.pending);
      FreshLoads(v.ether[a]);
    }
  }

  lemma FreshLoads(a: Account)
    requires Fresh(a)
    ensures LoadAccount(a) == a
  {
    assert LoadChunks(a.chunks, a.generation) == a.chunks;
  }

  // ---- Code hashes -----------------------------------------------------------------------------------------------

  predicate Blank(w: World, a: Address) {
    Nonce(w, a) == 0 && Balance(w, a) == 0
  }

  /** `code_hash` of the backend over an unknown hash; `None` is the all-zero answer. */
  function CodeHash(w: World, a: Address): Option<seq<Byte>>
    requires WorldOk(w)
  {
    if Code(w, a) == [] && Blank(w, a) then None else Some(Code(w, a))
  }

  /** `code_hash` of the journal: the log's deployment, or the backend's answer. */
  function CodeHashOver(w: World, log: seq<Action>, a: Address): Option<seq<Byte>>
    requires WorldOk(w)
  {
    if Deployed(log, a).Some? then Deployed(log, a) else CodeHash(w, a)
  }

  /** The balance that applying a log leaves: transfers to oneself move nothing, credits wrap. */
  function BalanceLeft(b: Word, log: seq<Action>, a: Address): Word
    decreases |log|
  {
    if log == [] then b else
      var before := BalanceLeft(b, Init(log), a);
      match Last(log)
      case NeonTransfer(source, target, value) =>
        if source == target then before
        else if a == source then if before >= value then before - value else before
        else if a == target then WrappingAdd(before, value)
        else before
      case NeonWithdraw(source, value) => if a == source && before >= value then before - value else before
      case _ => before
  }

  lemma {:induction false} KeptBalanceLeft(p: Progress, log: seq<Action>, destroyed: set<Address>, a: Address)
    requires Fold(p, Kept(log, destroyed)).Done?
    ensures Balance(Fold(p, Kept(log, destroyed)).value.world, a) == BalanceLeft(Balance(p.world, a), log, a)
    decreases |log|
  {
    if log != [] {
      FoldKept(p, log, destroyed);
      KeptBalanceLeft(p, Init(log), destroyed, a);
    }
  }

  /** The log leaves neither nonce nor balance. */
  predicate BlankOver(w: World, log: seq<Action>, a: Address) {
    NonceOver(Nonce(w, a), log, a) == Journal.Ok(0) && BalanceLeft(Balance(w, a), log, a) == 0
  }

  /** The journal's code hash ignores what the log does to nonce and balance. For every account that is
      not destroyed it is the applied one exactly when the log leaves code, or leaves the account as blank
      as it found it. */
  lemma CodeHashAgreesIff(w: World, log: seq<Action>, v: World, a: Address)
    requires WorldOk(w) && StateChange(w, log) == Done(Ready(v)) && a !in Destroyed(log)
    ensures WorldOk(v)
    ensures CodeHashOver(w, log, a) == CodeHash(v, a)
            <==> CodeOver(Code(w, a), log, a) != [] || (Blank(w, a) <==> BlankOver(w, log, a))
  {
    JournalRefinement(w, log, v, a, 0);
    var start, kept, end := StagesOf(w, log, v);
    KeptCode(start, log, Destroyed(log), a);
    BalanceAfter(w, log, v, a);
  }

  lemma BalanceAfter(w: World, log: seq<Action>, v: World, a: Address)
    requires WorldOk(w) && StateChange(w, log) == Done(Ready(v))
    ensures Balance(v, a) == BalanceLeft(Balance(w, a), log, a)
  {
    var start, kept, end := StagesOf(w, log, v);
    assert SameReadsAt(w, start.world, a);
    WrittenOutReads(end.world, end.pending, a, 0);
    DestructsSpare(kept, log, a);
    KeptBalanceLeft(start, log, Destroyed(log), a);
  }

  const COUNT: Action := EvmIncrementNonce(1)

  const GIVE: Action := NeonTransfer(1, 2, 10)

  const GIFT: seq<Action> := [COUNT, GIVE]

  const GIVER: World := World(map[1 := Account(0, 10, 0, 0, [], map[])], map[], {})

  const COUNTED: Account := Account(1, 10, 0, 0, [], map[])

  const BLANK: Account := Account(0, 0, 0, 0, [], map[])

  const GROWN: World := World(GIVER.ether, map[2 := ACCOUNT_SIZE], {})

  const SPLIT: World := World(GIVER.ether[2 := BLANK], map[], {})

  const GIVEN: World := World(map[1 := COUNTED.(balance := 0), 2 := BLANK.(balance := 10)], map[], {})

  lemma GiftParts()
    ensures Init(GIFT) == [COUNT] && Last(GIFT) == GIVE && Init([COUNT]) == [] && Last([COUNT]) == COUNT
    ensures Deployed(GIFT, 2) == None
  {
    assert Init(GIFT) == [COUNT];
    assert Deployed([COUNT], 2) == None;
  }

  lemma CountAlone(action: Action)
    requires action.EvmIncrementNonce?
    ensures Destroyed([action]) == {} && Destructs([action]) == [] && Kept([action], {}) == [action]
    ensures Needed([action]) == map[]
  {
    assert Init([action]) == [] && Last([action]) == action;
    assert Destructs([]) == [] && Kept([], {}) == [];
  }

  lemma ThenGive(log: seq<Action>, count: Action, give: Action)
    requires log == [count, give] && count.EvmIncrementNonce? && give.NeonTransfer?
    ensures Rearranged(log) == log && Needed(log) == map[give.target := ACCOUNT_SIZE]
  {
    CountAlone(count);
    assert Init(log) == [count] && Last(log) == give;
    assert Destroyed(log) == {} && Destructs(log) == [];
    assert Kept(log, {}) == [count] + [give] == log && log + [] == log;
  }

  lemma GiftStages()
    ensures Rearranged(GIFT) == GIFT && Operations(GIVER, Needed(GIFT)) == map[2 := Create(ACCOUNT_SIZE)]
  {
    ThenGive(GIFT, COUNT, GIVE);
    assert Operations(GIVER, map[2 := ACCOUNT_SIZE]) == map[2 := Create(ACCOUNT_SIZE)];
  }

  lemma GiftCreates()
    ensures Processed(GIVER, map[2 := Create(ACCOUNT_SIZE)]) == GROWN && Created(GROWN, GIFT) == Done(SPLIT)
  {
    GiftParts();
    assert Zeros(0) == [] && GROWN.spare - {2} == map[];
    assert Created(GROWN, []) == Done(GROWN) && Created(GROWN, [COUNT]) == Done(GROWN);
  }

  lemma GiftMoves()
    ensures Fold(Progress(SPLIT, map[]), GIFT) == Done(Progress(GIVEN, map[]))
  {
    GiftParts();
    var start := Progress(SPLIT, map[]);
    var counted := World(SPLIT.ether[1 := COUNTED], map[], {});
    assert Fold(start, []) == Done(start) && Step(start, COUNT) == Done(Progress(counted, map[]));
    assert Fold(start, [COUNT]) == Done(Progress(counted, map[]));
    var moved := Transferred(counted, 1, 2, 10);
    assert moved.Done? && moved.value == counted.(ether := moved.value.ether);
    assert moved.value.ether.Keys == GIVEN.ether.Keys == {1, 2};
    assert moved.value.ether[1] == GIVEN.ether[1] && moved.value.ether[2] == GIVEN.ether[2];
    assert moved.value.ether == GIVEN.ether;
  }

  lemma GiftApplies()
    ensures StateChange(GIVER, GIFT) == Done(Ready(GIVEN))
  {
    GiftStages();
    GiftCreates();
    GiftMoves();
    assert WrittenOut(GIVEN, map[]).value.ether == GIVEN.ether;
  }

  /** For instance, after a transfer to an address that had no account: the journal still answers for a
      missing account, the applied state for one without code. */
  lemma CodeHashDiffers()
    ensures WorldOk(GIVER) && WorldOk(GIVEN) && StateChange(GIVER, GIFT) == Done(Ready(GIVEN))
    ensures CodeHashOver(GIVER, GIFT, 2) == None && CodeHash(GIVEN, 2) == Some([])
  {
    GiftApplies();
    GiftParts();
  }
}
