# Neon EVM: a verified model of the on-chain program

This project models the five cores of the on-chain program `evm_loader/program` and proves what they
keep over whole runs: the EVM object format with its validator and interpreter, the write-behind
journal with call frames and applying, the iterative transaction protocol with its locks, the layout
and reallocation of contract storage, and word arithmetic with the resumable machine.

It is plain Dafny 4.11; `dafny verify dfyconfig.toml` checks all of it.

## How the files fit together

- `opcodes`, `code_bitmap`, `eof_container`, `eof_format`, `eof_flow`, `eof_validator`, `eof_rules`,
  `eof_machine`, `eof_steps`, `eof_tables`: containers are parsed and written (EIP-3540), scanned and flow-checked
  (EIP-3670, EIP-4200, EIP-4750, EIP-5450), and run. The ends are `EofRules.TableFreeAcceptedIff`,
  `EofMachine.ValidatedCodeNeverFaults` and its exact condition, `EofMachine.HeightsHoldIff`. `eof_format`
  and `eof_steps` say in bytes what an encoding looks like and what one step does on each opcode.
- `accounts`, `journal`, `apply`, `apply_refinement`, `apply_success`, `conservation`, `reallocation`,
  `storage_layout`, `storage_address`: the log of a transaction, what is read over it, and what applying
  it does to the accounts. The ends are `ApplyRefinement.JournalRefinement`, `ApplySuccess.AppliesIff`,
  `Conservation.ReadyConserves` and `Reallocation.PostponedAsPredicted`.
- `call_frames`, `legacy_machine`, `frame_laws`, `frame_coverage`, `frame_operands`, `frame_answers`,
  `frame_effects`, `frame_memory`, `frame_code`, `evm_memory`, `word_bytes`, `resumption`, `transaction`: the
  legacy opcode table's frames over the journal, cut into iterations with the machine saved as bytes in
  between. `frame_operands` and `frame_answers` say in stack words and bytes of memory how frames are
  entered and left. The ends are `FrameCoverage.RevertedCallRestoresLog`,
  `FrameCoverage.StaticCallLeavesLog`, `Resumption.ResultsAreTheRuns`, `Resumption.ResultsComeOut`,
  `Resumption.IterationPanicsIff` and `Transactions.TransactionAppliesIff`.
- `protocol`, `program`, `protocol_laws`, `instruction_laws`, `lock_isolation`, `protocol_replay`,
  `gas_ledger`, `iterative`, `state_buffer`: Holder, State and Finalized accounts and every instruction on
  them. The ends are `ProtocolLaws.LockSafety`, `LockIsolation.HeldReadsOver`,
  `ReplaySafety.ReplaySafety`, `GasLedger.CallersPayForGas`, `InstructionLaws.TakeoverIff` and
  `Iterative.ResumedIsSingleShot`.
- `arithmetic`: ADDMOD, MULMOD and EXP against the Ethereum Yellow Paper, appendix H.2.

Code that changes things step by step is a class or a loop, proved equal to a function; the laws are
lemmas about that function.

## What is taken as given

Hashes and derived addresses are arguments: the addresses of created contracts, transaction hashes and
signatures. External Solana instructions either succeed without touching the program's accounts or
fail. A decoded opcode that only changes its own frame is represented by its result, so the frame laws
hold for all code. Precompiled contracts and extensions are represented by what they queue, withdraw
and answer; that they queue nothing in static mode is theirs. `STORAGE_ENTRIES_IN_CONTRACT_ACCOUNT`,
`OPERATOR_PRIORITY_SLOTS`, `EVM_STEPS_MIN` and `EVM_STEPS_LAST_ITERATION_MAX` are any numbers. The
release build's wrapping arithmetic is written out wherever the code relies on it. Bincode itself
is exact: what is saved are the machine's fields, memories and stacks as the bytes their own
serializers write. Within one instruction every account an operation needs is passed with it, and
errors and panics alike undo the whole instruction.

`FrameCoverage.Genuine` excludes one step: a frame that runs as an extension's own address
delegate-calling that extension. Such an address has no code to do it with.
`FrameCode.Sensible` says that a frame without code decodes to STOP, and that nothing is created at the
address in question while its nonce is unused, which is a matter of hashes; the origin needs only the
first (`FrameCode.OriginIsUsed`). `ReplaySafety.Genuine` says that results come from such runs over
accounts in which the caller has throughout the code it has now, whatever else changes between the
steps, and that nonces stay clear of 2^64.
A payment in `Protocol.Payment` is a record of the balances before and after it, kept beside the state;
no instruction reads it.

## Where the code differs from what it or its documentation says

- Jump tables. The validator reuses its instruction counter for the size of a table
  (`evm_loader/program/src/evm/validate.rs:80`), so accepted code can hide unreachable instructions:
  `EofValidator.TableHidesUnreachableCode`, with the exact condition in `EofValidator.AllReachableIff`.
  The bitmap computes the size of a table in eight bits
  (`evm_loader/program/src/evm/analysis.rs:92`): `CodeBitmap.WrappedTableMisdecodes`, with the exact
  condition in `CodeBitmap.BitmapAgreesIff`. The interpreter reads a table one byte later than the
  validator and takes the index behind its last entry for an entry
  (`evm_loader/program/src/evm/opcode.rs:931`): `EofTables.AcceptedTableUnderflows`, with the exact
  condition in `EofMachine.HeightsHoldIff`.
- Opcodes. The scan's comment says it checks that every instruction is valid, but its condition never
  holds (`evm_loader/program/src/evm/validate.rs:56`): `EofValidator.ScanIgnoresOpcodes`. Undefined
  opcodes are still rejected where control can reach them (`EofValidator.AcceptedAreDefined`);
  deprecated ones are not (`EofValidator.DeprecatedIsAccepted`).
- Balances. A log built through balance-checked transfers is covered, but gas paid between iterations
  is not in it: `Conservation.GasBreaksCoverage` shows a transaction whose result can no longer be
  applied, and `Conservation.CoveredAfterPayment` says exactly when that happens.
- Memory. A growth that fails on its size leaves the size beyond the capacity, and such a memory can no
  longer be saved: `EvmMemory.FailedGrowthCannotBeSaved`. Frames that fail are dropped, except the
  outermost, so a transaction whose outermost frame fails that way panics in every iteration that
  reaches the failure and never finishes: `Resumption.FarLoadPanics`, with the exact condition in
  `Resumption.BrokenExit` and `Resumption.IterationPanicsIff`.
- Storage addresses. The seed of a storage account drops the three high bytes of the index
  (`StorageLayout.SeedCollision`); a colliding write fails, it never reaches the wrong slot
  (`StorageAddress.TakenIffSeedShared`).
- Code hashes. The journal's `code_hash` looks at the nonce and balance before the transaction:
  `ApplyRefinement.CodeHashDiffers`, with the exact condition in `ApplyRefinement.CodeHashAgreesIff`.
- A storage account may reach 8505 bytes, a little more than the 8.25 kb in the comment at
  `evm_loader/program/src/account/ether_storage.rs:146`: the header was not counted
  (`StorageLayout.SpaceBound`).
- A call that ends by STOP fills its return range with zeros, and a shorter answer is padded with zeros:
  `FrameEffects.OnesBecomeZeros`, with the exact condition in `FrameEffects.PaddingShowsIff`.
- A transaction's operator keeps its priority from the slot the State was created or last handed over,
  not from its last iteration, however often it continues: `InstructionLaws.PriorityRuns`, and when another
  operator is let in, `InstructionLaws.TakeoverIff` and `InstructionLaws.HandoverIff`.
- A creation that returns no code logs a deployment, and applying it panics
  (`evm_loader/program/src/account_storage/apply.rs:401-403`), so such a transaction can be cancelled but
  never finished: `ApplySuccess.EmptyCodeNeverApplies`, with the exact condition in
  `ApplySuccess.AppliesIff`.
- An account listed twice in a State makes cancelling count the caller's nonce twice:
  `ReplaySafety.PassedTwiceCountsTwice`, with the exact condition in `ReplaySafety.CancelCountsEntries`.

## Model

| member | source | states |
|---|---|---|
| `WordArithmetic.AddMod` | evm_loader/program/src/evm/opcode.rs:155-186 | for all words, the wrapping case split returns (a + b) mod m over unbounded integers, and 0 for m = 0 |
| `WordArithmetic.MulMod` | evm_loader/program/src/evm/opcode.rs:187-231 | the double-and-add loop over wrapping words returns (a * b) mod m over unbounded integers, and 0 for m = 0 |
| `WordArithmetic.Exp` | evm_loader/program/src/evm/opcode.rs:233-259 | the square-and-multiply loop over wrapping words returns a to the b modulo 2^256 |
| `CodeBitmap.Bitvec.SetN` | evm_loader/program/src/evm/analysis.rs:21-28 | a run of up to seven bits from any position is set and every other bit kept, within the vector |
| `CodeBitmap.Bitvec.Set8` | evm_loader/program/src/evm/analysis.rs:30-34 | the same for eight bits |
| `CodeBitmap.Bitvec.Set16` | evm_loader/program/src/evm/analysis.rs:36-41 | the same for sixteen bits |
| `CodeBitmap.Bitvec.IsCodeSegment` | evm_loader/program/src/evm/analysis.rs:43-46 | the bit is read as the marks say |
| `CodeBitmap.Bitvec.Mark` | evm_loader/program/src/evm/analysis.rs:64-121 | marks exactly the immediates that a linear scan skips, without writing past the vector even behind a truncated PUSH32 |
| `CodeBitmap.EofCodeBitmap` | evm_loader/program/src/evm/analysis.rs:53-62 | the whole bitmap has a clear bit at p exactly when the scan takes p for code |
| `CodeBitmap.BitmapAgreesIff` | evm_loader/program/src/evm/analysis.rs:53-121 | the bitmap tells code from immediates as linear decoding does, on the whole code, exactly when no instruction is a table of more than 127 entries whose size modulo 256 ends inside the code |
| `CodeBitmap.BitmapDecodesLinearly` | evm_loader/program/src/evm/analysis.rs:53-121 | under that condition p counts as code exactly when p starts an instruction of the linear decoding, behind the end of the code too |
| `CodeBitmap.WrappedTableIsTakenForCode` | evm_loader/program/src/evm/analysis.rs:88-95 | behind a table at which the condition fails, if the bitmap followed the decoding so far, it takes a position inside the table for code |
| `CodeBitmap.WrappedTableMisdecodes` | evm_loader/program/src/evm/analysis.rs:88-95 | for instance, a table of 128 entries: its size wraps in eight bits and its jump offsets are taken for code |
| `EofContainer.UnmarshalBinary` | evm_loader/program/src/evm/eof.rs:217-321 | the parser as it runs returns what the declarative parse of the format returns, errors and panics included |
| `EofContainer.CutCode` | evm_loader/program/src/evm/eof.rs:299-310 | the loop that cuts code sections returns the sections or the first error |
| `EofContainer.UnmarshalMarshal` | evm_loader/program/src/evm/eof.rs:175-321 | decoding an encoded container gives it back, for every representable container of at most 65535 bytes |
| `EofContainer.MarshalUnmarshal` | evm_loader/program/src/evm/eof.rs:175-321 | encoding what was decoded gives exactly the accepted bytes, although the expected size is a wrapping u16 sum |
| `EofContainer.AcceptedIffEncoding` | evm_loader/program/src/evm/eof.rs:217-321 | a byte string is accepted exactly when it is the encoding of a well-formed container |
| `EofFormat.HeaderIs` | evm_loader/program/src/evm/eof.rs:175-214 | the header of an encoded container byte by byte: magic, version, kinds and sizes of the sections, terminator |
| `EofFormat.SectionIs` | evm_loader/program/src/evm/eof.rs:175-214 | where the size, the type and the code of each section lie in an encoded container, and the data behind them |
| `EofFlow.ValidateControlFlow` | evm_loader/program/src/evm/validate.rs:157-299 | the worklist ends, accepts exactly when every configuration reachable from the entry is locally fine and heights agree, its heights are exactly the reached ones, the declared maximum is the greatest, and it returns how many positions were reached |
| `EofFlow.Follow` | evm_loader/program/src/evm/validate.rs:179-288 | following one path keeps the worklist invariant: what was visited is reached and either expanded or pending |
| `EofFlow.Process` | evm_loader/program/src/evm/validate.rs:188-285 | one instruction is checked and its successors are recorded or pushed, or the exact error is a real conflict |
| `EofFlow.PathRecorded` | evm_loader/program/src/evm/validate.rs:157-299 | every configuration on every path from the entry is recorded with its height |
| `EofFlow.DoneIsCertificate` | evm_loader/program/src/evm/validate.rs:289-298 | when the worklist is empty the heights are a fixpoint with entry, successors and maximum |
| `EofValidator.CheckDest` | evm_loader/program/src/evm/validate.rs:132-155 | a destination is accepted exactly when it lies inside the code on a clear bit of the bitmap |
| `EofValidator.CheckTable` | evm_loader/program/src/evm/validate.rs:87-95 | the entries of a jump table are accepted exactly when each is a destination inside the code on a clear bit |
| `EofValidator.Scan` | evm_loader/program/src/evm/validate.rs:33-118 | the scan accepts exactly when every instruction has whole immediates, jump targets and table entries on code of the bitmap and existing sections; it says nothing on which opcodes are defined; the counter is returned as the source leaves it |
| `EofValidator.ValidateCode` | evm_loader/program/src/evm/validate.rs:33-129 | a section is accepted exactly when scan, termination, control flow and the comparison with the counter are fine |
| `EofValidator.ValidateContainer` | evm_loader/program/src/evm/validate.rs:25-31 | a container is accepted exactly when each of its sections is |
| `EofValidator.NextIsStart` | evm_loader/program/src/evm/validate.rs:52-155 | in accepted code control moves from instruction start to instruction start inside the section |
| `EofValidator.AllReachableIff` | evm_loader/program/src/evm/validate.rs:52-128 | every instruction of an accepted section is reachable exactly when the counter still counts the instructions |
| `EofValidator.NoUnreachableCode` | evm_loader/program/src/evm/validate.rs:124-127 | without jump tables every instruction of an accepted section is reachable |
| `EofValidator.AcceptedAreDefined` | evm_loader/program/src/evm/validate.rs:202-204 | so, without jump tables, every instruction of an accepted section is defined, as EIP-3670 asks |
| `EofRules.ScanIff` | evm_loader/program/src/evm/validate.rs:33-118 | where the bitmap follows the decoding, the scan accepts exactly the codes whose immediates are whole, whose jumps and table entries land on instructions, whose tables are not empty and whose calls name sections that are there |
| `EofRules.TableFreeAcceptedIff` | evm_loader/program/src/evm/validate.rs:33-129 | a section without jump tables is accepted exactly when its instructions keep these rules, its last one is a STOP, RJUMP, RETF, RETURN, REVERT or INVALID, its paths agree on heights within bounds, and every instruction is on some path |
| `EofValidator.ScanIgnoresOpcodes` | evm_loader/program/src/evm/validate.rs:54-58 | the scan itself never rejects an opcode: every deprecated opcode is defined, and a code with an undefined one passes it |
| `EofValidator.DeprecatedIsAccepted` | evm_loader/program/src/evm/validate.rs:54-58 | a section with the deprecated PC is accepted |
| `EofValidator.TableHidesUnreachableCode` | evm_loader/program/src/evm/validate.rs:76-84 | an accepted section with a jump table whose last STOP no path reaches, because the table size overwrites the counter |
| `EofMachine.TableMatchesHandlers` | evm_loader/program/src/evm/opcode_table.rs:237-900 | for every plain opcode the table's stack effect covers what its handler pops and pushes |
| `EofMachine.StepSound` | evm_loader/program/src/evm/opcode.rs:902-1084 | from a state of the invariant no step faults, and the next state keeps it: pc on an instruction start of a valid section, height equal to the frame base plus the recorded height |
| `EofMachine.RunKeepsInv` | evm_loader/program/src/evm/opcode.rs:902-1084 | the same for every run |
| `EofMachine.HeightsHoldIff` | evm_loader/program/src/evm/opcode.rs:922-936 | from every state of the invariant, whatever the inputs, no step faults and every step keeps it, exactly when each entry the interpreter may read of a reached jump table leads to a position recorded with the height it is entered at |
| `EofMachine.ContainerNeverFaults` | evm_loader/program/src/evm/validate.rs:25-31 | a validated container whose tables meet that condition and the one on the bitmap never underflows, leaves its code, pushes past its end, meets an unknown opcode or indexes a missing section |
| `EofMachine.TableFreeReadsWell` | evm_loader/program/src/evm/opcode.rs:922-936 | code without jump tables meets both conditions |
| `EofTables.AcceptedTableUnderflows` | evm_loader/program/src/evm/opcode.rs:922-936 | bytes that unmarshal and validate, and that underflow the operand stack in every run, because the interpreter takes the operand of the instruction behind the table for an offset |
| `EofMachine.ValidatedCodeNeverFaults` | evm_loader/program/src/evm/eof.rs:217-321 | the same from the bytes: whatever unmarshals and validates and has its tables read well |
| `EofMachine.Interpreter.OpcodeCallF` | evm_loader/program/src/evm/opcode.rs:1051-1072 | pushes the return context of the modelled step, or exits on the height limit |
| `EofMachine.Interpreter.OpcodeRetF` | evm_loader/program/src/evm/opcode.rs:1075-1084 | pops the return context of the modelled step, or stops in the outermost function |
| `EofMachine.Interpreter.Execute` | evm_loader/program/src/evm/mod.rs:417-468 | the execution loop does the modelled steps |
| `EofSteps.JumpMoves` | evm_loader/program/src/evm/opcode.rs:902-908 | for every container and state on RJUMP, the step goes behind the immediate plus the signed big-endian offset in it |
| `EofSteps.JumpIMoves` | evm_loader/program/src/evm/opcode.rs:911-919 | for every container and state on RJUMPI, the step takes the condition from the top, goes behind the immediate when it is zero and adds the offset when it is not |
| `EofSteps.JumpVMoves` | evm_loader/program/src/evm/opcode.rs:922-936 | RJUMPV takes the index from the top: beyond the count it goes behind the table, otherwise it adds the offset that starts one byte behind the entry |
| `EofSteps.JumpsNeedOperand` | evm_loader/program/src/evm/opcode.rs:911-936 | without a word on the stack both underflow |
| `EofSteps.PushPushes` | evm_loader/program/src/evm/opcode.rs:949-998 | PUSHn pushes its n bytes read as one big-endian number and goes on behind them, or fails on truncated code or a full stack |
| `EofSteps.PushZero` | evm_loader/program/src/evm/opcode.rs:940-946 | PUSH0 pushes zero |
| `EofSteps.DupCopies` | evm_loader/program/src/evm/opcode.rs:1001-1007 | DUPn pushes a copy of the n-th word from the top |
| `EofSteps.SwapExchanges` | evm_loader/program/src/evm/opcode.rs:1009-1015 | SWAPn exchanges the top word with the one n words below it and keeps the words between |
| `EofSteps.TooFewWords` | evm_loader/program/src/evm/stack.rs:221-262 | both underflow when there are not that many words |
| `EofSteps.CallEntersFunction` | evm_loader/program/src/evm/opcode.rs:1051-1072 | CALLF enters the section its two bytes name, at its beginning, and keeps section and position behind the call to return to; a section that is not there is a fault |
| `EofSteps.FunctionReturns` | evm_loader/program/src/evm/opcode.rs:1075-1084 | RETF goes back to the section and position behind the CALLF that entered the function, with the stack as it is |
| `EofSteps.OutermostStops` | evm_loader/program/src/evm/opcode.rs:1079-1081 | RETF in the outermost function stops |
| `EofSteps.CodeEnds` | evm_loader/program/src/evm/mod.rs:424-440 | behind the end of a section the machine stops |
| `EofSteps.HaltsMean` | evm_loader/program/src/evm/opcode.rs:1392-1560 | the halting opcodes by number: STOP, INVALID, RETURN, REVERT |
| `EofSteps.PlainRefusedIff` | evm_loader/program/src/evm/validate.rs:200-218 | on a plain opcode the validator refuses exactly what the dispatch does not know, what lacks operands, and what would leave more than 1024 words |
| `EofSteps.PlainFaultsIff` | evm_loader/program/src/evm/opcode_table.rs:237-900 | and the machine faults there exactly on the first two |
| `EofSteps.ControlRefusedIff` | evm_loader/program/src/evm/validate.rs:205-285 | the exact heights at which the validator refuses a jump, a push, a return and a halt |
| `EofSteps.CallRefusedIff` | evm_loader/program/src/evm/validate.rs:221-242 | CALLF is refused exactly when its bytes name no section, its inputs are missing, or its outputs would not fit |
| `EofSteps.FollowedTo` | evm_loader/program/src/evm/validate.rs:220-280 | the positions and heights the validator follows a jump, a push and a halt to, from the bytes of the code |
| `EofSteps.FollowedBehind` | evm_loader/program/src/evm/validate.rs:281-285 | a plain opcode is followed behind it, at the height its handler leaves |
| `EofSteps.TableFollowed` | evm_loader/program/src/evm/validate.rs:263-277 | every entry of a jump table is followed, each starting right behind the one before, and the code behind the table |
| `StorageLayout.LookupPut` | evm_loader/program/src/account/ether_storage.rs:110-168 | a write is seen by reads of its own subindex and by no others |
| `StorageLayout.PutSubindices` | evm_loader/program/src/account/ether_storage.rs:125-168 | a write keeps the subindices in order and adds its own only when it is new, growing by one entry exactly then |
| `StorageLayout.PutWellFormed` | evm_loader/program/src/account/ether_storage.rs:125-168 | no subindex is ever stored twice |
| `StorageLayout.SpaceBound` | evm_loader/program/src/account/ether_storage.rs:146-147 | an account never exceeds its header and 256 entries of 33 bytes |
| `StorageLayout.RunOfWrites` | evm_loader/program/src/account/ether_storage.rs:110-168 | after any run of writes a read gives the last value written, or what was there |
| `StorageLayout.EthereumStorage.Create` | evm_loader/program/src/account/ether_storage.rs:171-209 | a new account holds one entry and the contract's generation |
| `StorageLayout.EthereumStorage.Get` | evm_loader/program/src/account/ether_storage.rs:110-123 | the scan over the chunks returns the map's value |
| `StorageLayout.EthereumStorage.Set` | evm_loader/program/src/account/ether_storage.rs:125-168 | the entries become the map with the write, and the recorded top-up is what the grown account lacks |
| `StorageLayout.EthereumStorage.Clear` | evm_loader/program/src/account/ether_storage.rs:211-225 | the account is emptied under the new generation and lamports above the bare rent are handed over |
| `StorageLayout.EthereumStorage.SetAll` | evm_loader/program/src/account_storage/apply.rs:222-278 | over any run of writes the last recorded top-up covers the rent of the final length, and exactly when it is not zero |
| `StorageLayout.MakeSeed` | evm_loader/program/src/account/ether_storage.rs:57-82 | the loops build the seed of the specification |
| `StorageLayout.SeedCollision` | evm_loader/program/src/account/ether_storage.rs:57-82 | two indices have the same seed exactly when their bytes 3 to 30 agree: the three high bytes do not count |
| `StorageAddress.SharedAddress` | evm_loader/program/src/account/ether_storage.rs:32-82 | two storage accounts of a contract have the same seed exactly when their indices agree modulo 2^232 |
| `StorageAddress.TakenIffSeedShared` | evm_loader/program/src/account/ether_storage.rs:32-82 | creating a storage account finds its address taken exactly when another one of the contract has its seed |
| `Accounts.LoadOk` | evm_loader/program/src/account_storage/base.rs:55-60 | loading leaves a well-formed world in which no storage account lags behind its contract |
| `Journal.ExecutorState.Nonce` | evm_loader/program/src/executor/state.rs:208-220 | the loop returns the backend nonce plus the increments in the log, or the overflow |
| `Journal.ExecutorState.Balance` | evm_loader/program/src/executor/state.rs:229-257 | the loop returns the balance over the log with checked subtraction and addition in log order |
| `Journal.ExecutorState.Code` | evm_loader/program/src/executor/state.rs:312-322 | the first deployment in the log, or the backend's code |
| `Journal.ExecutorState.Storage` | evm_loader/program/src/executor/state.rs:348-363 | the last write in the log, or the backend's slot |
| `Journal.ExecutorState.Transfer` | evm_loader/program/src/executor/state.rs:259-280 | logs exactly the non-trivial transfers that the read balance covers, so a covered log stays covered |
| `Journal.ExecutorState.SetCode` | evm_loader/program/src/executor/state.rs:324-339 | logs the code unless it is longer than 24576 bytes |
| `Journal.ExecutorState.Snapshot` | evm_loader/program/src/executor/state.rs:418-420 | the mark is the length of the log |
| `Journal.ExecutorState.RevertSnapshot` | evm_loader/program/src/executor/state.rs:422-435 | the log is cut at the last mark; panics exactly on an empty stack or a failed sanity check |
| `Journal.ExecutorState.CommitSnapshot` | evm_loader/program/src/executor/state.rs:437-441 | the last mark is dropped; panics exactly on an empty stack |
| `Journal.LedgerConserves` | evm_loader/program/src/executor/state.rs:229-280 | along a covered log no balance goes below zero and the sum drops by exactly the withdrawals |
| `Journal.CoveredReads` | evm_loader/program/src/executor/state.rs:229-257 | over a covered log, with the supply in 256 bits, no balance read fails and each gives the ledger's value |
| `Journal.PrefixCovered` | evm_loader/program/src/executor/state.rs:422-428 | reverting to a snapshot keeps the log covered |
| `Apply.RearrangeActions` | evm_loader/program/src/account_storage/apply.rs:167-210 | the two loops return the kept actions in order followed by the self-destructs |
| `Apply.ProgramAccountStorage.CalcAccountsOperations` | evm_loader/program/src/account_storage/mod.rs:112-152 | exactly the accounts that lack space get an operation, to the largest size any action needs |
| `Apply.ProgramAccountStorage.ProcessAccountsOperations` | evm_loader/program/src/account_storage/apply.rs:283-354 | in whatever order the map yields them, every account reaches what one instruction can give it, and the result says whether all reached their goal |
| `Apply.ProgramAccountStorage.CreateAccountIfNotExists` | evm_loader/program/src/account_storage/apply.rs:439-467 | a missing account is initialized blank from its uninitialized space |
| `Apply.ProgramAccountStorage.TransferNeonTokens` | evm_loader/program/src/account_storage/apply.rs:410-437 | the balances move, or the exact error is returned |
| `Apply.ProgramAccountStorage.DeployContract` | evm_loader/program/src/account_storage/apply.rs:373-408 | the code is written behind the static storage, or the failing assertion is returned |
| `Apply.ProgramAccountStorage.DeleteAccount` | evm_loader/program/src/account_storage/apply.rs:357-371 | nonce, code and data are blanked and the generation rises; the balance stays |
| `Apply.ProgramAccountStorage.ApplyStorage` | evm_loader/program/src/account_storage/apply.rs:212-281 | the collected writes reach static and chunked storage contract by contract, in any order of contracts |
| `Apply.ProgramAccountStorage.ApplyAction` | evm_loader/program/src/account_storage/apply.rs:92-159 | one action has its modelled effect or its modelled failure |
| `Apply.ProgramAccountStorage.ApplyStateChange` | evm_loader/program/src/account_storage/apply.rs:53-165 | the whole change does what the specification of its stages says: ready, postponed, or the failure |
| `Apply.ProgramAccountStorage.TransferGasPayment` | evm_loader/program/src/account_storage/apply.rs:24-51 | origin pays operator, whichever way the operator account was loaded; short balances fail first and paying oneself does nothing |
| `ApplyRefinement.JournalRefinement` | evm_loader/program/src/account_storage/apply.rs:53-281 | for any log that came out ready: nonce, code and every slot of every account not destroyed are what the journal read before, despite reordering and dropping; balances too wherever the journal's read succeeds |
| `ApplyRefinement.DestroyedIsBlank` | evm_loader/program/src/account_storage/apply.rs:357-371 | a destroyed account has nonce zero, no code, a higher generation and, once loaded again, zero in every slot |
| `ApplyRefinement.ReadyStaysFresh` | evm_loader/program/src/account_storage/base.rs:55-60 | an account that was not destroyed is not cleared when it is loaded again |
| `ApplyRefinement.WriteSlotsRead` | evm_loader/program/src/account_storage/apply.rs:226-272 | any run of writes to static and chunked storage reads back as a plain map from 256-bit index to word, and leaves the code alone |
| `ApplyRefinement.ProcessedReads` | evm_loader/program/src/account_storage/apply.rs:283-354 | a postponed change reads as if nothing had been applied |
| `ApplyRefinement.KeptNonce` | evm_loader/program/src/account_storage/apply.rs:119-126 | the fold over the kept actions gives the journal's nonce |
| `ApplyRefinement.KeptCode` | evm_loader/program/src/account_storage/apply.rs:127-129 | the fold gives the code of the first deployment, and no second one can have succeeded |
| `ApplyRefinement.KeptStorage` | evm_loader/program/src/account_storage/apply.rs:109-118 | the slot with the collected writes on top is the journal's slot |
| `ApplyRefinement.KeptBalance` | evm_loader/program/src/account_storage/apply.rs:94-108 | the fold gives the journal's balance, for destroyed accounts too |
| `ApplyRefinement.DestructsBlank` | evm_loader/program/src/account_storage/apply.rs:130-134 | the self-destructs at the end blank their accounts and nothing is collected for them |
| `ApplyRefinement.CodeHashAgreesIff` | evm_loader/program/src/executor/state.rs:298-310 | for every account that is not destroyed, the journal's code hash is the applied one exactly when the log leaves code or leaves the account as blank, by nonce and balance, as it found it |
| `ApplyRefinement.CodeHashDiffers` | evm_loader/program/src/executor/state.rs:298-310 | after a transaction that counts its origin's nonce and sends tokens to an address without an account, the journal answers for a missing account, the applied state for one without code |
| `ApplyRefinement.BalanceAfter` | evm_loader/program/src/account_storage/apply.rs:94-108 | the applied balance of every account is its balance with the log's transfers and withdrawals summed up |
| `ApplySuccess.DeploysIff` | evm_loader/program/src/account_storage/apply.rs:373-408 | on an account that is there, has no code and has the space, a deployment is done exactly when its code is not empty |
| `ApplySuccess.CoveredAppliesIff` | evm_loader/program/src/account_storage/apply.rs:53-165 | once the accounts have their space, a covered log is applied exactly when every action fits |
| `ApplySuccess.AppliesIff` | evm_loader/program/src/account_storage/apply.rs:53-165 | a log is applied exactly when the accounts get their space, the balances cover it, and every action has what it needs of the accounts before: no refused external instruction, payers and counted nonces there, nonces and generations below their limits, one nonempty deployment where there was no code, and storage writes only where there is code and the address is free |
| `ApplySuccess.EmptyCodeNeverApplies` | evm_loader/program/src/account_storage/apply.rs:373-408 | for instance, a log with a deployment of no code is never applied |
| `Conservation.CoveredNeverShort` | evm_loader/program/src/account_storage/apply.rs:410-431 | applying a covered log never reports insufficient funds |
| `Conservation.ReadyConserves` | evm_loader/program/src/account_storage/apply.rs:53-165 | a log without transfers to oneself that applied was covered, every balance ends at the ledger's value, and the sum drops by exactly the withdrawals |
| `Conservation.CoveredRefinement` | evm_loader/program/src/executor/state.rs:229-257 | for a covered log that applied, every journal balance succeeds and is the applied balance |
| `Conservation.GasPaymentConserves` | evm_loader/program/src/account_storage/apply.rs:24-51 | a gas payment moves the amount and keeps the sum |
| `Conservation.SeparateGasPaymentConserves` | evm_loader/program/src/account_storage/apply.rs:42-48 | the same for an operator account loaded separately |
| `Conservation.CoveredAfterPayment` | evm_loader/program/src/instruction/transaction_step.rs:96-111 | a log covered when it was written is still covered after a gas payment exactly when every later spending of the origin leaves room for it |
| `Conservation.GasBreaksCoverage` | evm_loader/program/src/instruction/transaction_step.rs:131-147 | a covered log that fails for funds when applied, because its origin paid gas between the iterations |
| `Reallocation.PredictIterations` | evm_loader/lib/src/account_storage.rs:407-434 | the emulator's loop returns the largest number of additional resize steps and the cost of rent and resize instructions, exact unless it saturates or the product wraps |
| `Reallocation.PredictionIsExact` | evm_loader/program/src/account_storage/apply.rs:300-348 | attempt number k still needs reallocations exactly when k is below the prediction |
| `Reallocation.PostponedAsPredicted` | evm_loader/program/src/account_storage/apply.rs:64-76 | repeating a change is postponed exactly as often as predicted and then carried out |
| `Reallocation.RefinementAfterPostponing` | evm_loader/program/src/account_storage/apply.rs:53-165 | however often it was postponed, the result is what the journal read over the accounts before the first attempt |
| `Reallocation.DeployHasSpace` | evm_loader/program/src/account_storage/apply.rs:384-394 | once every account has reached its size, the space assertion cannot fail and no account is missing |
| `EvmMemory.Memory.Realloc` | evm_loader/program/src/evm/memory.rs:71-110 | succeeds exactly when the range rounds to at most 64 KiB; then bytes are kept and zeros added; a failure leaves the size beyond the capacity unless the sum overflowed |
| `EvmMemory.Memory.Read` | evm_loader/program/src/evm/memory.rs:118-131 | returns the touched range; an empty read touches nothing |
| `EvmMemory.Memory.WriteByte` | evm_loader/program/src/evm/memory.rs:155-164 | one byte of the touched memory is replaced |
| `EvmMemory.Memory.WriteBuffer` | evm_loader/program/src/evm/memory.rs:166-206 | the range becomes the source from its offset, padded with zeros |
| `EvmMemory.Memory.Serialize` | evm_loader/program/src/evm/memory.rs:224-232 | saves the bytes up to the size; panics exactly when the size is beyond the capacity |
| `EvmMemory.Memory.FromBuffer` | evm_loader/program/src/evm/memory.rs:44-62 | a restored memory is valid and has the saved bytes |
| `EvmMemory.SaveAndRestore` | evm_loader/program/src/evm/memory.rs:224-262 | every valid memory can be saved, and what is restored has the same bytes and capacity |
| `EvmMemory.ReallocatedMeaning` | evm_loader/program/src/evm/memory.rs:71-110 | growing keeps the bytes and adds zeros exactly when the range is within reach; otherwise the size is beyond the capacity exactly when the sum did not overflow |
| `EvmMemory.WriteMeaning` | evm_loader/program/src/evm/memory.rs:166-206 | writing a range within reach replaces exactly these bytes of the touched memory |
| `EvmMemory.FailedGrowthCannotBeSaved` | evm_loader/program/src/evm/memory.rs:79-92 | after touching a range, saving panics exactly when the range was out of reach without overflowing |
| `EvmMemory.NextPowerIsLeast` | evm_loader/program/src/evm/memory.rs:87-89 | the next power of two is not below the size and not above any power of two that is not |
| `EvmMemory.CapacityKept` | evm_loader/program/src/evm/memory.rs:83-85 | sizes between a size and its capacity have the same capacity |
| `EvmStack.Stack.Push` | evm_loader/program/src/evm/stack.rs:66-76 | appends the word, or overflows at 127 words and changes nothing |
| `EvmStack.Stack.Pop` | evm_loader/program/src/evm/stack.rs:107-113 | removes the last word, or underflows exactly on the empty stack |
| `EvmStack.Stack.Dup` | evm_loader/program/src/evm/stack.rs:221-237 | appends a copy of the n-th word, or the exact error |
| `EvmStack.Stack.Swap` | evm_loader/program/src/evm/stack.rs:240-262 | exchanges two words byte for byte and nothing else |
| `EvmStack.SaveAndRestore` | evm_loader/program/src/evm/stack.rs:273-322 | a saved stack is restored with the same words |
| `LegacyMachine.Evm.Fork` | evm_loader/program/src/evm/mod.rs:490-538 | the child becomes current with the parent's static flag, the parent is kept behind it |
| `LegacyMachine.Evm.Join` | evm_loader/program/src/evm/mod.rs:540-547 | the parent becomes current and the left frame is returned |
| `LegacyMachine.Evm.OpcodeReturnImpl` | evm_loader/program/src/evm/opcode.rs:1403-1447 | code of a creation is validated and logged, the snapshot committed, the result delivered, as the specification of the handler says |
| `LegacyMachine.Evm.OpcodeRevertImpl` | evm_loader/program/src/evm/opcode.rs:1461-1495 | the snapshot is reverted and the failure delivered |
| `LegacyMachine.Evm.OpcodeStop` | evm_loader/program/src/evm/opcode.rs:1560-1588 | the snapshot is committed and success delivered with a zeroed return range |
| `LegacyMachine.Evm.OpcodeSelfDestruct` | evm_loader/program/src/evm/opcode.rs:1516-1556 | the whole balance moves to the heir, the self-destruct is logged and the frame left |
| `LegacyMachine.Evm.OpcodeCreateImpl` | evm_loader/program/src/evm/opcode.rs:1127-1186 | nonce, fork, snapshot and checks in the source's order, with what each error leaves behind; its callers have read the initialization code before |
| `LegacyMachine.Evm.OpcodeCall` | evm_loader/program/src/evm/opcode.rs:1190-1238 | fork, snapshot, static and balance checks, transfer, precompiled contracts |
| `LegacyMachine.Evm.OpcodeCallCode` | evm_loader/program/src/evm/opcode.rs:1242-1282 | the same for CALLCODE, which moves nothing |
| `LegacyMachine.Evm.OpcodeDelegateCall` | evm_loader/program/src/evm/opcode.rs:1287-1320 | the same under the caller's context |
| `LegacyMachine.Evm.OpcodeStaticCall` | evm_loader/program/src/evm/opcode.rs:1325-1362 | the same with the static flag set |
| `LegacyMachine.Evm.OpcodeCallPrecompileImpl` | evm_loader/program/src/evm/opcode.rs:1367-1388 | an extension's queued instructions and withdrawal are logged, then its answer is returned or its error raised |
| `LegacyMachine.Evm.ExecuteOpcode` | evm_loader/program/src/evm/mod.rs:435-439 | every opcode does what the specification of its handler says |
| `LegacyMachine.Evm.Execute` | evm_loader/program/src/evm/mod.rs:392-479 | the loop takes the modelled steps up to the limit, counts them as the source does, and reports the first exit; a frame that runs as a precompiled contract ends before its first step |
| `FrameLaws.HandleBehaves` | evm_loader/program/src/evm/opcode.rs:819-1588 | every handler only appends to the log, appends nothing in static mode, keeps the marks it shares, and leaves a well-marked machine or a finished one |
| `FrameLaws.RevertRolls` | evm_loader/program/src/evm/opcode.rs:1461-1495 | a revert cuts the log exactly at the frame's mark; only delivering the result can still fail |
| `FrameLaws.StepKeeps` | evm_loader/program/src/evm/mod.rs:417-468 | every step keeps one mark per frame, in order, the first over the origin's nonce increment; no assertion fails; log and marks below the frames that stay are untouched |
| `FrameLaws.RunKeeps` | evm_loader/program/src/executor/state.rs:422-441 | no run of any instructions fails an assertion of the snapshot stack, and every log starts with the origin's nonce increment |
| `FrameLaws.StepReverts` | evm_loader/program/src/evm/opcode.rs:1461-1495 | a step that leaves any number of frames by reverting cuts the log at the mark of the outermost frame it leaves |
| `FrameLaws.RevertedCallIsAtomic` | evm_loader/program/src/evm/opcode.rs:1461-1495 | after any nested activity, when frames are left by a revert, one level or several, because the frame failed, could not take its callee's result, or its caller could not take its own: the log is exactly as at the snapshot of the outermost frame left |
| `FrameLaws.OneLevelOrRevert` | evm_loader/program/src/evm/opcode.rs:1403-1588 | only a revert leaves more than one frame in a step |
| `FrameLaws.StaticRunIsQuiet` | evm_loader/program/src/evm/opcode.rs:1325-1362 | as long as a static frame is there, nothing is logged and every frame above it is static |
| `FrameCoverage.RevertedCallRestoresLog` | evm_loader/program/src/evm/opcode.rs:1127-1238 | from the step that enters the frame to the revert that leaves it: back in the caller the log is the caller's again, plus the creator's nonce for creations; if callers are reverted along with it, the log is as at the outermost one's snapshot |
| `FrameCoverage.FailedEntryIsAtomic` | evm_loader/program/src/evm/mod.rs:441-448 | a call that fails right after its snapshot leaves only the caller's own part |
| `FrameCoverage.StaticCallLeavesLog` | evm_loader/program/src/evm/opcode.rs:1325-1362 | from STATICCALL until it has been left, in whatever way, the log is the caller's; if callers are reverted along with it, it is as at the outermost one's snapshot |
| `FrameCoverage.RunCovered` | evm_loader/program/src/executor/state.rs:259-280 | every log a transaction can build, at any moment and on any exit, is covered by the balances it was built over |
| `FrameCoverage.NewMachineGood` | evm_loader/program/src/evm/mod.rs:219-389 | a new machine starts with one mark over the origin's nonce increment, a covered log and the nonce of the account |
| `FrameOperands.CallEnters` | evm_loader/program/src/evm/opcode.rs:1190-1238 | with the operands as stack words: exactly when a CALL is entered, and then the frame runs the code at the second word modulo 2^160 as that contract, called by the running one, with the third word as value and the bytes of the argument range as call data; the caller waits without its seven operands and keeps the return range of the last two |
| `FrameOperands.CallCodeEnters` | evm_loader/program/src/evm/opcode.rs:1242-1285 | the same for CALLCODE: other code at the own address, called by itself, with the value and no transfer |
| `FrameOperands.DelegateCallEnters` | evm_loader/program/src/evm/opcode.rs:1287-1323 | the same for DELEGATECALL with its six operands: other code at the own address, with caller and value inherited |
| `FrameOperands.StaticCallEnters` | evm_loader/program/src/evm/opcode.rs:1325-1362 | the same for STATICCALL: no value, and static |
| `FrameOperands.CallsNeedOperands` | evm_loader/program/src/evm/opcode.rs:1190-1362 | with fewer operands each of the four fails |
| `FrameOperands.CreateEnters` | evm_loader/program/src/evm/opcode.rs:1088-1186 | with the operands as stack words: exactly when a CREATE is entered, and then the frame runs the bytes of the named range as code at the new address, called by the creator, with the top word as value; both nonces are counted and the value is paid, in this order |
| `FrameOperands.Create2Enters` | evm_loader/program/src/evm/opcode.rs:1108-1186 | the same for CREATE2, which takes a fourth word and does not read the nonce first |
| `FrameOperands.OperandsNeeded` | evm_loader/program/src/evm/opcode.rs:821-1556 | creations, storage writes, returns, reverts and self-destructs fail with fewer operands than they take |
| `FrameAnswers.SStoreWrites` | evm_loader/program/src/evm/opcode.rs:821-835 | SSTORE outside static mode takes two words, and over the log slot i of the running contract then reads as the bytes of the second word when i is the top word, and every other slot of every contract as before; in static mode it fails |
| `FrameAnswers.SStoreSpares` | evm_loader/program/src/executor/state.rs:348-374 | it leaves every nonce, balance and code over the log as they were |
| `FrameAnswers.LogTakes` | evm_loader/program/src/evm/opcode.rs:1018-1048 | LOGn takes offset, length and n topics, logs no action, and fails exactly in static mode or on a range out of reach |
| `FrameAnswers.ReturnAnswers` | evm_loader/program/src/evm/opcode.rs:1392-1447 | RETURN from a call, with offset and length as stack words: the transaction returns these bytes of memory, or the caller goes on with a one on its stack and the bytes in its return range and as its return data; or exactly when it fails |
| `FrameAnswers.ReturnDeploys` | evm_loader/program/src/evm/opcode.rs:1403-1444 | RETURN from a creation deploys these bytes at the new address exactly when they are short enough and, if they start as a container, a valid one, and its creator gets the address |
| `FrameAnswers.StopAnswers` | evm_loader/program/src/evm/opcode.rs:1560-1588 | STOP keeps the log; a caller gets a one and an answer range of zeros, a creator a zero |
| `FrameAnswers.SelfDestructAnswers` | evm_loader/program/src/evm/opcode.rs:1516-1556 | SELFDESTRUCT, with the heir as a stack word, logs the payment of everything the contract has and its destruction, and leaves like STOP |
| `FrameAnswers.RevertAnswers` | evm_loader/program/src/evm/opcode.rs:1451-1495 | REVERT, with offset and length as stack words, cuts the log at the snapshot, and the caller gets a zero and the bytes |
| `FrameAnswers.OutermostEnds` | evm_loader/program/src/evm/mod.rs:417-468 | RETURN, REVERT and STOP in the outermost frame end the transaction with their bytes and log |
| `FrameAnswers.OutermostFails` | evm_loader/program/src/evm/mod.rs:441-448 | an error in the outermost frame ends it as a revert with the error's message |
| `FrameAnswers.NativeAnswers` | evm_loader/program/src/evm/opcode.rs:1364-1388 | a call that is answered by an extension logs what it queues and withdraws, in order, and delivers its answer with a one, exactly when nothing of that is refused |
| `FrameAnswers.CallStarts` | evm_loader/program/src/evm/mod.rs:213-325 | a call transaction starts exactly when nonce, chain, balance and code of the origin admit it; its frame runs the target's code with the transaction's value and data, over the origin's nonce increment and the payment |
| `FrameAnswers.CreationStarts` | evm_loader/program/src/evm/mod.rs:327-389 | the same for a creation, at an address without nonce and code, over both nonce increments and the payment |
| `FrameEffects.CallMovesValue` | evm_loader/program/src/evm/opcode.rs:1190-1238 | with the operands as stack words: an entered CALL has moved the third word from the calling contract to the address in the second, and no other balance |
| `FrameEffects.SelfDestructMovesBalance` | evm_loader/program/src/evm/opcode.rs:1521-1527 | the whole balance goes to the heir in the top word, unless the contract is its own heir and keeps it |
| `FrameEffects.CreationCountsNonces` | evm_loader/program/src/evm/opcode.rs:1135-1183 | an entered creation has counted one nonce for the creator, which is another account, and the new account starts at nonce one |
| `FrameEffects.CreationDeploysCode` | evm_loader/program/src/evm/opcode.rs:1408-1444 | a creation frame that returns has deployed what it returned at its own address, and its creator gets that address |
| `FrameEffects.FailingCallee` | evm_loader/program/src/evm/mod.rs:441-448 | with the operands as stack words: after a call whose callee fails at once the caller goes on behind the call with zero on its stack, the message as return data and in its return range, and the log and the snapshots as before |
| `FrameEffects.ReturnRangeIsPadded` | evm_loader/program/src/evm/opcode.rs:1431-1440 | a callee's answer overwrites the caller's whole return range, with zeros behind the data |
| `FrameEffects.PaddingShowsIff` | evm_loader/program/src/evm/memory.rs:166-206 | the padding changes nothing exactly when the old bytes of the range behind the data were zero |
| `FrameEffects.StopClearsReturnRange` | evm_loader/program/src/evm/opcode.rs:1560-1588 | a callee that ends by STOP leaves its caller's whole return range zero |
| `FrameEffects.OnesBecomeZeros` | evm_loader/program/src/evm/opcode.rs:1560-1588 | for instance, four ones under a return range of four bytes become zeros |
| `FrameMemory.StepTidy` | evm_loader/program/src/evm/memory.rs:71-110 | every step that goes on keeps every memory's size within its capacity and every stack within 127 words; a machine that exits is as well, unless its outermost frame failed on a range out of limits that did not overflow, and then its size is beyond the capacity |
| `FrameCode.CodelessIsSpared` | evm_loader/program/src/evm/mod.rs:219-389 | whatever a transaction runs, over accounts that may change from step to step, its log neither deploys to nor destroys an address that carries no code throughout and at which nothing is created while its nonce is unused |
| `FrameCode.OriginIsUsed` | evm_loader/program/src/evm/mod.rs:219-231 | along every run the origin's nonce is in use, so creations at its address fail |
| `FrameCode.OriginIsSpared` | evm_loader/program/src/evm/mod.rs:219-231 | so no transaction deploys to its origin or destroys it |
| `Transactions.TransactionApplies` | evm_loader/program/src/instruction/transaction_execute.rs:52-78 | for every transaction and program: the exit log applies without running out of funds or space, conserves the supply, and every balance is what the machine last read |
| `Transactions.TransactionAppliesIff` | evm_loader/program/src/account_storage/apply.rs:53-165 | for every transaction and program: the exit log is applied exactly when the accounts get their space in this instruction and every action fits the accounts before |
| `Transactions.OriginNonceRises` | evm_loader/program/src/evm/mod.rs:219-231 | every transaction that applies leaves its origin with a larger nonce |
| `Resumption.MachineRestored` | evm_loader/program/src/evm/mod.rs:145-217 | every machine whose memories are in order can be saved as bytes, and restoring gives it back frame by frame |
| `Resumption.DoContinue` | evm_loader/program/src/instruction/transaction_step.rs:48-84 | an iteration does what its specification says: suspends, hands over results, is rejected, or panics on a memory that cannot be saved |
| `Resumption.TransactionStarts` | evm_loader/program/src/evm/mod.rs:219-389 | the machine of every transaction is one that the claims on iterations are about |
| `Resumption.ResultsAreTheRuns` | evm_loader/program/src/instruction/transaction_step.rs:63-84 | whatever the step limits, results that are handed over are the status and log of the uncut run |
| `Resumption.ResultsComeOut` | evm_loader/program/src/instruction/transaction_step.rs:72-84 | for every run that ends in a machine that can be saved: once the limits add up to its length the next iteration hands over its results, again and again while applying is postponed |
| `Resumption.IterationIs` | evm_loader/program/src/instruction/transaction_step.rs:48-84 | one iteration from the state saved after k steps, for a run that exits in step e: refused below the minimum of steps unless gas is free, suspended after exactly its limit, suspended at the exit when it took more steps than a last iteration may, and otherwise the results |
| `Resumption.BrokenRunNeverEnds` | evm_loader/program/src/instruction/transaction_step.rs:68-70 | a run that ends in a machine that cannot be saved never hands over results, whatever the limits |
| `Resumption.BrokenExit` | evm_loader/program/src/evm/memory.rs:79-92 | a run ends so exactly when its outermost frame fails on a memory range out of limits that does not overflow |
| `Resumption.IterationPanicsIff` | evm_loader/program/src/evm/memory.rs:224-232 | an iteration panics exactly when, within its limit, the outermost frame fails on such a range |
| `Resumption.FarLoadPanics` | evm_loader/program/src/evm/memory.rs:79-92 | for instance, outermost code that loads a word from 0x100000: the run is over after a step, and every iteration panics |
| `Resumption.NativeResultsComeOut` | evm_loader/program/src/evm/mod.rs:415-419 | a transaction sent to a precompiled contract hands over its results in every iteration that is admitted |
| `StateBuffer.State.UpdateBlockedAccounts` | evm_loader/program/src/state_account.rs:225-250 | for every old and new list that fit, the saved machine is unchanged behind the new list, the list reads back, the header stays; otherwise the move panics |
| `StateBuffer.State.ReadBlockedAccounts` | evm_loader/program/src/state_account.rs:177-197 | the chunks decode to the list, or the account is too small |
| `StateBuffer.DecodeEncodeAll` | evm_loader/program/src/state_account.rs:177-223 | a list that is written is read back |
| `StateBuffer.EntryRead` | evm_loader/program/src/state_account.rs:177-197 | entry i of a list that is read is its chunk of 34 bytes: writable, existing, key |
| `StateBuffer.FlagsWritten` | evm_loader/program/src/state_account.rs:200-223 | a flag is written as one when it is set and as zero when not |
| `Program.Program.CheckForBlockedAccounts` | evm_loader/program/src/account_storage/base.rs:141-147 | passes exactly when no loaded account is locked |
| `Program.Program.BlockAccounts` | evm_loader/program/src/account_storage/base.rs:135-139 | exactly the loaded accounts become locked |
| `Program.Program.CheckBlockedAccounts` | evm_loader/program/src/state_account.rs:252-283 | passes exactly when keys, writability and nonexistence match entry by entry |
| `Program.Program.RestoreState` | evm_loader/program/src/state_account.rs:97-129 | the State is restored for its operator, or for another one once the priority has passed |
| `Program.Program.DoBegin` | evm_loader/program/src/instruction/transaction_step.rs:27-46 | the instruction's effect on accounts, locks and State, or its failure |
| `Program.Program.DoContinue` | evm_loader/program/src/instruction/transaction_step.rs:86-177 | the same for an iteration, with applying, gas, unlocking and finalizing |
| `Program.Program.DoCancel` | evm_loader/program/src/instruction/transaction_cancel.rs:59-90 | the loop frees what the State holds and counts the caller's nonce per entry |
| `ReplaySafety.CancelCountsEntries` | evm_loader/program/src/instruction/transaction_cancel.rs:72-83 | clear of 2^64, cancelling raises the caller's nonce by the number of its entries, so by one exactly when it is listed once |
| `ReplaySafety.PassedTwiceCountsTwice` | evm_loader/program/src/state_account.rs:200-223 | a transaction that begins with its caller passed twice uses up two nonces when it is cancelled |
| `Program.Program.DoBlockAdd` | evm_loader/program/src/instruction/account_block_add.rs:9-52 | the loop extends list and locks by the free accounts, or fails on one locked by someone else |
| `Program.Program.DoExecute` | evm_loader/program/src/instruction/transaction_execute.rs:38-98 | a single-shot transaction against the same locks |
| `ProtocolLaws.LockSafety` | evm_loader/program/src/account_storage/base.rs:135-147 | over every interleaving of the instructions an account is locked exactly when a transaction in flight lists it as existing, and no two list the same |
| `ProtocolLaws.BeginLocks` | evm_loader/program/src/instruction/transaction_step.rs:37-38 | begin takes free accounts only |
| `ProtocolLaws.ContinueLocks` | evm_loader/program/src/instruction/transaction_step.rs:169-174 | an iteration keeps what it holds, and finishing frees exactly that |
| `ProtocolLaws.CancelLocks` | evm_loader/program/src/instruction/transaction_cancel.rs:72-81 | cancelling frees exactly what the State holds |
| `ProtocolLaws.BlockAddLocks` | evm_loader/program/src/instruction/account_block_add.rs:29-51 | added accounts are held by this transaction alone |
| `ProtocolLaws.CreatedOutside` | evm_loader/program/src/state_account.rs:272-279 | over every interleaving: a transaction listing a nonexistent account that someone else created can never be continued, and cancelling it leaves that account's lock alone |
| `ProtocolLaws.RestoredState` | evm_loader/program/src/state_account.rs:97-129 | a restored State is the one that was saved, for its operator with the slot it had, and for another one, only after the priority slots, with this operator and slot |
| `ProtocolLaws.AppliedConfined` | evm_loader/program/src/account_storage/apply.rs:53-165 | applying changes and creates nothing but accounts that were passed |
| `InstructionLaws.RestoredIff` | evm_loader/program/src/state_account.rs:97-129 | a State is restored exactly when the accounts match and either its operator asks or the priority has passed since its slot, and what is restored |
| `InstructionLaws.PriorityRuns` | evm_loader/program/src/state_account.rs:117-126 | over every interleaving in which nobody takes over, the slot the priority runs from stays, however often the operator continues |
| `InstructionLaws.TakeoverIff` | evm_loader/program/src/state_account.rs:117-126 | from beginning until somebody takes over: another operator with matching accounts is let in exactly when the slot is more than the priority behind that of the beginning, and its own always |
| `InstructionLaws.HandoverIff` | evm_loader/program/src/state_account.rs:117-126 | the same from the slot of the last hand-over |
| `InstructionLaws.TurnMoves` | evm_loader/program/src/state_account.rs:117-126 | operator and slot change only by an iteration of another operator after the priority |
| `InstructionLaws.OwnerStaysOver` | evm_loader/program/src/state_account.rs:46-147 | over every interleaving the account keeps its owner, as Holder, in flight and finished |
| `InstructionLaws.EndsAs` | evm_loader/program/src/state_account.rs:131-147 | a transaction in flight ends only by its last iteration or by being cancelled under its own hash, and leaves a Finalized account of its owner with its hash, and its nonce consumed |
| `InstructionLaws.FinishedStays` | evm_loader/program/src/state_account.rs:46-95 | what a Finalized account can become: a Holder or nothing at its owner's request, or a transaction with another hash |
| `InstructionLaws.BegunAs` | evm_loader/program/src/state_account.rs:46-95 | what a transaction begins with: its own terms, its operator and slot, and the passed accounts with their flags |
| `InstructionLaws.TermsStay` | evm_loader/program/src/instruction/transaction_step.rs:86-177 | while in flight nothing changes these terms but gas used, which grows, the operator's turn, and accounts added at the end of the list |
| `InstructionLaws.ChangedBy` | evm_loader/program/src/instruction/account_block_add.rs:22-24 | gas is used by the transaction's own iterations only, and accounts are added by its owner only |
| `InstructionLaws.AddsIff` | evm_loader/program/src/instruction/account_block_add.rs:9-52 | accounts are added exactly for the owner of a transaction in flight and when all that are new and exist are free; nothing but its list and the locks changes |
| `InstructionLaws.BeginsIff` | evm_loader/program/src/instruction/transaction_step.rs:27-46 | a transaction begins exactly when its account is a Holder or finished with another hash and the operator's own, nothing passed is locked, it is on turn, and its first gas is within the limit and paid for |
| `InstructionLaws.ContinuesIff` | evm_loader/program/src/instruction/transaction_step.rs:86-177 | an iteration goes through exactly when the State is restored, its results apply or are postponed, and its gas is within the limit and paid for; and it ends the transaction exactly when they applied |
| `InstructionLaws.CancelsIff` | evm_loader/program/src/instruction/transaction_cancel.rs:49-90 | cancelling goes through exactly for a restored State under its own hash |
| `InstructionLaws.ExecutesIff` | evm_loader/program/src/instruction/transaction_execute.rs:23-98 | a single-shot transaction goes through exactly when nothing passed is locked, it is on turn, its results apply, and its gas is paid for from what they leave |
| `InstructionLaws.ExtendsIff` | evm_loader/program/src/instruction/account_block_add.rs:26-51 | the loop goes through exactly when all that are new and exist are free; then exactly the listed and passed are listed, and exactly the existing new ones locked besides |
| `InstructionLaws.DepositsIff` | evm_loader/program/src/instruction/neon_tokens_deposit.rs:124-182 | a deposit credits its account and nothing else, locked or not |
| `ReplaySafety.RunIsOwn` | evm_loader/program/src/evm/mod.rs:219-389 | the log of a run in which c has no code throughout, whatever else changes between its steps, starts with its origin's nonce increment and neither destroys c nor deploys to it |
| `ReplaySafety.CodelessStays` | evm_loader/program/src/instruction/transaction_step.rs:27-177 | no instruction gives code to an account that has none, at whose address nothing is created |
| `LockIsolation.HeldStays` | evm_loader/program/src/account_storage/base.rs:135-147 | while a transaction in flight holds an account, no instruction except its own iterations changes anything of that account but its balance |
| `LockIsolation.HeldStaysOver` | evm_loader/program/src/account_storage/base.rs:135-147 | the same over every interleaving between two iterations |
| `LockIsolation.HeldReads` | evm_loader/program/src/instruction/transaction_step.rs:86-177 | whatever the instruction, its own iterations and postponed changes included, everything that is read of the account stays but its balance, as long as the transaction is in flight |
| `LockIsolation.HeldReadsOver` | evm_loader/program/src/instruction/transaction_step.rs:86-177 | the same over every interleaving until the transaction ends |
| `ReplaySafety.NonceFrozen` | evm_loader/program/src/instruction/transaction_step.rs:37-38 | while a transaction in flight holds an account no instruction changes its nonce, whatever the logs |
| `Iterative.IterativeIsSingleShot` | evm_loader/program/src/instruction/transaction_step.rs:27-177 | a transaction that begins, is continued with any other instructions in between and its results postponed any number of times, and finishes, leaves every account it began with, existing or not, with the nonce, code and storage that executing it at once would have left |
| `Iterative.ResumedIsSingleShot` | evm_loader/program/src/instruction/transaction_step.rs:48-177 | the same from the machine: results handed over by a run that was cut, saved and restored against those of the uncut run |
| `Iterative.SameMovements` | evm_loader/program/src/account_storage/apply.rs:94-108 | both move every balance by the same amount before gas is paid |
| `ReplaySafety.NoReplayStays` | evm_loader/program/src/instruction/transaction_cancel.rs:72-83 | every instruction keeps consumed nonces increasing and below the current one |
| `ReplaySafety.ReplaySafety` | evm_loader/program/src/evm/mod.rs:219-231 | over every interleaving no two finished, cancelled or single-shot transactions of a caller without code consume the same nonce |
| `GasLedger.BeginPays` | evm_loader/program/src/instruction/transaction_step.rs:27-46 | beginning a transaction takes exactly the price of its gas out of the caller's balance and into the operator's, and gas used is within the limit |
| `GasLedger.ContinuePays` | evm_loader/program/src/instruction/transaction_step.rs:86-177 | the same for every further iteration, whatever it applies or postpones and whether or not it is the last, from the balances as applied |
| `GasLedger.ExecutePays` | evm_loader/program/src/instruction/transaction_execute.rs:38-98 | the same for a single-shot transaction |
| `GasLedger.LedgerStays` | evm_loader/program/src/instruction/transaction_step.rs:96-111 | every instruction keeps all payments settled, gas used of what is in flight equal to the sum of its charges, and every sum within its limit |
| `GasLedger.GasLedger` | evm_loader/program/src/gasometer.rs:22-82 | the same over every interleaving |
| `GasLedger.CallersPayForGas` | evm_loader/program/src/instruction/transaction_step.rs:96-111 | over every interleaving, for each transaction that paid, finished, cancelled or in flight: what left its caller's balance, last iteration included, is the price times the gas others charged, and as much reached those operators, unless a product saturated or a balance wrapped |
| `GasLedger.CallerPaysForAllGas` | evm_loader/program/src/instruction/transaction_step.rs:96-111 | a caller that ran no iteration of its transaction itself paid the price times all gas it used |
| `GasLedger.PaymentIsExact` | evm_loader/program/src/instruction/transaction_step.rs:104-105 | a payment that went through was not saturated, unless the payer had the largest balance there is |

## Left out

- EofMachine.ContainerNeverFaults: the condition on jump tables is exact for the invariant, not for single
  runs; a program that never uses a misread entry cannot fault on it either.
- EofValidator.NoUnreachableCode: is about sections without jump tables; `EofValidator.AllReachableIff`
  has the exact condition for the others.
- Mixed trees of EOF and legacy frames, and what RETF from the outermost function
  does to the snapshot stack: outside the soundness claims for the reasons above.
- Resumption.ResultsAreTheRuns: the run reads the same accounts throughout. `LockIsolation.HeldReadsOver`
  justifies that for everything but balances, which gas payments and deposits change between iterations.
- ReplaySafety.NonceFrozen: says nothing of the test-only instruction that sets a nonce.
- Accounts.LoadOk: reading a slot whose storage account has its address taken by another one panics
  (`evm_loader/program/src/account_storage/base.rs:91-97`), where the model reads zero.
- Transactions.TransactionApplies: the world is the one the log was built over; changes by other
  transactions in between are the subject of `Conservation.CoveredAfterPayment` and the lock laws.
- Reallocation.PredictIterations: the emulator computes its operations from a log that was not rearranged;
  here the operations are given.
- ApplySuccess.AppliesIff: is about logs without a transfer to oneself, which no run leaves
  (`Conservation.CoveredToOthers`).
- Arithmetic, comparison, environment and legacy jump opcodes one by one, SIGNEXTEND and SAR: pointwise
  facts that no whole-run claim needs.
- Precompiled contracts, extensions' own computation, token emulation, `external_account`: foreign code.
- Parsing and signature recovery of transactions, address derivation, keccak: taken as given.
- Raw pointers, the allocator, `Buffer` aliasing of account memory and bincode: sequences and an exact
  save and restore instead.
- Lamports of Holder and State accounts, treasury payments, deposits into State accounts, rent checks
  other than the top-up of storage accounts.
- The bytes of a Holder; only its owner and hash take part in the protocol, and the from-account paths'
  check of the hash against the written message is left out with them.
- Negative caches of missing accounts, missing Solana accounts, block hashes, logs and tracing.
- The API server, clients, tracer database and setup tools around the program.
