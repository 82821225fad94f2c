# tron-rs: a verified model

A Dafny model of the parts of the node where state is hard to get right, with the properties the
code is there to provide proved for all inputs and all runs.

- **Virtual machine** (`Words`, `WordLaws`, `Energy`, `MemoryBuffer`, `WorldModel`, `Journal`,
  `Engine`, `EngineLoop`, `Instructions`, `EngineProofs`, `EngineRuns`, `RunBalances`,
  `HostPath`, `Flush`, `Trigger`): the bytecode loop with stack, memory, energy meter and recursive CALL over a journaled
  multi-account world; the single-contract host path; flushing the overlay to chain state; the
  transaction that triggers a contract.
- **Stake 2.0** (`Stake`, `StakeStore`, `StakeProofs`, `StakeEffects`): freeze, unfreeze, withdraw,
  cancel, delegate and undelegate as one ledger.
- **TRC10 tokens and exchange pools** (`Tokens`, `TokenStore`, `TokenProofs`, `TrxProofs`,
  `PoolMath`).
- **Consensus** (`Finality`, `Schedule`, `Election`, `Sorting`, `Merkle`): PBFT finality, slots and
  production, the maintenance election, the transaction Merkle root.
- **Discovery** (`Closeness`, `Recency`, `Routing`): the Kademlia metric and routing table.
- `Arithmetic` and `MapSum` hold shared facts about products, quotients and sums over maps.

Each component is given twice where the code updates state: as functions on values, which say what
an operation means and which the lemmas are about, and as classes and loops in the code's own form,
whose contracts tie them to those functions.

`dafny verify dfyconfig.toml` checks the whole project.

## Where the code and its documentation differ

The model follows the code.

- `World::revert_to` is documented as restoring prior state. Records an inner `commit` dropped are
  gone, so an outer failing frame does not take those writes back;
  `EngineRuns.FailedFrameKeepsCommittedWrite` gives a program that shows it. What a failing call does
  restore is stated exactly by `EngineProofs.FailedCallUndoesSurvivingRecords`, and a callee without
  the CALL byte restores everything (`EngineProofs.FailedCallFreeCalleeRestoresWorld`).
- PBFT finality is documented as advancing to the highest contiguous quorate block. The scan starts
  at block 1 while confirmations below the tip are pruned, so the tip stops once it has reached 2
  or more (`Finality.TipMovesIff`, `Finality.TipSticksBelowQuorum`).
- An asset issue whose maturity date overflows fails after the asset was registered and its fee was
  counted as burned (`TokenProofs.IssueKeepsIffMaturitiesFit`, `TokenProofs.FailingIssueExists`,
  `TrxProofs.RunConservesTrx`).
- The call value of a trigger is said to move from caller to contract. When the owner triggers a
  contract at its own address with a non-zero value, which validation does not exclude and a deploy
  without a valid contract address makes possible, the value is created instead: exactly when
  `owner == target && call_value != 0` (`Trigger.CallValueMoves`, `Trigger.SelfTriggerCreatesValue`).
- The call value is checked against no balance and may be negative. Balances stay in range exactly
  when both parties cover it (`Trigger.OpenedSoundIff`, `Trigger.TriggerKeepsSound`); otherwise the
  transaction can be done and leave a negative balance (`Trigger.OverdrawnTriggerGoesNegative`).
- A trigger whose fee the owner cannot pay is reported as failed after its writes were persisted
  (`Trigger.UnpaidRunStaysPersisted`), exactly under the condition of `Trigger.FailsIffFeeUncovered`;
  an owner who holds the fee of the whole limit is safe (`Trigger.FundedOwnerPays`).
- These failures, and the half-done asset issue above, are about `apply_transaction`. `process_block`
  is documented as leaving it to its caller to revert a failing block; no code in the repository does.
- Memory prices are computed in 64 bits. The word count is right exactly while `end + 31` fits, the
  price exactly while the square of the word count fits, and an access is in range exactly while its
  end is not among the last 31 of the 64-bit range (`Energy.Words64IsExactIff`,
  `Energy.Price64IsExactIff`, `Energy.Access64InRangeIff`). At the saturated extent, which MSTORE at
  offset 2^64 - 1 asks for, wrapping arithmetic resizes to zero words: the memory already there is
  erased, nothing is charged, and the access is out of range (`Energy.SaturatedAccessErases`); checked
  arithmetic panics. For all other extents, and limits below 3 * 2^32, the model's unbounded memory is
  the code's (`MemoryBuffer.Grow64IsGrow`).
- Producing one slot twice is called impossible. It is possible exactly when the head has fallen back
  below the slot, which a stored peer block of an earlier slot does, and intake checks no timestamp
  (`Schedule.RepeatsIffHeadFellBack`, `Schedule.ProducesAgainIff`, `Schedule.SlotProducedTwice`).
- `is_closer` is called an xor-distance ordering; it is the coarser order by bit length of the
  distance (`Closeness.CloserMeansSmallerDistance`).

## Model

| member | source | states |
|---|---|---|
| `Words.WordRoundTrip` | crates/vm/src/memory.rs:31-42 | Writing a word as 32 big-endian bytes and reading them back gives the word |
| `WordLaws.SubUndoesAdd` | crates/vm/src/engine.rs:139-140 | ADD wraps at 2^256 and SUB takes it back, in both orders |
| `WordLaws.DivModReconstruct` | crates/vm/src/engine.rs:142-143 | Quotient and remainder rebuild the dividend with the remainder below the divisor; a zero divisor gives zero |
| `WordLaws.ExpIsPower` | crates/vm/src/engine.rs:144 | EXP, though every multiplication wraps, is the power modulo 2^256 |
| `WordLaws.BitwiseActsOnBits` | crates/vm/src/engine.rs:149-151 | AND, OR and XOR act on each bit separately |
| `Energy.ExpansionIsPaidFor` | crates/vm/src/memory.rs:20-29 | Charging what `expand_to` reports keeps the whole memory paid for at the quadratic price |
| `Energy.PaidAccessIsInRange` | crates/vm/src/engine.rs:183-211 | Over unbounded prices, an access whose saturated extent was paid for lies inside memory |
| `Energy.Words64IsExactIff` | crates/vm/src/memory.rs:20-29 | The 64-bit word count of an extent is right exactly when adding 31 does not overflow; for the last 31 extents it is zero |
| `Energy.Price64IsExactIff` | crates/vm/src/energy.rs:134-140 | The 64-bit total price of w words is the unbounded one exactly when w * w fits in 64 bits |
| `Energy.FewWordsCost` | crates/vm/src/energy.rs:134-140 | Up to 2^32 - 1 words the 64-bit expansion cost is the unbounded one |
| `Energy.Access64InRangeIff` | crates/vm/src/memory.rs:20-29 | After the 64-bit expansion for it, an access lies inside memory exactly when it did before or its end is not among the last 31 of the 64-bit range |
| `Energy.SaturatedAccessErases` | crates/vm/src/memory.rs:26-27 | A 32-byte access at 2^64 - 1, in wrapping arithmetic: the memory already there is erased, nothing is charged, and the access is out of range |
| `Energy.Charges64Agree` | crates/vm/src/memory.rs:20-29 | Below a limit of 3 * 2^32, for every extent but the last 31, the code can pay for a growth exactly when the model can, and then pays the same for the same memory |
| `Energy.LoadAfterStore` | crates/vm/src/memory.rs:31-42 | MLOAD after MSTORE at the same offset returns the stored word |
| `Energy.LoadAfterDisjointStore` | crates/vm/src/memory.rs:31-42 | A store elsewhere does not change what MLOAD reads |
| `MemoryBuffer.Memory.ExpandTo` | crates/vm/src/memory.rs:20-29 | Grows the buffer to whole zero-filled words and returns the price of exactly that growth |
| `MemoryBuffer.Memory.Load` | crates/vm/src/memory.rs:31-37 | The byte loop reads the padded 32-byte word |
| `MemoryBuffer.Memory.Store` | crates/vm/src/memory.rs:39-42 | Overwrites 32 bytes with the big-endian word and nothing else |
| `MemoryBuffer.EnergyMeter.TryCharge` | crates/vm/src/lib.rs:42-50 | Charges all or nothing, succeeds exactly when the sum stays within the limit, and never passes the limit |
| `MemoryBuffer.Touch` | crates/vm/src/engine.rs:183-211 | Expanding and charging the two objects succeeds exactly when the machine can grow, and leaves the memory and energy the grown machine has, with the access in range |
| `MemoryBuffer.Grow64IsGrow` | crates/actuators/src/executor.rs:188-195 | Under every limit below 3 * 2^32, as the transactions' limits are, growing with 64-bit arithmetic is the machine's growth for every extent but the last 31 |
| `WorldModel.World.Load` | crates/vm/src/frame.rs:142-151 | Reads host, overlay or chain state, in that order |
| `WorldModel.World.Store` | crates/vm/src/frame.rs:153-167 | Writes the overlay and journals the previous overlay entry, or writes the host |
| `WorldModel.World.Move` | crates/vm/src/frame.rs:208-218 | Debits and credits through journaled balance writes, creating the target |
| `WorldModel.World.SelfDestruct` | crates/vm/src/frame.rs:255-273 | Hands the balance to the beneficiary or burns it, and marks the contract, all journaled |
| `WorldModel.World.Revert` | crates/vm/src/frame.rs:279-303 | The pop loop undoes every record above the checkpoint, newest first |
| `WorldModel.World.PopAndUndo` | crates/vm/src/frame.rs:281-301 | One iteration puts back what the newest record says |
| `WorldModel.World.Keep` | crates/vm/src/frame.rs:306-308 | Commit drops the records above the checkpoint and keeps the state |
| `Journal.RevertRestoresEarliestRecords` | crates/vm/src/frame.rs:279-303 | Popping records one by one leaves each slot and balance at its earliest record above the checkpoint, removes created accounts and suicides, and subtracts the burns; everything else is unchanged |
| `Journal.SameObservables` | crates/vm/src/frame.rs:132-204 | Worlds that agree up to overlay noise answer every query alike |
| `Journal.RevertInTwoStages` | crates/vm/src/frame.rs:279-303 | Reverting to an inner and then an outer checkpoint is reverting to the outer one |
| `Journal.UndoableTransitive` | crates/vm/src/frame.rs:240-303 | Undoable changes compose |
| `Journal.SstoreUndoable` | crates/vm/src/frame.rs:153-167 | A storage write is undone exactly by its record |
| `Journal.WriteBalanceUndoable` | crates/vm/src/frame.rs:240-243 | A balance write is undone exactly by its record |
| `Journal.EnsureAccountUndoable` | crates/vm/src/frame.rs:245-250 | Creating an account is undone exactly by its record |
| `Journal.SuicideUndoable` | crates/vm/src/frame.rs:255-273 | A self-destruct whose arithmetic does not saturate is undone exactly by its records |
| `Journal.CommittedWriteSurvivesOuterRevert` | crates/vm/src/frame.rs:306-308 | On the world alone: a committed write survives a later revert to the same checkpoint |
| `Journal.RevertAfterCommit` | crates/vm/src/frame.rs:279-308 | After a commit, reverting to an older checkpoint restores exactly the locations with a record between the two checkpoints and keeps committed values elsewhere |
| `Journal.TransferMovesValue` | crates/vm/src/frame.rs:208-218 | A transfer moves exactly the amount between distinct accounts; a transfer to oneself creates the amount |
| `Journal.SuicideInherits` | crates/vm/src/frame.rs:255-273 | Self-destruct moves the whole balance to another beneficiary and touches no third account and no burn |
| `Journal.SuicideBurns` | crates/vm/src/frame.rs:255-273 | Self-destruct to oneself burns exactly the balance |
| `Engine.GrowFor` | crates/vm/src/engine.rs:183-211 | On success the access is in range, the machine stays valid and energy does not decrease |
| `Engine.StackOp` | crates/vm/src/engine.rs:137-245 | Stack instructions keep the stack within 1024 words and the meter within the limit; a free one always halts |
| `Engine.LocalOp` | crates/vm/src/engine.rs:137-318 | Every instruction that stays in the frame keeps the machine valid; one without static price that continues has paid something |
| `Engine.PlanCall` | crates/vm/src/engine.rs:239-262 | CALL's preparation keeps the machine valid and leaves room for the flag |
| `Engine.StepAt` | crates/vm/src/engine.rs:125-337 | Every instruction keeps the machine valid and either halts within the limit or strictly increases the energy used |
| `Engine.RunFrame` | crates/vm/src/engine.rs:82-337 | For every code, input, world and limit: terminates, uses at most the limit, and executes at most energy used plus one instructions over all nested frames |
| `Engine.Run` | crates/vm/src/engine.rs:125-337 | The same from any point inside a frame, by induction on the remaining energy |
| `Engine.Continue` | crates/vm/src/engine.rs:264-292 | The same across a nested call |
| `EngineLoop.ExecuteFrame` | crates/vm/src/engine.rs:82-337 | The loop over a mutable world computes the recursive meaning of the frame: same result and same final world |
| `EngineLoop.ExecuteInstruction` | crates/vm/src/engine.rs:125-337 | One iteration, nested callee included, has the effect of one step |
| `EngineLoop.ExecuteStore` | crates/vm/src/engine.rs:214-221 | SSTORE prices by the old and new value, then writes |
| `EngineLoop.ExecuteSelfDestruct` | crates/vm/src/engine.rs:314-332 | SELFDESTRUCT as specified, on the mutable world |
| `EngineLoop.ExecuteCall` | crates/vm/src/engine.rs:239-292 | CALL dispatches, runs the callee on the same world, then commits or reverts to the checkpoint |
| `EngineLoop.EnterContract` | crates/vm/src/engine.rs:276-281 | Checkpoint, run the callee, charge it, then commit or revert |
| `Instructions.InstructionsAreDisciplined` | crates/vm/src/engine.rs:125-337 | Every instruction, against an operand table: underflows exactly when operands are missing, overflows exactly when it would grow a full stack, else leaves all deeper words alone, changes the height by the table and moves on by its size; SELFDESTRUCT on the host path is refused as an opcode |
| `Instructions.CallReportsCallee` | crates/vm/src/engine.rs:239-292 | A CALL runs the callee's code on the argument bytes; the flag on the stack is the callee's success, its output becomes the return data, its prefix lands in the return area and every other memory byte is unchanged |
| `Instructions.PlanPrepares` | crates/vm/src/engine.rs:239-262 | The operands, argument bytes, callee address and precompile output a CALL hands over |
| `Instructions.JumpsLandOnJumpdest` | crates/vm/src/engine.rs:222-238 | A jump goes exactly to its operand and fails exactly when no JUMPDEST byte is there |
| `Instructions.LoadAfterStore` | crates/vm/src/frame.rs:142-167 | A store is seen by loads of the same slot (of any address on the host path) and by no other load |
| `EngineProofs.CallerKeepsOneSixtyFourth` | crates/vm/src/engine.rs:269-277 | The discarded charge of the callee's energy always succeeds, and the caller keeps at least a 64th of what it had, as the Specification section of EIP-150 demands |
| `EngineProofs.StepAppendsRecords` | crates/vm/src/engine.rs:125-337 | An instruction only appends journal records, and its change can be undone from them |
| `EngineProofs.RunKeepsJournal` | crates/vm/src/engine.rs:82-337 | No run alters the journal below where it started |
| `EngineProofs.CallLeavesJournal` | crates/vm/src/engine.rs:273-280 | Successful or not, a call leaves the caller's journal exactly as it was |
| `EngineProofs.RunIsUndoable` | crates/vm/src/engine.rs:82-337 | A run without committed inner calls (and without a saturated burn) is undone exactly by its records |
| `EngineProofs.FailedCallRestoresWorld` | crates/vm/src/engine.rs:273-280 | A failing callee with no committed inner call leaves every observable and the journal as before the CALL |
| `EngineProofs.CallFreeCodeEntersNothing` | crates/vm/src/engine.rs:239-292 | Code without the CALL byte enters no contract and commits none, in any world |
| `EngineProofs.FailedCallFreeCalleeRestoresWorld` | crates/vm/src/engine.rs:276-281 | Checkable beforehand: a failing callee whose code has no CALL byte leaves every observable and the journal as before |
| `EngineProofs.RunKeepsGround` | crates/vm/src/engine.rs:82-337 | Off the host path no run changes the backend or any contract's code |
| `RunBalances.FrameLeavesStorage` | crates/vm/src/engine.rs:82-337 | A frame that does not end by SELFDESTRUCT leaves only storage records above its checkpoint, whatever its callees did |
| `RunBalances.CallKeepsHoldings` | crates/vm/src/engine.rs:276-281 | So settling a call moves no balance: what a callee did to balances, accounts, suicides and burns stays, whether it is committed or reverted |
| `RunBalances.FrameGrows` | crates/vm/src/engine.rs:82-337 | From balances in i64 range every frame, nested calls included, keeps them in range, and an account ends with no less than it had unless it was self-destructed |
| `EngineProofs.FailedCallUndoesSurvivingRecords` | crates/vm/src/engine.rs:273-280 | For every failing callee: each location goes back to its earliest surviving record, and a location whose records inner commits dropped keeps its new value |
| `EngineRuns.OuterResult` | crates/vm/src/engine.rs:82-337 | A concrete program, run instruction by instruction: its inner call stores and commits, then it reverts; exact halt, energy, stack top and world |
| `EngineRuns.FailedFrameKeepsCommittedWrite` | crates/vm/src/engine.rs:276-281 | On that run the frame fails and is reverted, yet the slot its inner call wrote keeps the new value |
| `EngineRuns.EnteringSeparatesPaths` | crates/vm/src/interp.rs:71-83 | On the same program the host path and the multi-account path give different results without any SELFDESTRUCT, because a contract is entered |
| `HostPath.HostRunSimulatesWorldRun` | crates/vm/src/interp.rs:71-83 | For any world, whatever code it holds, at the executing address or elsewhere: as long as the multi-account run enters no contract, both runs agree in halt, energy, stack top, return data and every slot exactly when the host run does not stop at SELFDESTRUCT |
| `HostPath.RunSimulates` | crates/vm/src/interp.rs:71-83 | The simulation from any reachable pair of machines, by induction over the run |
| `HostPath.PlainCodeRunsAlike` | crates/vm/src/interp.rs:71-83 | Checkable beforehand: code with neither the CALL nor the SELFDESTRUCT byte gives the same result, step count and slots on both paths |
| `HostPath.HostRunHalts` | crates/vm/src/interp.rs:85-98 | The two halts mapped defensively never occur on the host path |
| `HostPath.MapHaltIsFaithful` | crates/vm/src/interp.rs:85-98 | On host runs the halt mapping is injective |
| `HostPath.RunWithInput` | crates/vm/src/interp.rs:71-83 | Binds the host, runs the engine and returns the mapped result and the host's slots |
| `Flush.ChainStore.FlushWorld` | crates/actuators/src/vm_host.rs:88-118 | The four loops write storage, balances and code and delete self-destructed accounts, in that order |
| `Flush.StorageKeyInjective` | crates/actuators/src/vm_host.rs:25-30 | Different slots of 20-byte addresses have different storage keys |
| `Flush.SlotAfterPuts` | crates/actuators/src/vm_host.rs:89-97 | Whatever the order of the writes, a listed slot reads as listed and any other as before |
| `Flush.BalanceAfterPuts` | crates/actuators/src/vm_host.rs:98-104 | The same for balances; other account fields survive |
| `Flush.FlushAgreesOnStorage` | crates/actuators/src/vm_host.rs:46-118 | After a flush, chain state shows every slot of every 20-byte address as the overlay did |
| `Flush.FlushAgreesOnAccounts` | crates/actuators/src/vm_host.rs:46-118 | After a flush, accounts that did not self-destruct have the overlay's balance and their other fields; self-destructed ones are gone; accounts exist exactly where they did or a balance was written |
| `Flush.FlushAgreesOnCode` | crates/actuators/src/vm_host.rs:46-118 | After a flush, contracts that did not self-destruct have the overlay's code, others none |
| `Trigger.ExecuteTrigger` | crates/actuators/src/smart_contract.rs:86-127 | Validate, move the call value, run the target's code on a view of chain state, flush on success, charge the fee: the whole transaction on the mutable store |
| `Trigger.FromWorld` | crates/actuators/src/vm_host.rs:73-81 | Lists exactly the dirty entries of the world, in some order |
| `Trigger.ChargeEnergyFee` | crates/actuators/src/smart_contract.rs:53-73 | Charges the fee, is free for a missing account, and refuses without a write when the balance does not cover it |
| `Trigger.CallValueMoves` | crates/actuators/src/smart_contract.rs:111-114 | The call value moves from owner to target, nobody else is affected, and it is conserved exactly unless owner equals target and the value is not zero |
| `Trigger.SelfTriggerCreatesValue` | crates/actuators/src/smart_contract.rs:95-127 | An owner whose own address holds a STOP program and who triggers it with a non-zero value ends up with that much more in chain state |
| `Trigger.FailedRunOnlyPays` | crates/actuators/src/smart_contract.rs:119-126 | A failed run persists nothing but the fee: every balance is exact, the owner's less the fee exactly when the transaction is done, the fee positive and the owner stored |
| `Trigger.SuccessfulRunPersists` | crates/actuators/src/smart_contract.rs:119-126 | A successful run is persisted as its world stood: every slot and code, which accounts are stored, and every balance exactly, self-destructed accounts gone and the owner's less the fee exactly when the transaction is done and the owner is stored |
| `Trigger.FailsIffFeeUncovered` | crates/actuators/src/smart_contract.rs:53-73 | A validated trigger fails exactly when, after what its run persisted, the owner has an account, a fee is due, and the balance does not cover it or the difference leaves i64 |
| `Trigger.UnpaidRunStaysPersisted` | crates/actuators/src/smart_contract.rs:119-126 | An input: an owner with less than the fee triggers the program that sets slot 0; the transaction is reported as failed and the slot is written |
| `Trigger.UnpaidRunExists` | crates/actuators/src/smart_contract.rs:53-73 | Such a chain exists at the default price, with an owner holding 0 |
| `Trigger.FundedOwnerPays` | crates/actuators/src/smart_contract.rs:95-127 | Checkable beforehand: with balances in range and the call value covered, an owner who holds the fee of the whole energy limit, before and after the value moved, cannot see its trigger fail, whatever the contract does |
| `Trigger.OpenedSoundIff` | crates/actuators/src/smart_contract.rs:111-114 | The call value is checked against no balance: both parties stay in range exactly when it is covered on both sides |
| `Trigger.TriggerKeepsSound` | crates/actuators/src/smart_contract.rs:95-127 | A covered call value keeps every stored balance in i64 range and non-negative through the whole transaction |
| `Trigger.OverdrawnTriggerGoesNegative` | crates/actuators/src/smart_contract.rs:95-127 | An input: a call value above the owner's balance, sent to another account's STOP program, is done and leaves the owner a negative stored balance |
| `StakeStore.Store.FreezeBalance` | crates/actuators/src/freeze_v2.rs:107-197 | Validate then execute on the mutable store is the freeze step |
| `StakeStore.Store.UnfreezeBalance` | crates/actuators/src/freeze_v2.rs:213-326 | The unfreeze step |
| `StakeStore.Store.WithdrawExpireUnfreeze` | crates/actuators/src/withdraw_unfreeze.rs:29-78 | The withdraw step |
| `StakeStore.Store.CancelAllUnfreeze` | crates/actuators/src/cancel_unfreeze.rs:33-99 | The draining loop is the cancel step: matured entries to the balance, pending ones back to frozen |
| `StakeStore.Store.DelegateResourceTo` | crates/actuators/src/delegate.rs:280-401 | The delegate step |
| `StakeStore.Store.MergeExpiredLock` | crates/actuators/src/delegate.rs:525-561 | Folds an expired locked balance into the unlocked record and deletes an emptied record |
| `StakeStore.Store.UnDelegateResourceFrom` | crates/actuators/src/delegate.rs:424-523 | The undelegate step |
| `StakeProofs.RunKeeps` | crates/actuators/src/executor.rs:56-67 | Over every run of the six transactions: each account's balance + frozen + unfrozen + delegated is unchanged; delegated and acquired balances equal the sums of the records; one non-negative frozen entry per resource; at most 32 pending unfreezes |
| `StakeProofs.StepKeeps` | crates/actuators/src/executor.rs:56-67 | The same for one transaction, whether done, rejected or failed |
| `StakeProofs.FreshLedgerOk` | crates/actuators/src/executor.rs:56-67 | A ledger without delegations satisfies the invariant, so every run from one does |
| `StakeProofs.DelegateKeeps` | crates/actuators/src/delegate.rs:358-401 | Delegation keeps totals and backing |
| `StakeProofs.UndelegateKeeps` | crates/actuators/src/delegate.rs:482-523 | Undelegation, with its merge, keeps totals and backing |
| `StakeProofs.MergeKeepsShares` | crates/actuators/src/delegate.rs:525-561 | Merging an expired lock changes no owner's and no receiver's sum |
| `StakeProofs.AddFrozenAdds` | crates/actuators/src/delegate.rs:107-119 | Adds exactly the amount to the one entry of its resource |
| `StakeProofs.MaturedAndPending` | crates/actuators/src/withdraw_unfreeze.rs:29-78 | Matured and pending entries partition the unfrozen list |
| `StakeProofs.AvailableIsMergedRecord` | crates/actuators/src/delegate.rs:462-471 | What validation calls available is exactly the unlocked record after merging |
| `StakeProofs.AcquiredCoversUndelegate` | crates/actuators/src/delegate.rs:158-169 | The floor at zero is never reached: the receiver holds what is undelegated |
| `StakeProofs.UndelegateSucceeds` | crates/actuators/src/delegate.rs:482-523 | A validated undelegate executes, with record and acquired balance covering the amount |
| `StakeProofs.PartsWithinTotal` | crates/actuators/src/freeze_v2.rs:155-326 | Every part of what an account owns lies between zero and its total |
| `StakeProofs.ValidatedExecutes` | crates/actuators/src/executor.rs:56-67 | With totals in i64, a validated transaction fails in execution exactly when it is an unfreeze whose maturity date overflows |
| `StakeProofs.ValidatedExecutesAfterRun` | crates/actuators/src/executor.rs:56-67 | The same equivalence at the end of every run |
| `StakeProofs.StepHoldsLocks` | crates/actuators/src/delegate.rs:326-346 | Under any transaction a positive locked balance and its expiry only grow, or the whole balance leaves, its expiry having passed |
| `StakeProofs.LockOnlyGrows` | crates/actuators/src/delegate.rs:326-346 | Along any stretch on which a locked balance stays positive, neither it nor its expiry ever decreases |
| `StakeProofs.LockLeavesAtOnce` | crates/actuators/src/delegate.rs:525-561 | Such a stretch ends only with the whole balance leaving, at a time past an expiry no earlier than the first one |
| `StakeProofs.LockHistory` | crates/actuators/src/delegate.rs:326-561 | Every run: the locked balance stays positive throughout, or it left all at once at a step when its expiry had passed |
| `StakeProofs.LockedUntilExpiry` | crates/actuators/src/delegate.rs:326-346 | In particular a locked balance cannot leave before its expiry |
| `StakeEffects.OthersUnchanged` | crates/actuators/src/executor.rs:56-67 | A transaction leaves every account it does not name as it was |
| `StakeEffects.UnsuccessfulChangesNothing` | crates/actuators/src/executor.rs:56-67 | In reachable states a rejected or failed transaction changes nothing |
| `StakeEffects.AddFrozenExact` | crates/actuators/src/delegate.rs:107-119 | The amount of the named resource changes by the delta, of every other resource by nothing |
| `StakeEffects.DelegateThenUndelegateRestores` | crates/actuators/src/delegate.rs:358-523 | Undelegating what was just delegated validates, executes and restores every account exactly and every pair's balance |
| `StakeEffects.DelegateAddsToPair` | crates/actuators/src/delegate.rs:358-401 | A delegation adds its amount to its own pair and resource and to no other |
| `StakeEffects.UndelegateTakesFromPair` | crates/actuators/src/delegate.rs:482-523 | An undelegation, with its merge, takes its amount from its own pair and resource and from no other |
| `StakeEffects.UnfreezeThenCancel` | crates/actuators/src/cancel_unfreeze.rs:49-99 | Cancelling undoes an unfreeze that has not matured: the account ends as if only the cancel had happened, list order included, whatever else is queued |
| `StakeEffects.FreezeUnfreezeWithdraw` | crates/actuators/src/freeze_v2.rs:155-326 | Freeze, unfreeze and withdraw after the delay leave balance, queue and frozen amounts as if only the withdrawal had happened |
| `TokenStore.Store.CheckFrozenSupply` | crates/actuators/src/asset_issue.rs:151-165 | The validation loop accepts exactly the lots that fit the remaining supply with legal durations |
| `TokenStore.Store.SplitSupply` | crates/actuators/src/asset_issue.rs:209-223 | The splitting loop gives the lots with their maturity dates and the remainder, and fails exactly when a date overflows |
| `TokenStore.Store.CheckTransfer` | crates/actuators/src/asset_transfer.rs:65-116 | The validation of a transfer, as an equivalence |
| `TokenStore.Store.AssetIssue` | crates/actuators/src/asset_issue.rs:88-230 | The issue step, with its writes before a failing maturity date |
| `TokenStore.Store.TransferAsset` | crates/actuators/src/asset_transfer.rs:65-173 | The transfer step |
| `TokenStore.Store.ParticipateAssetIssue` | crates/actuators/src/participate_asset_issue.rs:54-155 | The purchase step |
| `TokenStore.Store.UnfreezeAsset` | crates/actuators/src/unfreeze_asset.rs:46-104 | The loop that splits matured from remaining lots is the unfreeze step |
| `TokenStore.Store.ExchangeCreate` | crates/actuators/src/exchange.rs:264-375 | The pool creation step |
| `TokenStore.Store.ExchangeInject` | crates/actuators/src/exchange.rs:438-533 | The inject step |
| `TokenStore.Store.ExchangeWithdraw` | crates/actuators/src/exchange.rs:560-643 | The withdraw step |
| `TokenStore.Store.ExchangeTransaction` | crates/actuators/src/exchange.rs:660-748 | The swap step, for any swap output |
| `TokenProofs.RunConservesSupply` | crates/actuators/src/asset_issue.rs:182-230 | Over every run, for every registered token: account holdings + the issuer's frozen supply + pool balances equal the total supply, whatever the swap formula returns, or zero from then on if its issue failed on a maturity date |
| `TokenProofs.StepKeeps` | crates/actuators/src/executor.rs:50-55 | The same for one transaction of any kind and outcome |
| `TokenProofs.GenesisSupplyOk` | crates/actuators/src/asset_issue.rs:182-230 | A state in which nothing was issued satisfies the invariant |
| `TokenProofs.UnissuedIsNowhere` | crates/state/src/lib.rs:229-248 | An id that was not allocated is held nowhere, so a fresh id starts at zero |
| `TokenProofs.IssueKeepsIffMaturitiesFit` | crates/actuators/src/asset_issue.rs:182-230 | A validated issue keeps the supply equation exactly when its maturity dates fit in i64; otherwise it registers a supply that exists nowhere |
| `TokenProofs.FailedIssueIsVoid` | crates/actuators/src/asset_issue.rs:182-223 | The id such an issue registers is held nowhere |
| `TokenProofs.FailingIssueExists` | crates/actuators/src/asset_issue.rs:77-214 | A validated request with the default fee whose maturity date overflows: it fails, the id is registered and the fee counted as burned, and no account has changed |
| `TokenProofs.IssuerShare` | crates/actuators/src/asset_issue.rs:210-226 | Spendable plus frozen of the new token is the whole supply; other tokens are untouched |
| `TokenProofs.TransferKeeps` | crates/actuators/src/asset_transfer.rs:119-173 | A transfer keeps every token's supply |
| `TokenProofs.ParticipateKeeps` | crates/actuators/src/participate_asset_issue.rs:108-155 | A purchase keeps every token's supply |
| `TokenProofs.UnfreezeKeeps` | crates/actuators/src/unfreeze_asset.rs:70-104 | Unfreezing keeps every token's supply |
| `TokenProofs.TradeKeeps` | crates/actuators/src/exchange.rs:504-748 | What the trader pays the pool gains, token by token |
| `TokenProofs.CreatePoolKeeps` | crates/actuators/src/exchange.rs:324-375 | Creating a pool keeps every token's supply |
| `TrxProofs.RunConservesTrx` | crates/actuators/src/executor.rs:50-55 | Over every run, balances + pool TRX + burned change only by the fees of issues that fail on a maturity date, burned though no account paid them |
| `TrxProofs.StepTrx` | crates/actuators/src/asset_issue.rs:198-207 | For one transaction, with that exact exception |
| `TrxProofs.RunKeepsBalances` | crates/actuators/src/exchange.rs:174-209 | No reachable TRX balance is negative or overflows, and pools trade two different tokens |
| `TrxProofs.TransferShapeExact` | crates/actuators/src/asset_transfer.rs:119-173 | A validated transfer executes: token moved, target created if needed, fee taken from the owner and burned, nothing else changed |
| `TrxProofs.ParticipateMoves` | crates/actuators/src/participate_asset_issue.rs:40-155 | A purchase moves the TRX to the issuer and, back, the largest number of tokens it pays for |
| `TrxProofs.UnsuccessfulChangesNothing` | crates/actuators/src/executor.rs:50-55 | A rejected or failed transaction changes nothing exactly unless it is an issue that fails on a maturity date |
| `PoolMath.WithdrawUndoesInject` | crates/actuators/src/exchange.rs:213-216 | After injecting q against a, the floor share of withdrawing q is a again |
| `PoolMath.InjectAfterWithdraw` | crates/actuators/src/exchange.rs:213-216 | After withdrawing q and a, injecting q back costs at least a; exactly a iff the remainder is below what is left |
| `PoolMath.InjectThenWithdrawRestores` | crates/actuators/src/exchange.rs:427-643 | Inject then withdraw of the same quantity validates, executes and restores the creator and the pool exactly |
| `PoolMath.WithdrawThenInjectNeverGains` | crates/actuators/src/exchange.rs:549-643 | Withdraw then inject of the same quantity never leaves the creator with more of either token; exactly the same iff the remainder condition holds |
| `Finality.FinalityNode.OnPbftCommit` | crates/node/src/net.rs:174-225 | One commit: gated, deduplicated, recorded, tip advanced and confirmations pruned; accepted exactly when the gates pass and the signer is new |
| `Finality.SolidifiedBlock` | crates/consensus/src/pbft.rs:88-103 | The loop finds the highest block up to which every block from 1 has a quorum |
| `Finality.SolidTip` | crates/consensus/src/pbft.rs:88-103 | Every block from 1 to the tip has a quorum and the next one, if below the head, has none |
| `Finality.RunKeepsGood` | crates/node/src/net.rs:174-225 | Over every run of commits, head advances and active-set changes: the tip never decreases or passes the head, and all confirmation keys stay between the tip and head + 1024 |
| `Finality.ConfirmationsWereAccepted` | crates/node/src/net.rs:194-212 | Every counted confirmation was an accepted commit of a witness that was active then |
| `Finality.AdvanceNeedsQuorums` | crates/node/src/net.rs:214-222 | Whenever the tip moves to t, every block 1..t has floor(2n/3)+1 distinct signers, each active when accepted |
| `Finality.QuorumsIntersect` | crates/consensus/src/pbft.rs:71-84 | Two quorums of one active list share at least floor(n/3)+1 members |
| `Finality.SolidifiedNodesShareSigners` | crates/node/src/net.rs:174-225 | Two nodes with the same fixed active list that both solidify a block counted signer sets sharing at least floor(n/3)+1 members, whatever their histories |
| `Finality.TipMovesIff` | crates/node/src/net.rs:214-222 | Some run moves the tip exactly when it is 0, or is 1 with block 1's confirmations still held |
| `Finality.TipSticksBelowQuorum` | crates/node/src/net.rs:214-222 | One witness, head 3, commits for 1, 2 and 3: the tip is 2 for ever although block 3 has its quorum |
| `Finality.TipStuck` | crates/node/src/net.rs:214-222 | From every other state no run ever moves the tip again |
| `Schedule.ScheduleIgnoresHead` | crates/consensus/src/lib.rs:53-65 | The witness of a slot depends on the slot and the active list alone |
| `Schedule.RoundVisitsEachPositionOnce` | crates/consensus/src/lib.rs:53-65 | Any n consecutive slots visit every position exactly once |
| `Schedule.ProducedBlockTakesItsSlot` | crates/consensus/src/producer.rs:18-64 | A produced block sits on its slot, above the head's slot, belongs to its scheduled witness and becomes the head |
| `Schedule.OneProducerPerSlot` | crates/node/src/production.rs:48-80 | Nodes that agree on genesis time and active list never both own a slot |
| `Schedule.RunStaysRooted` | crates/node/src/sync.rs:61-75 | Intake only stores the block right above the head, so every run keeps the genesis block and a stored head |
| `Schedule.ProducedSlotsIncrease` | crates/node/src/production.rs:48-94 | Over every run in which no stored peer block lies in an earlier slot than the head, the slots a node produces strictly increase |
| `Schedule.ProducesAgainIff` | crates/node/src/production.rs:48-80 | After producing and storing a peer block on top, the node produces the same slot again exactly when the peer block lies in an earlier slot |
| `Schedule.IncreaseNeedsOrder` | crates/node/src/production.rs:48-94 | So the produced slots of that run increase exactly when the peer block was in order |
| `Schedule.SlotProducedTwice` | crates/node/src/sync.rs:56-75 | A concrete run of two witnesses: one produces slot 2, the other's block of its own slot 1 is stored on top, slot 2 is produced again |
| `Schedule.RepeatsIffHeadFellBack` | crates/node/src/production.rs:48-94 | After any run: a further in-order run, elections included, can produce a slot at or below a given one exactly when the head's slot now lies below it |
| `Schedule.BlockStore.Put` | crates/state/src/blocks.rs:20-39 | Stores the block and advances the head only upwards |
| `Schedule.BlockStore.Produce` | crates/node/src/production.rs:48-94 | One tick: produce if it is our slot, then apply |
| `Merkle.MerkleRoot` | crates/chain/src/lib.rs:36-58 | The bottom-up pairing loop with odd carry computes the top-down tree of section 2.1 of RFC 6962 (without its prefixes) |
| `Merkle.NextLevel` | crates/chain/src/lib.rs:42-54 | One pass hashes pairs and carries an odd node |
| `Merkle.SplitIsLargestPowerOfTwo` | crates/chain/src/lib.rs:36-58 | The top-down split point is the largest power of two below n |
| `Merkle.LevelUpKeepsRoot` | crates/chain/src/lib.rs:42-54 | Hashing one level does not change the top-down root |
| `Merkle.EqualRootsGiveCollision` | crates/chain/src/lib.rs:36-58 | Two different lists of one length with the same root yield an explicit collision of the pair hash |
| `Merkle.RootIsInjective` | crates/chain/src/lib.rs:36-58 | With an injective pair hash, equal roots mean equal lists |
| `Election.CountVotes` | crates/actuators/src/maintenance.rs:26-34 | The nested loops give each candidate the sum of its votes over the existing voters |
| `Election.WitnessStore.ApplyTallies` | crates/actuators/src/maintenance.rs:87-99 | Each listed candidate in the store gains its votes, once per listing, and is scored |
| `Election.WitnessStore.RunMaintenance` | crates/actuators/src/maintenance.rs:75-117 | Tally, update, rank, cut at 27, persist |
| `Election.RanksBeforeIsOrdering` | crates/consensus/src/election.rs:33-38 | The comparator is a total order on (address, votes) |
| `Election.CountIs` | crates/actuators/src/maintenance.rs:87-99 | A stored count is the old count plus the votes times the number of listings |
| `Election.EntriesCount` | crates/actuators/src/maintenance.rs:87-99 | How often a score occurs depends only on how often its witness is listed |
| `Election.MaintenanceIgnoresOrder` | crates/actuators/src/maintenance.rs:75-117 | Any permutation of candidates and voters stores the same counts and elects the same ordered set, repeated candidates included |
| `Election.ElectedRankFirst` | crates/actuators/src/maintenance.rs:48-53 | No candidate left out ranks before an elected one; with distinct candidates every elected one ranks before every one left out |
| `Sorting.SortSorts` | crates/consensus/src/election.rs:47-53 | Sorting by a comparator sorts |
| `Sorting.SortIgnoresOrder` | crates/consensus/src/election.rs:47-53 | Without ties the ranking is independent of the input order |
| `Closeness.CommonPrefixBits` | crates/p2p/src/discovery.rs:28-39 | The bytewise scan with leading zeros counts the shared leading bits, bit by bit |
| `Closeness.SharedBitsUltrametric` | crates/p2p/src/discovery.rs:28-39 | Two ids share at least what each shares with a third, and exactly the smaller share when those differ |
| `Closeness.AllBitsShared` | crates/p2p/src/discovery.rs:126-133 | Only an id itself shares all 256 bits |
| `Closeness.SharedBitsIsDistanceLength` | crates/p2p/src/discovery.rs:28-39 | The shared prefix is fixed by, and fixes, the bit length of the xor distance |
| `Closeness.CloserMeansSmallerDistance` | crates/p2p/src/discovery.rs:41-45 | `is_closer` implies a smaller xor distance, and holds exactly when a power of two separates the two distances |
| `Recency.InsertKeepsLastSeen` | crates/p2p/src/discovery.rs:136-156 | If a bucket holds the k last-seen ids it still does after one more insert |
| `Recency.SurvivorsAreLastSeen` | crates/p2p/src/discovery.rs:136-156 | The survivors of a history are exactly the entries no later entry of the same id replaced |
| `Recency.SurvivorsInOrder` | crates/p2p/src/discovery.rs:136-156 | Survivors are listed in the order of their last sighting |
| `Recency.LastKMostRecent` | crates/p2p/src/discovery.rs:136-156 | The last k survivors are distinct, current, ordered by last sighting, and a current entry is left out only by k later ones |
| `Recency.Position` | crates/p2p/src/discovery.rs:141 | Finds the first node with the id, if any |
| `Routing.BucketHoldsLastSeen` | crates/p2p/src/discovery.rs:136-156 | After every run of inserts each bucket is the last k survivors of the inserts of its distance class |
| `Routing.BucketIsMostRecent` | crates/p2p/src/discovery.rs:136-156 | That is, in order, the k most recently seen ids of its class with their latest endpoints: stated by positions in the insert history |
| `Routing.TableInvariants` | crates/p2p/src/discovery.rs:99-156 | Hence no bucket overflows, no id is stored twice or in a wrong bucket, and the local id is never stored |
| `Routing.RoutingTable.Insert` | crates/p2p/src/discovery.rs:136-156 | In-place insert refreshes, appends or evicts the oldest, with the matching outcome, and keeps the table valid |
| `Routing.RoutingTable.Contains` | crates/p2p/src/discovery.rs:180-186 | True exactly when some bucket holds the id |
| `Routing.RoutingTable.Nearest` | crates/p2p/src/discovery.rs:158-166 | Flatten, stable sort by closeness, truncate |
| `Routing.ClosestAreClosest` | crates/p2p/src/discovery.rs:158-166 | Returns min(count, len) nodes, closest first, and no node left out is closer than one returned |

## Left out

- Machine integers: memory extents (`end + 31`, `w * w`) and offsets are unbounded naturals behind the
  64-bit saturating additions, which is the code's arithmetic for limits below 3 * 2^32 and all but the
  last 31 extents; the unchecked `i64`
  additions of world transfers, delegate, cancel, vote tallies and pool balances are unbounded integers.
  `StakeProofs.ValidatedExecutes` shows that owned stake amounts stay in range; acquired balances are
  not bounded.
- Precompile outputs, the swap formula and the withdrawal precision check use foreign or
  floating-point code: they are arbitrary parameters, and the results hold for every value.
- Hashing, signatures, Base58 and protobuf encoding: hashes are an arbitrary function, recovered
  signers and parsed addresses are inputs, stored messages are datatypes; name, URL and limit checks of
  an asset issue are one input verdict.
- The host is the in-memory one; the store-backed `StateHost` and storage errors of the state backend
  are not modelled.
- Self-destruct whose balance arithmetic leaves `i64`: the saturated result is modelled, but the exact
  undo and inheritance lemmas require that it does not happen.
- VM value conservation across a flush: the burn total of a run is not part of what is flushed.
- Staked-weight totals and account fields the modelled transactions do not read or write.
- Block timestamps are non-negative, and time in the stake ledger does not go back.
- PBFT commits are one atomic step and are counted per block number, as in the code; interleavings
  inside a commit and agreement on block ids are not claimed.
- Market orders, single-field actuators, contract creation, networking, HTTP and storage engines.
- The burn counter that a trigger's fee is added to, and the energy price property behind its default.
- The library sort is modelled by a stable insertion sort; `Sorting.SortedIsUnique` shows that without
  ties any sort gives the same result.
- Routing.BucketHoldsLastSeen: requires a bucket capacity of at least 1, because the code panics on the
  first insert into a table of capacity 0.
- Routing.RoutingTable.Insert: the same, through the table's validity.
- Schedule.ProducedSlotsIncrease: holds while no stored peer block lies in an earlier slot than the head;
  `Schedule.IncreaseNeedsOrder` shows that the condition cannot be dropped.
- HostPath.HostRunSimulatesWorldRun: says nothing about runs that enter a contract, where the two paths
  part (`EngineRuns.EnteringSeparatesPaths`).
