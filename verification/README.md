# SmartReco in Dafny

SmartReco looks for cross-DApp read-only reentrancy on Ethereum. It replays
transactions on a vendored EVM (revm), builds call graphs, folds them into
importance scores, and then runs a detector that replays a victim transaction
inside cross-DApp calls. This project models the parts of it that carry the
argument and proves what they promise. `dafny verify dfyconfig.toml` checks
everything.

## How it is laid out

Where the code works by changing things in place, there is a class or a method
with a loop that does the same, proved to compute a function of the state
before; what the code is for is then proved of those functions.

1. **Journal, frames and transactions of the EVM.** `Journal` has every
   operation of the journaled state as a function, `JournaledStates` the object.
   `Rollback` defines what a revert restores (`Restored`) and when a list of
   journal entries recovers it (`Recovers`); `Supply` sums the ether of all
   2^160 addresses, loaded or still in the database; `Tracking` shows every
   operation to be `Tracked` (what it appended undoes it, it only adds accounts,
   it keeps the supply but for burnt balances), `Frames` does so for commits and
   reverts, `EvmRuns` for all trees of calls and creates. `Snapshots` compares
   the journal with a machine that keeps a full copy per checkpoint, and
   `Reports` what the two answer. `Limits` says what single undone steps do not
   give back; `Creations` and `Stories` follow an account's code hash, slots and
   Created flag through whole runs. `GasMeter`, `Transaction`, `DatabaseErrors`
   and `Ether` add gas, fees, the error slot and the conservation of ether;
   `EvmImpls` is `EVMImpl` itself. `Answers` says what the operations answer and
   change, `Payments` who pays whom and whose nonce counts in calls and creates,
   `Owners` whose storage a callee writes, and `Fees` which transactions are
   accepted and who is paid what around their frame, all of it over the balances,
   nonces and slots of every address, loaded or still in the database.
2. **The detector.** A contract is a finite tree of the actions the host sees.
   `Detector` is `FuzzHost` on values, `FuzzHosts` the object. `Detections`
   proves what a reported leak implies and when a victim is replayed, `Witnesses`
   the converse, what makes a run report one, `Transparency` what detection leaves
   undisturbed, `Ledgers` how far it moves balances, `Observations` what
   contracts see of it.
3. **Replay and aggregation.** `CallGraphs` grows the call graph and reads it
   off the flat trace by brackets alone; `ReplayHosts` is the object that clones
   and swaps nodes. `Dicts`, `Aggregation` and `Aggregators` are the Python side.
4. **ABI.** `Abi` has the encoding the code writes beside the head and tail
   definition of the Formal Specification of the Encoding section of the
   Solidity Contract ABI Specification, `AbiReader` a reader of it, `AbiCodecs`
   the loops over byte buffers, `TypeNames` type strings and their JSON source.
5. **Sweeps and modular exponentiation.** `Modexp` follows the Specification
   sections of EIP-198 and EIP-2565, `Sweeps` the three walks over instruction
   boundaries, `SourceMaps` the Source Mappings section of the Solidity
   documentation.

Machine words are modelled with their widths: balances wrap or saturate where
the Rust operators do, sizes are truncated where a usize would be. `None` as the
result of a function stands for a panic. The database, the chain data and
`ownerOnly` (what Slither and Etherscan are asked) are arbitrary fixed
functions, so theorems hold for every answer they could give. A run of a
contract is given by the tree of operations it performs, so a theorem about all
trees covers all contracts.

## Where the code differs from what it is for

- `set_code` journals the new code, so a revert leaves the new code hash; the
  Created flag and zeroed slots of an undone creation stay. An account that the
  collision test refuses is safe from both in every frame; `Stories` says what
  any other keeps. A payment that is debited and then refused is not journaled
  (`Limits.PayRecoversExactly`).
- The undo of a transfer is not exact on integers: for a payment to oneself of
  more than the room above the balance it wraps (`Limits.UndoneMoveWraps`).
- `transact` takes the reported error out of a slot that `transfer` never fills;
  `DatabaseErrors` shows that the slot is nevertheless filled whenever a frame
  ends fatally because an operation failed.
- A detected contract can see that it is: a call of an address without code in
  its own DApp returns the call's input, a replayed victim without input puts
  its own text in place of the data, and a victim that pays moves two balances
  for good (`Ledgers`). `Observations` proves that nothing else shows.
- A DELEGATECALL that fails before the host is called leaves its mark, so the
  caller's next call may be recorded as a proxy's (`CallGraphs.StaleMark`).
- A build without gas measuring charges the caller for the whole gas limit and
  pays nobody back.
- The victim's transfer happens before the balances are saved, so a replay
  gives balances back exactly when the victim sends nothing; and a victim
  without input replaces the callee's result and data.
- `send_balance` reads both balances first, so a contract that pays itself in a
  detected run gains the value (`Ledgers.CallSends`), where the EVM moves nothing
  (`Payments.PayPays`).
- `send_balance` tests an unsigned difference for being below zero, so its
  failing branch is dead and the difference wraps.
- `get_bytes` writes an offset word for a static component that encodes to
  nothing; `set_bytes` of a string stores the size word as data, and in an array
  of static and dynamic components it looks for both in the wrong places.
- `process_input` panics on fixed-length arrays of tuples.
- ModexpModOverflow cannot be returned: an overflowing modulus length is
  reported as ModexpBaseOverflow.

## Model

| member | source | states |
|---|---|---|
| `JournaledStates.JournaledState.constructor` | smartReco_dynamic_analysis/revm/crates/revm/src/journaled_state.rs:91-100 | A new journaled state is empty: depth 0, one empty journal vector. |
| `JournaledStates.JournaledState.Legacy` | smartReco_dynamic_analysis/revm/crates/revm/src/journaled_state.rs:105-109 | The same for rules before Spurious Dragon. |
| `JournaledStates.JournaledState.TouchAccount` | smartReco_dynamic_analysis/revm/crates/revm/src/journaled_state.rs:119-130 | The object's new value is `Touch` of the old one; the flag is set and journaled once, absent accounts are left alone. |
| `JournaledStates.JournaledState.Load` | smartReco_dynamic_analysis/revm/crates/revm/src/journaled_state.rs:525-551 | The new value and the cold flag are those of `LoadAccount`, the failing database included. |
| `JournaledStates.JournaledState.LoadExist` | smartReco_dynamic_analysis/revm/crates/revm/src/journaled_state.rs:554-570 | The new value, cold flag and existence are those of `LoadAccountExist`, by the rule of the active specification. |
| `JournaledStates.JournaledState.LoadWithCode` | smartReco_dynamic_analysis/revm/crates/revm/src/journaled_state.rs:572-588 | The new value is that of `LoadCode`: code is cached without a journal entry, and an unreadable code keeps the loaded account. |
| `JournaledStates.JournaledState.InitialLoad` | smartReco_dynamic_analysis/revm/crates/revm/src/journaled_state.rs:496-522 | The loop over the preset slots ends in `InitialAccountLoad`, and inserts nothing when a read fails. |
| `JournaledStates.JournaledState.SetAccountCode` | smartReco_dynamic_analysis/revm/crates/revm/src/journaled_state.rs:153-167 | The new value is `SetCode`, whose entry holds the new code. |
| `JournaledStates.JournaledState.IncrementNonce` | smartReco_dynamic_analysis/revm/crates/revm/src/journaled_state.rs:169-184 | The new value is `IncNonce`; the largest nonce is refused with nothing changed. |
| `JournaledStates.JournaledState.TransferBalance` | smartReco_dynamic_analysis/revm/crates/revm/src/journaled_state.rs:186-227 | The new value and error are those of `Transfer`, the unjournaled debit of an overflowing payment included. |
| `JournaledStates.JournaledState.LoadSlot` | smartReco_dynamic_analysis/revm/crates/revm/src/journaled_state.rs:591-624 | The new value and result are those of `Sload`. |
| `JournaledStates.JournaledState.StoreSlot` | smartReco_dynamic_analysis/revm/crates/revm/src/journaled_state.rs:628-658 | The new value and result are those of `Sstore`; writing the present value journals nothing. |
| `JournaledStates.JournaledState.SelfDestruct` | smartReco_dynamic_analysis/revm/crates/revm/src/journaled_state.rs:436-475 | The new value and result are those of `SelfDestructAccount`. |
| `JournaledStates.JournaledState.OpenCheckpoint` | smartReco_dynamic_analysis/revm/crates/revm/src/journaled_state.rs:405-413 | The checkpoint and the new value are those of `Checkpoint`. |
| `JournaledStates.JournaledState.CommitCheckpoint` | smartReco_dynamic_analysis/revm/crates/revm/src/journaled_state.rs:415-417 | Only the depth changes. |
| `JournaledStates.JournaledState.JournalRevert` | smartReco_dynamic_analysis/revm/crates/revm/src/journaled_state.rs:329-403 | The loop over one vector of entries, newest first, ends in `UndoAll` of the old state. |
| `JournaledStates.JournaledState.UndoEntry` | smartReco_dynamic_analysis/revm/crates/revm/src/journaled_state.rs:336-402 | One step of that loop is `Undo`, with address 0x03 exempt from unloading and untouching after Spurious Dragon. |
| `JournaledStates.JournaledState.RevertCheckpoint` | smartReco_dynamic_analysis/revm/crates/revm/src/journaled_state.rs:419-433 | The loop over the vectors since the checkpoint ends in `RevertTo`, which undoes the flattened journal of all of them at once. |
| `JournaledStates.JournaledState.CreateAccountCheckpoint` | smartReco_dynamic_analysis/revm/crates/revm/src/journaled_state.rs:242-304 | Checkpoint, `CreateAccount` and, on a collision or overflow, the revert, which never panics. |
| `Rollback.RestoredTransitive` | smartReco_dynamic_analysis/revm/crates/revm/src/journaled_state.rs:329-403 | The restored view is transitive: balances, nonces, flags and warm slots of every account, slot values of all but accounts that carry the Created flag with nonce 0, and the code hash and readable code of accounts without that flag. |
| `Rollback.RecoversTrans` | smartReco_dynamic_analysis/revm/crates/revm/src/journaled_state.rs:419-433 | Entry lists that each take every restored state back also do so one after the other, without a panic. |
| `Rollback.RecoversLoad` | smartReco_dynamic_analysis/revm/crates/revm/src/journaled_state.rs:338-343 | Undoing a load takes every state that shows the loaded one back to one that shows the state before. |
| `Rollback.RecoversTouch` | smartReco_dynamic_analysis/revm/crates/revm/src/journaled_state.rs:344-350 | The same for a touch. |
| `Rollback.RecoversNonce` | smartReco_dynamic_analysis/revm/crates/revm/src/journaled_state.rs:381-383 | The same for a counted nonce; the decrement cannot go below zero. |
| `Rollback.RecoversSlotLoad` | smartReco_dynamic_analysis/revm/crates/revm/src/journaled_state.rs:384-395 | The same for a slot loaded cold, the values of the other slots included. |
| `Rollback.RecoversSlotWrite` | smartReco_dynamic_analysis/revm/crates/revm/src/journaled_state.rs:384-395 | The same for an overwritten slot, also of an account created earlier in the transaction. |
| `Rollback.RecoversMove` | smartReco_dynamic_analysis/revm/crates/revm/src/journaled_state.rs:374-380 | The same for a transfer, also one to the payer itself and one whose additions wrap; `Limits.UndoneMoveExact` says when the undo does not wrap. |
| `Rollback.RecoversDestroy` | smartReco_dynamic_analysis/revm/crates/revm/src/journaled_state.rs:351-373 | The same for a selfdestruct, also one into the account itself; `Limits.UndoneDestroyExact` adds that the undo never wraps. |
| `Supply.SupplyDelta` | smartReco_dynamic_analysis/revm/crates/revm/src/journaled_state.rs:186-227 | The total supply over all addresses changes by what two accounts change by. |
| `Supply.RestoredSupply` | smartReco_dynamic_analysis/revm/crates/revm/src/journaled_state.rs:419-433 | A restored state holds the same ether. |
| `Supply.MovedSupply` | smartReco_dynamic_analysis/revm/crates/revm/src/journaled_state.rs:200-214 | Below a supply of 2^256 a transfer conserves it, and debit and credit are the exact integer results. |
| `Supply.DestroyedSupply` | smartReco_dynamic_analysis/revm/crates/revm/src/journaled_state.rs:444-457 | A selfdestruct conserves the supply, except that one into itself removes exactly the balance. |
| `Tracking.ContinuesTrans` | smartReco_dynamic_analysis/revm/crates/revm/src/journaled_state.rs:405-433 | Entries made later land behind earlier ones in the flattened journal, even after inner frames were committed into it. |
| `Tracking.TrackedTrans` | smartReco_dynamic_analysis/revm/crates/revm/src/journaled_state.rs:405-433 | Tracked runs compose: the journal of both undoes both, and what they burn adds up. |
| `Tracking.TrackedLoadAccount` | smartReco_dynamic_analysis/revm/crates/revm/src/journaled_state.rs:525-551 | Loading is tracked: its entries undo it, it only adds accounts, it keeps the supply. |
| `Tracking.TrackedLoadCode` | smartReco_dynamic_analysis/revm/crates/revm/src/journaled_state.rs:572-588 | Loading code is tracked. |
| `Tracking.TrackedTouch` | smartReco_dynamic_analysis/revm/crates/revm/src/journaled_state.rs:119-130 | Touching is tracked. |
| `Tracking.TrackedIncNonce` | smartReco_dynamic_analysis/revm/crates/revm/src/journaled_state.rs:169-184 | Counting a nonce is tracked. |
| `Tracking.TrackedSload` | smartReco_dynamic_analysis/revm/crates/revm/src/journaled_state.rs:591-624 | A slot load is tracked. |
| `Tracking.TrackedSstore` | smartReco_dynamic_analysis/revm/crates/revm/src/journaled_state.rs:628-658 | A slot write is tracked, also one to an account created earlier. |
| `Tracking.PayIsMove` | smartReco_dynamic_analysis/revm/crates/revm/src/journaled_state.rs:200-224 | A payment that goes through is two touches and one exact move, in spite of the order of debit, touch and credit. |
| `Tracking.PayNeverOverflows` | smartReco_dynamic_analysis/revm/crates/revm/src/journaled_state.rs:208-215 | Below a supply of 2^256 no payment overflows the payee. |
| `Tracking.TransferNeverOverflows` | smartReco_dynamic_analysis/revm/crates/revm/src/journaled_state.rs:186-227 | Below a supply of 2^256 `transfer` never returns OverflowPayment, whatever has to be loaded first. |
| `Tracking.TrackedTransfer` | smartReco_dynamic_analysis/revm/crates/revm/src/journaled_state.rs:186-227 | A transfer is tracked, refused ones included. |
| `Tracking.TrackedSelfDestruct` | smartReco_dynamic_analysis/revm/crates/revm/src/journaled_state.rs:436-475 | A selfdestruct is tracked and accounts for the ether it burns. |
| `Tracking.TrackedSetCode` | smartReco_dynamic_analysis/revm/crates/revm/src/journaled_state.rs:153-167 | Deploying onto a created account is tracked. |
| `Tracking.EndowIsMove` | smartReco_dynamic_analysis/revm/crates/revm/src/journaled_state.rs:278-301 | Crediting before debiting, with the first nonce between, is a nonce change and one move. |
| `Tracking.TrackedCreateAccount` | smartReco_dynamic_analysis/revm/crates/revm/src/journaled_state.rs:242-304 | Creating an account is tracked, collisions and refusals included. |
| `Answers.PrecompilesAre` | smartReco_dynamic_analysis/revm/crates/revm/src/journaled_state.rs:669-675 | The precompiles are exactly the addresses 1 to their number. |
| `Answers.LoadAnswers` | smartReco_dynamic_analysis/revm/crates/revm/src/journaled_state.rs:525-551 | A load fails exactly if the account is neither loaded nor readable; it is cold exactly if it was not loaded and is no precompile; it brings in the account as the database holds it and moves no balance. |
| `Answers.ExistAnswers` | smartReco_dynamic_analysis/revm/crates/revm/src/journaled_state.rs:554-570 | An account exists, since Spurious Dragon, if it holds a balance, a nonce or code; before, if the database knew it or something touched it. |
| `Answers.NonceCounted` | smartReco_dynamic_analysis/revm/crates/revm/src/journaled_state.rs:169-184 | Counting adds one to the nonce and marks the account, and nothing else; the largest nonce is refused. |
| `Answers.SloadAnswers` | smartReco_dynamic_analysis/revm/crates/revm/src/journaled_state.rs:591-624 | A read answers the slot's present value, cold exactly if it was not loaded: the database's value, or zero in a created account. |
| `Answers.SstoreAnswers` | smartReco_dynamic_analysis/revm/crates/revm/src/journaled_state.rs:628-658 | A write answers the slot's original value, its present value before, the value written, and cold exactly if the slot was not loaded; then the slot shows that value with its original untouched, and no other slot or account has changed. |
| `Answers.SelfDestructAnswers` | smartReco_dynamic_analysis/revm/crates/revm/src/journaled_state.rs:436-475 | A selfdestruct tells whether there was a balance, a target that exists, a cold target, a flag set before; afterwards the account is empty and its target has that much more, or nothing is left if it is its own target. |
| `Frames.CommittedFrame` | smartReco_dynamic_analysis/revm/crates/revm/src/journaled_state.rs:415-417 | A committed frame is one tracked operation of the frame around it. |
| `Frames.RevertedFrame` | smartReco_dynamic_analysis/revm/crates/revm/src/journaled_state.rs:419-433 | Whatever tracked run a frame held, its revert goes through, restores the view of the checkpoint, and gives back journal, logs and depth exactly. |
| `Snapshots.SimClose` | smartReco_dynamic_analysis/revm/crates/revm/src/journaled_state.rs:405-433 | A closed frame shows what a stack of full copies keeps on commit or puts back on failure. |
| `Snapshots.JournalRefinesSnapshots` | smartReco_dynamic_analysis/revm/crates/revm/src/journaled_state.rs:329-433 | On every create-free run of nested frames the journaled state shows the state of a machine that keeps a full copy per checkpoint, after every operation, with equal logs and depth, whatever the database fails to read. |
| `Reports.ReportsAlike` | smartReco_dynamic_analysis/revm/crates/revm/src/journaled_state.rs:435-658 | On those runs every operation of every frame answers the same on both machines: values read, code hashes, cold flags, and results, meters and data of calls; 0x03 being a precompile, or the rules older than Spurious Dragon. |
| `Reports.SameColdFlag` | smartReco_dynamic_analysis/revm/crates/revm/src/journaled_state.rs:525-551 | In states that match, the cold flag of a load is the same if and only if the account is not one that only a revert left loaded, or is a precompile; only 0x03 can be left so. |
| `Reports.CallEndsAs` | smartReco_dynamic_analysis/revm/crates/revm/src/evm_impl.rs:502-556 | A call ends with its refusal, its precompile's outcome or its callee's, on every exit path, whatever its revert does; the answers compared above are these. |
| `Limits.PayRecoversExactly` | smartReco_dynamic_analysis/revm/crates/revm/src/journaled_state.rs:204-215 | The journal of a payment recovers the state before it if and only if the payee can hold the payment or the payer cannot make it. |
| `Limits.DebitLostExample` | smartReco_dynamic_analysis/revm/crates/revm/src/journaled_state.rs:204-215 | A payment that is debited, refused and not journaled. |
| `Limits.UndoneMoveExact` | smartReco_dynamic_analysis/revm/crates/revm/src/journaled_state.rs:374-380 | With a supply below 2^256 the undo of a transfer adds without wrapping if and only if it is not a payment to oneself of more than the room left above the balance, and never subtracts below zero. |
| `Limits.UndoneMoveWraps` | smartReco_dynamic_analysis/revm/crates/revm/src/journaled_state.rs:374-380 | Such a payment: 2^255 from an account that holds 2^255 to itself, whose undo wraps and still ends right. |
| `Limits.UndoneDestroyExact` | smartReco_dynamic_analysis/revm/crates/revm/src/journaled_state.rs:351-373 | With a supply below 2^256 the undo of a selfdestruct never wraps. |
| `Limits.UndoLeavesFirstHash` | smartReco_dynamic_analysis/revm/crates/revm/src/journaled_state.rs:396-400 | Undoing leaves each account the code hash its first code change wrote. |
| `Limits.SetCodeSurvivesRevert` | smartReco_dynamic_analysis/revm/crates/revm/src/journaled_state.rs:157-166 | Code deployed in a frame that reverts stays deployed. |
| `Limits.RevertedCreation` | smartReco_dynamic_analysis/revm/crates/revm/src/journaled_state.rs:261-276 | A creation undone before anything else ran leaves the account marked created, and its slots as they were if and only if they were all zero, written or not; `Stories.FailedCreateLeaves` is the statement about whole frames. |
| `Creations.UndoLeavesFirstValue` | smartReco_dynamic_analysis/revm/crates/revm/src/journaled_state.rs:384-395 | Undoing leaves each slot the value its first change in the journal found, and does not touch its original value. |
| `Stories.RunOpsStory` | smartReco_dynamic_analysis/revm/crates/revm/src/evm_impl.rs:281-556 | Over every tree of operations, calls and creates, failed frames included: an account with a nonzero nonce or with code is never marked created nor deployed to; any other carries the flag exactly if a creation got past the collision test on it, its slots keep their original values exactly unless so zeroed and can be undone to their present ones exactly unless zeroed before they were first written, and its code hash stays unless other code was deployed to it, from Spurious Dragon on exactly unless. |
| `Stories.FailedCallLeaves` | smartReco_dynamic_analysis/revm/crates/revm/src/journaled_state.rs:419-433 | What a failed call frame leaves of an account: all of hash, slots and flag if the collision test would refuse it; otherwise its flag exactly if no creation in the frame reached it, each slot with original value zero exactly if one did and present value zero exactly if one did before the frame first wrote the slot, and its code hash if no other code was deployed to it, from Spurious Dragon on exactly then. |
| `Stories.FailedCreateLeaves` | smartReco_dynamic_analysis/revm/crates/revm/src/journaled_state.rs:419-433 | The same for a failed create frame, its own creation included. |
| `GasMeter.MeterStep` | smartReco_dynamic_analysis/revm/crates/interpreter/src/gas.rs:47-84 | One operation keeps the meter balanced and within its limit, and adds what was accepted. |
| `GasMeter.MeterOfRun` | smartReco_dynamic_analysis/revm/crates/interpreter/src/gas.rs:47-84 | On every run that never returns more than was used, used gas is accepted costs minus returns, memory is the largest accepted charge, and the remaining gas is the limit minus both. |
| `GasMeter.RefusedCharge` | smartReco_dynamic_analysis/revm/crates/interpreter/src/gas.rs:62-84 | A charge is refused exactly when it does not fit, and then changes nothing. |
| `GasMeter.EraseKeepsBalance` | smartReco_dynamic_analysis/revm/crates/interpreter/src/gas.rs:51-54 | Returning gas keeps the meter balanced exactly up to the used gas, or past a whole wrap-around. |
| `GasMeter.RefundOfRun` | smartReco_dynamic_analysis/revm/crates/interpreter/src/gas.rs:56-58 | On every run the refund counter is the sum of the refunds modulo 2^64, and exact when the sum fits, whatever it wrapped through. |
| `GasMeter.Gas.ChargeCost` | smartReco_dynamic_analysis/revm/crates/interpreter/src/gas.rs:60-71 | The object's charge is `RecordCost` and keeps the balance. |
| `GasMeter.Gas.ChargeMemory` | smartReco_dynamic_analysis/revm/crates/interpreter/src/gas.rs:73-84 | The object's memory charge is `RecordMemory` and keeps the balance. |
| `GasMeter.Gas.RecordEraseCost` | smartReco_dynamic_analysis/revm/crates/interpreter/src/gas.rs:51-54 | The object's return is `EraseCost`. |
| `GasMeter.Gas.AddRefund` | smartReco_dynamic_analysis/revm/crates/interpreter/src/gas.rs:56-58 | The object's refund is `RecordRefund`. |
| `EvmRuns.RunOpsTracked` | smartReco_dynamic_analysis/revm/crates/revm/src/evm_impl.rs:501-556 | Every finite tree of host operations, calls and creates nested to any depth, runs without a panic, is tracked, and ends at the depth it began at. |
| `EvmRuns.CallFrameTracked` | smartReco_dynamic_analysis/revm/crates/revm/src/evm_impl.rs:514-555 | A call frame is one tracked operation, and restores what it found when it does not succeed. |
| `EvmRuns.CallInnerTracked` | smartReco_dynamic_analysis/revm/crates/revm/src/evm_impl.rs:502-556 | A call that does not succeed leaves what it found, the callee's account warmed, on every exit path. |
| `EvmRuns.CreateFrameTracked` | smartReco_dynamic_analysis/revm/crates/revm/src/evm_impl.rs:334-431 | A create frame is one tracked operation, and restores what it found when it does not succeed. |
| `EvmRuns.CreateInnerTracked` | smartReco_dynamic_analysis/revm/crates/revm/src/evm_impl.rs:281-432 | A create that does not succeed leaves what its checks left: the caller loaded, touched and its nonce counted, the new address warmed. |
| `Payments.PayPays` | smartReco_dynamic_analysis/revm/crates/revm/src/journaled_state.rs:200-224 | A payment goes through exactly if the payer holds it; then the payer has that much less and the payee that much more, and all other balances, loaded or not, are what they were; refused, it moves none. |
| `Payments.TransferPays` | smartReco_dynamic_analysis/revm/crates/revm/src/journaled_state.rs:186-227 | The same with the loads before it: a transfer fails fatally exactly if a party cannot be read, with OutOfFund exactly if the payer holds too little. |
| `Payments.EnterCallPays` | smartReco_dynamic_analysis/revm/crates/revm/src/evm_impl.rs:514-530 | The entry of a call has its source pay its target, exactly under those conditions; otherwise no balance changes. |
| `Payments.IdleCallPays` | smartReco_dynamic_analysis/revm/crates/revm/src/evm_impl.rs:468-556 | A whole call whose callee performs nothing (a precompile, an address without code, code that does nothing), on every exit path: refused exactly for what cannot be read, the depth or the source's balance, and ended as its callee if not, with its gas and data; the source has paid the target if it ended well, and nobody has paid otherwise. |
| `Payments.CodelessCallPays` | smartReco_dynamic_analysis/revm/crates/revm/src/evm_impl.rs:502-556 | A call of an address without code stops exactly if it is not refused, uses no gas, and then its source has paid its target. |
| `Payments.CallOpcodePays` | smartReco_dynamic_analysis/revm/crates/interpreter/src/instructions/host.rs:408-450 | A CALL opcode to an address without code pays from the executing contract to that address, or nothing if refused; CALLCODE, DELEGATECALL and STATICCALL move no balance. |
| `Payments.PrepareCounts` | smartReco_dynamic_analysis/revm/crates/revm/src/evm_impl.rs:281-342 | The checks of a create: how they end, by depth, caller, balance, nonce and created account; they move no balance, and the caller's nonce is one more, its account touched and the created one loaded, unless they end before counting it. |
| `Payments.FailedCreateCounts` | smartReco_dynamic_analysis/revm/crates/revm/src/evm_impl.rs:281-432 | A create that does not succeed has counted its caller's nonce all the same, and moved no balance. |
| `Payments.CreateAccountPays` | smartReco_dynamic_analysis/revm/crates/revm/src/journaled_state.rs:242-304 | Creating an account collides exactly if it has a nonce or code or is a precompile; otherwise the creator pays it the endowment, and it is marked, touched, without code, with zero slots and its first nonce, and no third account changes. |
| `Payments.DeploymentAnswers` | smartReco_dynamic_analysis/revm/crates/revm/src/evm_impl.rs:358-431 | The verdict on init code that ended well: refused exactly for a leading 0xEF from London on, for its size from Spurious Dragon on, or from Homestead on for a deposit that cannot be paid; the deposit is taken exactly if it can be paid, and code not paid for is left out. |
| `Payments.IdleCreatePays` | smartReco_dynamic_analysis/revm/crates/revm/src/evm_impl.rs:281-432 | A whole create whose init code performs nothing, on every exit path: how it ends, with which gas and data, whether the nonce is counted, and that the caller has paid the created account, which holds the code under its hash and its first nonce, exactly if the frame was entered and ended well. |
| `Payments.CreateOpcodePays` | smartReco_dynamic_analysis/revm/crates/revm/src/evm_impl.rs:676-695 | The CREATE opcode: the executing contract is the one that pays and whose nonce is counted. |
| `Payments.PlainOpLogs` | smartReco_dynamic_analysis/revm/crates/revm/src/evm_impl.rs:653-663 | Of the operations that open no frame only a log adds to the logs, at their end. |
| `Owners.EnterCallKeepsSlots` | smartReco_dynamic_analysis/revm/crates/revm/src/evm_impl.rs:514-530 | Entering a call changes no slot of any account. |
| `Owners.WritesItsOwner` | smartReco_dynamic_analysis/revm/crates/interpreter/src/instructions/host.rs:408-428 | A callee that writes a slot writes its caller's storage if called by CALLCODE or DELEGATECALL, and its own if not; every other slot of every account is what it was, loaded or not. |
| `Owners.InitWritesItsOwner` | smartReco_dynamic_analysis/revm/crates/revm/src/evm_impl.rs:334-431 | Init code that writes a slot writes the created account's storage, all other slots of which are zero whatever the database holds; no slot of any other account changes. |
| `EvmRuns.EnoughForCreate` | smartReco_dynamic_analysis/revm/crates/revm/src/evm_impl.rs:292-300 | The caller's check still covers the endowment when the account is created. |
| `EvmImpls.EvmImpl.constructor` | smartReco_dynamic_analysis/revm/crates/revm/src/evm_impl.rs:202-224 | The journaled state starts empty under the rules of the specification. |
| `EvmImpls.EvmImpl.RunInterpreter` | smartReco_dynamic_analysis/revm/crates/revm/src/evm_impl.rs:436-465 | Running a frame's operations in place gives `RunOps`, entered with a depth of at most the call stack limit plus one, and fills the error slot exactly if some operation in it meets a database error. |
| `EvmImpls.EvmImpl.CallInner` | smartReco_dynamic_analysis/revm/crates/revm/src/evm_impl.rs:502-556 | The in-place call gives the outcome and the new state of `Evm.CallInner` and fills the error slot exactly when `CallRecords` says; its commits and reverts never panic. |
| `EvmImpls.EvmImpl.CallFrame` | smartReco_dynamic_analysis/revm/crates/revm/src/evm_impl.rs:514-555 | The same from the checkpoint on, at a depth within the limit. |
| `EvmImpls.EvmImpl.CreateInner` | smartReco_dynamic_analysis/revm/crates/revm/src/evm_impl.rs:281-432 | The in-place create gives the outcome, the new state and the error slot likewise. |
| `EvmImpls.EvmImpl.CreateFrame` | smartReco_dynamic_analysis/revm/crates/revm/src/evm_impl.rs:334-431 | The same from the checkpoint on. |
| `EvmImpls.EvmImpl.FinishCreate` | smartReco_dynamic_analysis/revm/crates/revm/src/evm_impl.rs:358-431 | The verdict on the deployed code, the end of the frame and the deployment. |
| `EvmImpls.EvmImpl.LoadList` | smartReco_dynamic_analysis/revm/crates/revm/src/evm_impl.rs:48-56 | The loop over the access list ends in `LoadAccessList`. |
| `EvmImpls.EvmImpl.PreloadAccounts` | smartReco_dynamic_analysis/revm/crates/revm/src/evm_impl.rs:82-98 | Coinbase, access list and caller are loaded in order and the caller is validated. |
| `EvmImpls.EvmImpl.Charge` | smartReco_dynamic_analysis/revm/crates/revm/src/evm_impl.rs:100-118 | The prepayment, the touch and the nonce of a call. |
| `EvmImpls.EvmImpl.SettleFees` | smartReco_dynamic_analysis/revm/crates/revm/src/evm_impl.rs:229-275 | What `finalize` pays and returns, in a build with gas measuring and in one without; it panics exactly if the coinbase cannot be read while paying. |
| `EvmImpls.EvmImpl.TakeState` | smartReco_dynamic_analysis/revm/crates/revm/src/evm_impl.rs:276-277 | The state and the logs are handed out, and the journaled state is emptied. |
| `EvmImpls.EvmImpl.Transact` | smartReco_dynamic_analysis/revm/crates/revm/src/evm_impl.rs:62-198 | The in-place transaction gives `Transaction.Transact`, its panics included, for every callee, and leaves an emptied journaled state when it is done. |
| `DatabaseErrors.FailedRunRecords` | smartReco_dynamic_analysis/revm/crates/revm/src/evm_impl.rs:570-680 | A run whose last operation failed in the database, or whose last call ended fatally, has filled the error slot, by induction over all nested frames. |
| `DatabaseErrors.FatalCallIsRecorded` | smartReco_dynamic_analysis/revm/crates/revm/src/evm_impl.rs:501-532 | A call of any scheme that ends fatally has filled the error slot, if every interpreter in it ends fatally only after its last operation failed. |
| `DatabaseErrors.FatalCreateIsRecorded` | smartReco_dynamic_analysis/revm/crates/revm/src/evm_impl.rs:281-342 | The same for a create. |
| `Ether.CallMetered` | smartReco_dynamic_analysis/revm/crates/revm/src/evm_impl.rs:502-556 | A call returns a balanced meter with the gas limit of its inputs. |
| `Ether.CreateMetered` | smartReco_dynamic_analysis/revm/crates/revm/src/evm_impl.rs:281-432 | A create returns a balanced meter with the gas limit of its inputs. |
| `Ether.ChargeCallerSupply` | smartReco_dynamic_analysis/revm/crates/primitives/src/env.rs:336-348 | For a validated caller the prepayment neither saturates nor exceeds the balance. |
| `Ether.MaxRefundBound` | smartReco_dynamic_analysis/revm/crates/revm/src/evm_impl.rs:233-239 | The refund is at most a fifth of the gas spent, half before London. |
| `Ether.FeeSplit` | smartReco_dynamic_analysis/revm/crates/revm/src/evm_impl.rs:241-264 | Reimbursement, reward and base fee make up the prepayment. |
| `Fees.AcceptedExactly` | smartReco_dynamic_analysis/revm/crates/revm/src/evm_impl.rs:62-98 | A transaction reaches its frame if and only if it is well formed, coinbase, access list and sender can be read, and the sender has no code, the right nonce and means for all gas and the value, all said of what the database holds. |
| `Fees.WellFormedIs` | smartReco_dynamic_analysis/revm/crates/primitives/src/env.rs:266-311 | The checks of the transaction by itself pass exactly if it is well formed, and an error names a condition that fails. |
| `Fees.CanSendIs` | smartReco_dynamic_analysis/revm/crates/primitives/src/env.rs:314-351 | The same for the sender: code, nonce, and means for all gas and the value. |
| `Fees.InitialLoadAnswers` | smartReco_dynamic_analysis/revm/crates/revm/src/journaled_state.rs:496-522 | An entry of the access list brings in its account with its slots at the database's values, unless the account is loaded already. |
| `Fees.EnteredPrepaid` | smartReco_dynamic_analysis/revm/crates/revm/src/evm_impl.rs:100-118 | The frame is entered with all balances as the database holds them, less price times gas limit at the caller, whose nonce is counted for a call; it still holds the value to be sent. |
| `Fees.SettledMeter` | smartReco_dynamic_analysis/revm/crates/revm/src/evm_impl.rs:153-170 | The settled meter holds what the frame left if it ended well or reverted, and its refunds if it ended well. |
| `Fees.PayFeesPays` | smartReco_dynamic_analysis/revm/crates/revm/src/evm_impl.rs:241-264 | Of the two payments the caller gets the first and the coinbase the second, also when they are one account; no other balance changes. |
| `Fees.FeesArePaid` | smartReco_dynamic_analysis/revm/crates/revm/src/evm_impl.rs:226-278 | A finished transaction: gas used and refunded make up what the frame did not leave, the refund being the frame's up to its quotient; the caller has price times unused gas more than the frame left it, the coinbase price less base fee times used gas, and nobody else anything. |
| `Fees.PaymentTransaction` | smartReco_dynamic_analysis/revm/crates/revm/src/evm_impl.rs:62-198 | A payment to an address without code, from the database to the result: it stops, uses its intrinsic gas, and payer, payee and coinbase differ by exactly value, price of that gas, and price less base fee of it. |
| `Fees.CreationTransaction` | smartReco_dynamic_analysis/revm/crates/revm/src/evm_impl.rs:62-198 | A creation by init code that performs nothing, from the database to the result: it ends as its checks, collision and verdict say, and sender, created account and coinbase differ by exactly the endowment, if made, and the price of the gas used. |
| `Ether.PayFeesSupply` | smartReco_dynamic_analysis/revm/crates/revm/src/evm_impl.rs:226-278 | The payments of `finalize` put exactly the prepayment minus the burnt base fee back, coinbase and caller the same account included. |
| `Ether.EtherConserved` | smartReco_dynamic_analysis/revm/crates/revm/src/evm_impl.rs:62-198 | Over a whole transaction the sum of all balances falls by exactly the base fee of the gas used from London on plus what selfdestructs into themselves destroyed, and gas used, refunded and remaining add up to the limit; in a build without gas measuring the whole prepayment is lost as well. |
| `Ether.TransactNeverPanics` | smartReco_dynamic_analysis/revm/crates/revm/src/evm_impl.rs:153-195 | An accepted transaction reaches its result if its interpreter does not stop while told to continue, its interpreters end fatally only after their last operation failed, and the coinbase can be read where it is paid. |
| `FuzzHosts.FuzzHost.Step` | smartReco_dynamic_analysis/src/evm/host.rs:839-873 | `step` reports a leak exactly for an SSTORE after a hit outside cross-DApp calls, and records both truncated operands of a comparison. |
| `FuzzHosts.FuzzHost.LoadSlot` | smartReco_dynamic_analysis/src/evm/host.rs:924-934 | The value read is recorded, truncated to 20 bytes. |
| `FuzzHosts.FuzzHost.StoreSlot` | smartReco_dynamic_analysis/src/evm/host.rs:936-956 | The storage is updated at one slot, its account made if missing. |
| `FuzzHosts.FuzzHost.FundCall` | smartReco_dynamic_analysis/src/evm/host.rs:652-659 | The transfer of a call, with the wrapping arithmetic of `send_balance`. |
| `FuzzHosts.FuzzHost.IsAddressFromInput` | smartReco_dynamic_analysis/src/evm/host.rs:505-528 | The loop over the recorded inputs decides `IsInputContainAddress`. |
| `FuzzHosts.FuzzHost.RunInspect` | smartReco_dynamic_analysis/src/evm/host.rs:402-422 | The interpreter loop over a program gives `RunProgram`. |
| `FuzzHosts.FuzzHost.CallHost` | smartReco_dynamic_analysis/src/evm/host.rs:1045-1081 | `call` in place gives `HostCall` on the object's value, and says whether the hit was written to the caller's interpreter. |
| `FuzzHosts.FuzzHost.DivideCallByIsSameDapp` | smartReco_dynamic_analysis/src/evm/host.rs:584-681 | Context, environment and records are saved, overwritten and written back around the callee, as `DivideCall` says. |
| `FuzzHosts.FuzzHost.CallForbidControlLeak` | smartReco_dynamic_analysis/src/evm/host.rs:683-691 | A call inside a DApp gives `SameDappCall`. |
| `FuzzHosts.FuzzHost.CallForbidControlLeakInDiffDapp` | smartReco_dynamic_analysis/src/evm/host.rs:693-801 | A cross-DApp call gives `CrossDappCall`, the flag it leaves set being reset by its caller. |
| `FuzzHosts.FuzzHost.ReplayVictim` | smartReco_dynamic_analysis/src/evm/host.rs:703-800 | The replay gives `Replay`: it runs in a context of its own and writes everything saved back. |
| `FuzzHosts.FuzzHost.ExecuteTransaction` | smartReco_dynamic_analysis/src/evm/vm.rs:270-365 | A target transaction gives `Execute`; it reports a leak exactly when its history holds one, and then the history holds the witness. |
| `Detector.HostCall` | smartReco_dynamic_analysis/src/evm/host.rs:1045-1081 | A call leaves depth, cross-DApp flag, call context, environment and taint records as it found them, and no call inside a cross-DApp call reports a leak. |
| `Detector.DivideCall` | smartReco_dynamic_analysis/src/evm/host.rs:584-681 | The same for the split by DApp; the recursion ends because a cross-DApp call is entered only outside one. |
| `Detector.Replay` | smartReco_dynamic_analysis/src/evm/host.rs:703-800 | A replay starts only inside a cross-DApp call, never reports a leak itself, and gives storage, context and depth back. |
| `Detections.ReplayHistory` | smartReco_dynamic_analysis/src/evm/host.rs:703-800 | A replay notes its start, hits of the target function of the origin only, and its end; the hit flag says whether there was one. |
| `Detections.CleanCross` | smartReco_dynamic_analysis/src/evm/host.rs:693-801 | A cross-DApp call keeps the invariant that every noted hit has its witness and that replays start right after the calls that call for one, after every one of them, and nowhere else. |
| `Detections.CrossIsDue` | smartReco_dynamic_analysis/src/evm/host.rs:693-703 | The events of a cross-DApp call: a replay starts after it if and only if it was from arguments, with a gas limit other than 2300, and its callee ended in Stop, Return or SelfDestruct. |
| `Detections.ReportedLeakHasWitness` | smartReco_dynamic_analysis/src/evm/host.rs:584-858 | A run ends in CrossContractControlLeak if and only if it noted a leaking store, and then an earlier cross-DApp call from arguments with a gas limit other than 2300 ended in Stop, Return or SelfDestruct and its replay called `origin` with the target selector; nothing cross-DApp starts after the first hit. |
| `Witnesses.HitIfCalled` | smartReco_dynamic_analysis/src/evm/host.rs:1053-1070 | In a replay the hit ends set if and only if it was set or a call of the target function of the origin was performed, at whatever depth. |
| `Witnesses.ReplayHits` | smartReco_dynamic_analysis/src/evm/host.rs:703-800 | A replay sets the hit if and only if the victim calls the target function. |
| `Witnesses.VictimStarts` | smartReco_dynamic_analysis/src/evm/host.rs:703-777 | A victim starts with its own sender, target, value, data and block, the call context of the callee, nothing stored or recorded, and reads slots and balances of its own block. |
| `Witnesses.HitStops` | smartReco_dynamic_analysis/src/evm/host.rs:1053-1070 | A frame that calls the target goes no further: it ends in ImplicitBugHit, or as fatally as its callee. |
| `Witnesses.LeakIfStored` | smartReco_dynamic_analysis/src/evm/host.rs:839-858 | Once the hit is set, a run outside cross-DApp calls ends in CrossContractControlLeak if and only if it performs a store, here or in a callee. |
| `Witnesses.CrossCallHits` | smartReco_dynamic_analysis/src/evm/host.rs:584-801 | A call that leaves the DApp notes its start, with its gas limit and whether its callee is the sender, the frame's caller, or chosen by an input and not checked since, and its callee's end, and sets the hit if and only if a replay is due and the victim calls the target; the run then goes on. |
| `Witnesses.WithinNotesNothing` | smartReco_dynamic_analysis/src/evm/host.rs:584-681 | A call that stays in the DApp by name, or by creator when a name is unknown, starts no cross-DApp call. |
| `Witnesses.CalleeFrame` | smartReco_dynamic_analysis/revm/crates/interpreter/src/instructions/host.rs:408-428 | The frame of a callee under each of the four call schemes. |
| `Witnesses.LeakIsReported` | smartReco_dynamic_analysis/src/evm/host.rs:584-858 | The converse of the witness: after a cross-DApp call from arguments whose replayed victim calls the target, the frame ends in CrossContractControlLeak if and only if what it has left to do performs a store. |
| `Witnesses.SlotReads` | smartReco_dynamic_analysis/src/evm/host.rs:924-956 | A slot reads as it was last stored, and as the block has it, the victim's or the current one, where nothing was stored. |
| `Witnesses.TransactionStarts` | smartReco_dynamic_analysis/src/evm/vm.rs:270-365 | A target transaction starts with its own sender, target, value and data, nothing hit and nothing stored; to an address without code it ends in Revert. |
| `Transparency.RecordsAreFrameLocal` | smartReco_dynamic_analysis/src/evm/host.rs:861-867 | At each step the records hold what was there plus exactly the truncations this frame compared or loaded, whatever nested calls and replays did. |
| `Transparency.CalleeRecords` | smartReco_dynamic_analysis/src/evm/host.rs:621-629 | In a callee they are exactly what it compared and loaded itself, and environment, call context and depth are those of its entry. |
| `Transparency.FundedExactly` | smartReco_dynamic_analysis/src/evm/host.rs:736-745 | The victim's own transfer, made before the balances are saved, leaves them as they were if and only if the victim sends nothing. |
| `Transparency.ReplayIsTransparent` | smartReco_dynamic_analysis/src/evm/host.rs:750-800 | A replay changes nothing but flags, what it noted, and the balances of the victim's transfer. |
| `Transparency.CrossCallResult` | smartReco_dynamic_analysis/src/evm/host.rs:693-801 | A cross-DApp call returns its callee's result and data if and only if it does not replay a victim without input; then it returns Continue and the victim's text. Storage is the callee's either way. |
| `Transparency.DetectorIsTransparent` | smartReco_dynamic_analysis/src/evm/host.rs:584-801 | Unless a leak is reported, a program, its actions given, stores, pays, results in and returns what it does on a machine that knows of no detector. |
| `Transparency.TransactionIsTransparent` | smartReco_dynamic_analysis/src/evm/vm.rs:270-365 | The same for a whole target transaction, its actions given. |
| `Observations.ObservationsAlike` | smartReco_dynamic_analysis/src/evm/host.rs:584-801 | Run with the detector and without, contracts see the same values, call results and return data if and only if every call within a DApp has code or no input to echo, no victim without input is replayed over other data, and no balance is read while the replays so far have moved it; up to a reported leak they see the beginning of it. |
| `Observations.TransactionSeenAlike` | smartReco_dynamic_analysis/src/evm/vm.rs:270-365 | The same for a whole target transaction. |
| `Observations.EchoSeen` | smartReco_dynamic_analysis/src/evm/host.rs:683-691 | A call of an address without code hands its caller the input back, where a plain call gives no data. |
| `Observations.VictimSeen` | smartReco_dynamic_analysis/src/evm/host.rs:736-745 | A replay shows in the balance of the account the victim pays if and only if the victim sends something. |
| `Ledgers.VictimMoves` | smartReco_dynamic_analysis/src/evm/host.rs:736-745 | What a replay adds, modulo 2^256, to the balance an address shows: the victim's ether at its payee, minus it at its payer, and where nobody asked before, the difference between the balance at the victim's block and now. |
| `Ledgers.CallSends` | smartReco_dynamic_analysis/src/evm/host.rs:652-659 | Who pays whom when a callee is entered: CALL takes its value from the frame's account and gives it to the callee's; a contract that pays itself gains the value, as its debit is overwritten. |
| `Ledgers.BalancesAreOff` | smartReco_dynamic_analysis/src/evm/host.rs:584-801 | Over every run that reports no leak, each address shows the balance of the plain run plus exactly what the replays added there. |
| `CallGraphs.GraphIsOutline` | smartReco_dynamic_analysis/src/evm/replay/replay_host.rs:393-435 | The graph grown by clone and swap is the bracket structure of the trace: a node per call of no precompile, in call order and at its depth, with the reads and writes of its own frame only. |
| `CallGraphs.TransactionGraph` | smartReco_dynamic_analysis/src/evm/replay/replay_host.rs:295-331 | The same for a whole transaction and its root. |
| `CallGraphs.RowsDetermineGraph` | smartReco_dynamic_analysis/src/evm/replay/replay_record.rs:57-77 | Two graphs with the same rows are the same graph, so the outline says all there is to say. |
| `CallGraphs.InvokesAreForeignRows` | smartReco_dynamic_analysis/src/evm/replay/replay_record.rs:126-140 | The invocation counts add up to the nodes below the root that are of another DApp. |
| `CallGraphs.InvokesAreCalls` | smartReco_dynamic_analysis/src/evm/replay/replay_record.rs:126-140 | Each key's count is the number of calls into other DApps of that contract, function and DApp name, contracts of unknown DApps told apart. |
| `CallGraphs.NodeOfCall` | smartReco_dynamic_analysis/src/evm/replay/replay_host.rs:393-435 | The node of a call names the contract, its DApp, the function, and whether it is of the replayed DApp. |
| `CallGraphs.ProxyIsRecorded` | smartReco_dynamic_analysis/src/evm/replay/replay_host.rs:405-411 | On every trace a call is recorded as a proxy's if and only if its selectors agree and the last DELEGATECALL stepped over before it has met no call since. |
| `CallGraphs.StaleMark` | smartReco_dynamic_analysis/src/evm/replay/replay_host.rs:316-321 | A DELEGATECALL that fails before `call` makes the caller's next plain call with its own selector a proxy's. |
| `ReplayHosts.ReplayFuzzHost.Step` | smartReco_dynamic_analysis/src/evm/replay/replay_host.rs:295-331 | `step` counts a read or write in the current node and marks DELEGATECALLs, also those that never get to `call`. |
| `ReplayHosts.ReplayFuzzHost.AddInvokeOf` | smartReco_dynamic_analysis/src/evm/replay/replay_record.rs:126-140 | One invocation more under the key of the callee. |
| `ReplayHosts.ReplayFuzzHost.NoteProxy` | smartReco_dynamic_analysis/src/evm/replay/replay_host.rs:405-411 | A marked call that passes its own selector on is recorded both ways, and the mark is cleared. |
| `ReplayHosts.ReplayFuzzHost.CallHost` | smartReco_dynamic_analysis/src/evm/replay/replay_host.rs:393-435 | `call` grows the current node by the callee's, records what its trace says, and restores depth, environment and call context. |
| `ReplayHosts.ReplayFuzzHost.CallNode` | smartReco_dynamic_analysis/src/evm/replay/replay_host.rs:417-428 | The swap of nodes hangs exactly the callee's grown node below the caller's. |
| `ReplayHosts.ReplayFuzzHost.ReplayCall` | smartReco_dynamic_analysis/src/evm/replay/replay_host.rs:208-274 | The callee runs in its own context, which is taken back. |
| `ReplayHosts.ReplayFuzzHost.RunInspect` | smartReco_dynamic_analysis/src/evm/replay/replay_host.rs:393-435 | The interpreter loop grows the node and the records by the whole trace. |
| `ReplayHosts.ReplayFuzzHost.ReplayTransaction` | smartReco_dynamic_analysis/src/evm/replay/replay_host.rs:393-435 | After a transaction the object holds the outline of the trace, and its counts add up to the foreign nodes. |
| `Dicts.SortedRanks` | smartReco_static_analysis/code/execute_with_transaction.py:253-255 | The sort by negated importance is a permutation in non-increasing importance that keeps the order of equals. |
| `Aggregation.WithGraphsAddsAmounts` | smartReco_static_analysis/code/execute_with_transaction.py:104-128 | Folding graphs adds to each cell the amounts of exactly their nodes of another known DApp, each once. |
| `Aggregation.CellsAreExact` | smartReco_static_analysis/code/execute_with_transaction.py:169-217 | Each cell of the record is the sum over the unpruned nodes that belong to it; the source raises if and only if a proxy's graph has no call. |
| `Aggregation.ScoresAreRanked` | smartReco_static_analysis/code/execute_with_transaction.py:219-251 | Importance is conserved from cells to functions, contracts and DApps, and every list is a ranked permutation. |
| `Aggregation.ScoresTotal` | smartReco_static_analysis/code/execute_with_transaction.py:169-251 | All scores together are the reads, writes and invocations of the nodes that count. |
| `Aggregators.ImportanceRecord.MakeContracts` | smartReco_static_analysis/code/execute_with_transaction.py:113-121 | A DApp's dictionary is made on first use, unless the DApp is unknown. |
| `Aggregators.ImportanceRecord.AddNode` | smartReco_static_analysis/code/execute_with_transaction.py:111-127 | One node's amount is added in place where it belongs, the missing dictionaries made. |
| `Aggregators.ImportanceRecord.OrganizeInOrder` | smartReco_static_analysis/code/execute_with_transaction.py:104-128 | The recursive walk in place gives `WithGraphs`. |
| `Aggregators.ImportanceRecord.OrganizeLeaf` | smartReco_static_analysis/code/execute_with_transaction.py:176-178 | A leaf is walked once per operation. |
| `Aggregators.ImportanceRecord.FilterIgnoreContract` | smartReco_static_analysis/code/execute_with_transaction.py:169-217 | The walk over the root's calls in place gives `FilterIgnore`. |
| `Aggregators.ImportanceRecord.SortWithImportance` | smartReco_static_analysis/code/execute_with_transaction.py:219-251 | The nested loops give ranked lists whose scores add up at every level to the total of the record. |
| `Aggregators.ImportanceRecord.SortContracts` | smartReco_static_analysis/code/execute_with_transaction.py:224-244 | The same for the contracts of a DApp. |
| `Aggregators.ImportanceRecord.SortFunctions` | smartReco_static_analysis/code/execute_with_transaction.py:227-238 | The same for the functions of a contract, adding to both sums above. |
| `Abi.EncodeLength` | smartReco_dynamic_analysis/src/evm/abi.rs:668-727 | `get_bytes` is longer than the standard encoding by one word per static component that encodes to nothing. |
| `Abi.EncodeIsStandard` | smartReco_dynamic_analysis/src/evm/abi.rs:668-727 | `get_bytes` equals the head and tail definition if and only if no static component encodes to nothing. |
| `Abi.SpuriousExample` | smartReco_dynamic_analysis/src/evm/abi.rs:697-702 | A tuple of the empty value, for which an offset word is written. |
| `Abi.WholeWords` | smartReco_dynamic_analysis/src/evm/abi.rs:606-620 | Every encoding is a multiple of 32 bytes long. |
| `AbiReader.DecodeInverts` | smartReco_dynamic_analysis/src/evm/abi.rs:668-727 | A reader that follows offsets and lengths recovers every value from its standard encoding, whatever bytes follow. |
| `AbiReader.EncodeIsDecodable` | smartReco_dynamic_analysis/src/evm/abi.rs:668-727 | What `get_bytes` writes can be read back from the type alone. |
| `AbiReader.EncodeIsInjective` | smartReco_dynamic_analysis/src/evm/abi.rs:668-727 | Values of one type with equal bytes have equal words and strings. |
| `AbiCodecs.SetSize` | smartReco_dynamic_analysis/src/evm/abi.rs:48-56 | The loop writes the size big-endian into the first 32 bytes and nothing else. |
| `AbiCodecs.GetSizeWord` | smartReco_dynamic_analysis/src/evm/abi.rs:58-65 | The loop reads the word modulo 2^64, and inverts `SetSize` below that. |
| `AbiCodecs.GetBytesOfWord` | smartReco_dynamic_analysis/src/evm/abi.rs:538-550 | The loop pads on the left. |
| `AbiCodecs.GetBytesOfDynamic` | smartReco_dynamic_analysis/src/evm/abi.rs:606-620 | The loop writes size, data and padding. |
| `AbiCodecs.SplitItems` | smartReco_dynamic_analysis/src/evm/abi.rs:676-687 | The first loop sorts components into heads and tails and adds up the head size. |
| `AbiCodecs.TailOffsets` | smartReco_dynamic_analysis/src/evm/abi.rs:688-696 | The second loop gives each tail's offset behind the heads. |
| `AbiCodecs.FinishHeads` | smartReco_dynamic_analysis/src/evm/abi.rs:697-706 | The third loop writes an offset word for every empty head. |
| `AbiCodecs.GetBytesOfArray` | smartReco_dynamic_analysis/src/evm/abi.rs:668-727 | The array's buffer is `Encode` of it. |
| `AbiCodecs.GetBytes` | smartReco_dynamic_analysis/src/evm/abi.rs:191-194 | The buffer of any nested value is `Encode`, and the standard encoding where the two agree. |
| `AbiCodecs.ReadTailStarts` | smartReco_dynamic_analysis/src/evm/abi.rs:760-774 | The first loop reads one offset word per dynamic component, next to each other. |
| `AbiCodecs.SetOneItem` | smartReco_dynamic_analysis/src/evm/abi.rs:775-796 | One round of the second loop, its panics included. |
| `AbiCodecs.SetBytesOfItems` | smartReco_dynamic_analysis/src/evm/abi.rs:775-796 | The second loop sets each component from its own slice: static ones in a row, dynamic ones where the offsets read before point, with the source's wrapping differences. |
| `AbiCodecs.SetBytesOf` | smartReco_dynamic_analysis/src/evm/abi.rs:746-797 | `set_bytes` of any value gives `SetBytes`, its panics included. |
| `AbiCodecs.GetSizeIsLength` | smartReco_dynamic_analysis/src/evm/abi.rs:799-806 | For static values `get_size` is the encoded length if and only if no component encodes to nothing. |
| `AbiCodecs.StaticRoundTrip` | smartReco_dynamic_analysis/src/evm/abi.rs:746-797 | Bytes set into a static value are got back if and only if they have the size `get_size` names. |
| `AbiCodecs.ListSetThenGet` | smartReco_dynamic_analysis/src/evm/abi.rs:746-797 | Bytes set into a dynamic array of static components come back when they carry its length and size. |
| `AbiCodecs.EncodingComesBack` | smartReco_dynamic_analysis/src/evm/abi.rs:746-797 | The bytes written for a value of one's own shape, set and got again, are the same if and only if there is no bytes or string component, for every nesting of arrays that do not mix static and dynamic components. |
| `AbiCodecs.PairComesBack` | smartReco_dynamic_analysis/src/evm/abi.rs:775-797 | A word behind a dynamic component gets the offset word instead, so the encoding of such a pair comes back if and only if that word is 64 and the dynamic component holds no bytes or string. |
| `AbiCodecs.DynamicNeverComesBack` | smartReco_dynamic_analysis/src/evm/abi.rs:634-636 | A string's encoding never does: the size word is taken for data. |
| `TypeNames.SplitWithParenthesis` | smartReco_dynamic_analysis/src/evm/abi.rs:880-899 | The loop gives `Split`, and joining with commas gives the string back. |
| `TypeNames.SplitInvertsJoin` | smartReco_dynamic_analysis/src/evm/abi.rs:880-899 | Splitting inverts joining if and only if the pieces are balanced and end at depth zero. |
| `TypeNames.ParseInvertsPrint` | smartReco_dynamic_analysis/src/evm/abi.rs:901-955 | A printed type, nested to any depth, parses to the default value of exactly its shape. |
| `TypeNames.UintParses` | smartReco_dynamic_analysis/src/evm/abi.rs:1087-1150 | The branch for `uintN`. |
| `TypeNames.IntParses` | smartReco_dynamic_analysis/src/evm/abi.rs:1087-1150 | The branch for `intN`. |
| `TypeNames.FixedBytesParses` | smartReco_dynamic_analysis/src/evm/abi.rs:1087-1150 | The branch for `bytesN`. |
| `TypeNames.PlainParses` | smartReco_dynamic_analysis/src/evm/abi.rs:1087-1150 | The branches for address, bool, bytes and string. |
| `TypeNames.ArrayName` | smartReco_dynamic_analysis/src/evm/abi.rs:901-955 | A fixed array parses to that many copies of its element, and fails when its element does. |
| `TypeNames.ProcessIsPrint` | smartReco_dynamic_analysis/src/evm/contract_utils.rs:83-104 | A JSON description is printed as its type, except that it panics exactly for fixed arrays of tuples. |
| `TypeNames.JsonToValue` | smartReco_dynamic_analysis/src/evm/contract_utils.rs:83-104 | What `process_input` prints, `get_abi_type` parses. |
| `Modexp.ReadBig` | smartReco_dynamic_analysis/revm/crates/precompile/src/modexp.rs:111-117 | A field is read as if the input went on with zero bytes. |
| `Modexp.ReadU64WithOverflow` | smartReco_dynamic_analysis/revm/crates/precompile/src/modexp.rs:49-64 | The flag is set exactly when the 32-byte length is at least u32::MAX; otherwise the value is the length. |
| `Modexp.ReadExpHighp` | smartReco_dynamic_analysis/revm/crates/precompile/src/modexp.rs:96-104 | The leading exponent bytes, right-aligned, of the extended input. |
| `Modexp.CalculateIterationCount` | smartReco_dynamic_analysis/revm/crates/precompile/src/modexp.rs:35-47 | The count is at least the bit length of the exponent minus one, and equals the larger of that and one if and only if not both the exponent is longer than 32 bytes and its first 32 are zero. |
| `Modexp.ByzantiumGasCalc` | smartReco_dynamic_analysis/revm/crates/precompile/src/modexp.rs:146-173 | A cost that is not capped covers multiplication complexity times the exponent's bits at the rate of 20. |
| `Modexp.BerlinGasCalc` | smartReco_dynamic_analysis/revm/crates/precompile/src/modexp.rs:175-195 | The same for the square of the word count at the rate of 3. |
| `Modexp.ReadPower` | smartReco_dynamic_analysis/revm/crates/precompile/src/modexp.rs:111-127 | The power of the three numbers of the extended input. |
| `Modexp.WriteResult` | smartReco_dynamic_analysis/revm/crates/precompile/src/modexp.rs:130-143 | The output has exactly the modulus length; too many bytes happen only for length zero. |
| `Modexp.RunInner` | smartReco_dynamic_analysis/revm/crates/precompile/src/modexp.rs:66-144 | The whole precompile gives `Modexp`; its second overflow error cannot happen. |
| `Modexp.OutputIsPower` | smartReco_dynamic_analysis/revm/crates/precompile/src/modexp.rs:66-144 | On success the output has the modulus length and writes base^exponent mod modulus, zero for modulus 0 and 1. |
| `Modexp.CostIsExact` | smartReco_dynamic_analysis/revm/crates/precompile/src/modexp.rs:146-195 | Twenty units of work cost one unit of gas before Berlin, three from then on with a floor of 200; a cost that does not fit is the largest u64. |
| `Modexp.EndsAs` | smartReco_dynamic_analysis/revm/crates/precompile/src/modexp.rs:66-144 | Which error is returned exactly when, and that what is charged is at most the gas limit unless there is nothing to do. |
| `Modexp.IterationsCoverExponent` | smartReco_dynamic_analysis/revm/crates/precompile/src/modexp.rs:35-47 | The count is at least the bit length minus one, and equals the larger of that and one if and only if not both the exponent is longer than 32 bytes and its first 32 are zero. |
| `Modexp.ComplexityMonotone` | smartReco_dynamic_analysis/revm/crates/precompile/src/modexp.rs:148-159 | The three pieces of the Byzantium complexity make one monotone function. |
| `Modexp.GasArithmeticFits` | smartReco_dynamic_analysis/revm/crates/precompile/src/modexp.rs:146-195 | No 64-bit or 256-bit step of either gas formula leaves its range: squares, quotients, sums and differences of both complexities and of the iteration count, and the products. |
| `Sweeps.DecodeInstructions` | smartReco_dynamic_analysis/src/evm/srcmap/parser.rs:157-191 | The k-th instruction start, and nothing else, is mapped to the k-th entry. |
| `Sweeps.FindConstants` | smartReco_dynamic_analysis/src/evm/bytecode_analyzer.rs:12-71 | Exactly the complete immediates of two or more bytes not followed by JUMPI, with all indexing in bounds. |
| `Sweeps.ExtractSignatures` | smartReco_dynamic_analysis/src/evm/contract_utils.rs:406-441 | The signatures of the instruction starts up to the first PUSH4 too close to the end. |
| `Sweeps.SignaturesAreDispatched` | smartReco_dynamic_analysis/src/evm/contract_utils.rs:406-441 | Each is the complete immediate of a PUSH4 compared by EQ or XOR, and all of them are found if none is too close to the end. |
| `SourceMaps.UncompressSrcmapSingle` | smartReco_dynamic_analysis/src/evm/srcmap/parser.rs:105-155 | The loop gives `Uncompress`, its panics included. |
| `SourceMaps.UncompressInverts` | smartReco_dynamic_analysis/src/evm/srcmap/parser.rs:105-155 | Uncompressing gives back every list of mappings, however fields equal to the previous entry's were left out. |

## Left out

- Opcode semantics, the stack and memory of an interpreter, bytecode analysis
  and the intrinsic gas of a transaction: they are parameters, or arbitrary
  finite trees of host operations.
- The interpreter's branch of `call_inner` runs in the model although `code`
  returns empty bytecode in this fork and so never reaches it; the model covers
  callees with and without code.
- The switches that turn off single transaction checks (balance, base fee, block
  gas limit, EIP-3607, refunds): the checks are on.
- Addresses of created contracts are parameters; their derivation by Keccak is
  not modelled. The inspector calls are left out.
- Snapshots.JournalRefinesSnapshots: for runs without creates, because creations
  leave unjournaled traces; for runs with creates `EvmRuns.RunOpsTracked` says
  what is restored and `Stories` what becomes of the rest.
- Reports.ReportsAlike: 0x03 is taken to be a precompile after Spurious Dragon, as
  it is under every specification; `Reports.SameColdFlag` is exact without that.
- Frames.RevertedFrame: of accounts with the Created flag the code hash, and with
  nonce 0 the slot values, are outside the restored view; `Stories` covers them.
- Stories.FailedCallLeaves: before Spurious Dragon an account can be deployed to
  twice in one creation, and a kept code hash is then claimed in one direction.
- Ether.EtherConserved: the callee's meter is taken to balance with the limit it
  was started with, which `GasMeter.MeterOfRun` proves of every run that never
  returns more gas than was used.
- Payments.IdleCallPays: for callees that perform operations of their own,
  `Payments.EnterCallPays` says what the value does before they start and
  `EvmRuns.CallFrameTracked` that all of it is given back if they fail.
- Owners.WritesItsOwner: that a STATICCALL's interpreter refuses to store belongs
  to opcode semantics.
- FuzzHosts.FuzzHost.ExecuteTransaction: of the host's state the call count, the
  next slot, logs, randomness and middlewares are left out; slots and balances
  a middleware would fetch are fixed functions of the chain.
- CREATE in the detector and in replay, whose host does not save or record
  anything around it.
- ReplayHosts.ReplayFuzzHost.ReplayTransaction: storage and balances of a replay
  are not modelled; its graph and counts do not depend on them once the actions
  are given.
- Aggregation.CellsAreExact: Slither, Etherscan and the file caches are the
  predicate `ownerOnly` on a node; `organize_in_order`, `unique_dapp_information`
  and the writing of files are left out.
- Dicts.SortedRanks: the sort is the stable sort the library promises, not its
  algorithm.
- AbiCodecs.SetBytesOf: works on values and not in place; usize differences wrap,
  as in a release build.
- AbiCodecs.EncodingComesBack: for arrays that mix static and dynamic components
  only pairs of a dynamic one and a word are decided (`AbiCodecs.PairComesBack`);
  in others the bytes come back when misread words happen to be right.
- AbiCodecs.SplitItems: the buffers of components are byte sequences; the
  array's own buffer is an array.
- TypeNames.ParseInvertsPrint: type strings are sequences of characters, so the
  byte offsets of strings that are not ASCII are not modelled.
- TypeNames.SplitWithParenthesis: the depth is unbounded, where the source has
  an i32.
- SourceMaps.UncompressInverts: the first entry must be written out, because the
  source replaces an incomplete first entry by a default location.
- Modexp.RunInner: big integers are mathematical ones.
- HTTP, RPC, caches, command line and printing; random mutation and sampling;
  the heuristics of the decompiler.
