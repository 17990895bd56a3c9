# svm-zk-rollup, modelled in Dafny

A model of the core of a small zk-rollup prototype:

- the **executor**, an off-chain ledger. It is a map from account name to `u64` balance, seeded with alice 100 and bob 50. It reads transfers `sender receiver amount` from the command line, applies each one that the sender can pay for, and saves the map to `state.json` after every successful transfer.
- the **transfer circuit**. It is a rank-1 constraint system over the BLS12-381 scalar field. The two old balances and the amount are private witnesses, the two new balances are public inputs, and two constraints tie them together. The model also covers the witness the prover builds and the public inputs the verifier recomputes.
- the **rollup batch state**. It is a Merkle tree over the SHA-256 digests of a batch's transaction strings, rebuilt from scratch for every batch.
- the **on-chain program**. It checks a proof and then overwrites the Borsh-encoded state account with the proof bytes.

Modules follow the source files:

| module | file |
|---|---|
| `Base` | shared `u64` and `byte` types, `Option`, `Result`, and `Exit` (a return or a panic) |
| `Ledger` | `executor/src/models/state.rs` |
| `Transactions` | `executor/src/models/transaction.rs` |
| `Executor` | `executor/src/executor/executor.rs` |
| `Cli` | `executor/src/main.rs` |
| `ZkProver` | `executor/src/zk_prover/zk_prover.rs` |
| `Utf8` and `RollupState` | `rollup-executor/src/state.rs` |
| `StateAccounts` | `program/src/state.rs` |
| `Processor` | `program/src/processor.rs` |

Where the source changes state in place, the model is imperative:

- `Ledger.State` has a `balances` field that `ApplyTransaction` updates.
- `Executor.Executor` holds the ledger and the contents of `state.json`.
- `ZkProver.ProvingSystem` is a constraint system that allocation and `enforce` extend.
- `RollupState.MerkleTreeState` holds the current tree.
- `StateAccounts.AccountInfo` holds the account's data buffer as an `array<byte>`, and `Save` writes into it.
- The command-line loop is a `for` loop, `Cli.Serve`.

Each of these methods is proved against a pure function: `Ledger.Transfer`, `Executor.Restored`, `Cli.Replay`, `ZkProver.Allocated` with `ZkProver.TransferConstraints`, `RollupState.Leaves`, `StateAccounts.SaveEffect` and `Processor.Outcome`. The lemmas about those functions state what the program promises.

External code is passed in as function-valued parameters or constants:

- SHA-256;
- the Merkle tree library's root computation;
- the groth16 pairing check;
- the sp1 proof verifier.

The `state.json` file is an `Option<JsonText>` (`None` when it does not exist), and whether writing it succeeds is the flag `writable`, fixed for the whole session. Standard input is a finite list of lines.

## Model

| member | source | states |
|---|---|---|
| Ledger.Genesis | executor/src/models/state.rs:16-22 | the genesis map has exactly the keys alice and bob, holding 100 and 50 |
| Ledger.State.New | executor/src/models/state.rs:16-22 | the two inserts build exactly the genesis map |
| Ledger.Transfer | executor/src/models/state.rs:24-35 | succeeds exactly when the sender's balance (0 if absent) covers the amount; a failure leaves the map unchanged; a success adds both names as keys, debits the sender and credits the receiver by the amount, leaves a self-transfer's balance unchanged, and leaves every other account alone |
| Ledger.State.ApplyTransaction | executor/src/models/state.rs:24-35 | the in-place update, with its `or_insert(0)` entries, gives the result and the map that `Transfer` gives on the old map |
| Ledger.TransferConserves | executor/src/models/state.rs:24-35 | a transfer, successful or not, keeps the sum of all balances |
| Ledger.ZeroTransferAddsKeys | executor/src/models/state.rs:31-32 | a zero-amount transfer always succeeds and inserts absent sender and receiver names at 0, changing no value |
| Ledger.GenesisScenario | executor/src/models/state.rs:16-35 | from genesis, alice sending bob 30 gives {alice: 70, bob: 80}; sending 1000 then fails and changes nothing |
| Transactions.New | executor/src/models/transaction.rs:11-17 | the record holds exactly the three arguments, with no validation |
| Transactions.NewInjective | executor/src/models/transaction.rs:11-17 | two records are equal exactly when their three arguments are |
| Executor.Serialize | executor/src/executor/executor.rs:23-26 | the JSON written for a map parses back to that map |
| Executor.Deserialize | executor/src/executor/executor.rs:28-30 | only a document with a `balances` field parses; the fallback text "{}" does not |
| Executor.ReadSnapshot | executor/src/executor/executor.rs:29 | reading the file, with a missing file read as the text "{}"; `Executor.Restored` states the balances this leads to |
| Executor.Restored | executor/src/executor/executor.rs:28-34 | a missing file or one that does not parse gives the genesis map; a parsed file gives its map |
| Executor.SnapshotRoundTrip | executor/src/executor/executor.rs:23-34 | saving a map and loading the file gives back the same map |
| Executor.Executor.constructor | executor/src/executor/executor.rs:8-10 | the global ledger starts as `State::new()` |
| Executor.Executor.SaveState | executor/src/executor/executor.rs:23-26 | a successful write stores the serialised map; a failed write panics with a message starting "Failed to save state" |
| Executor.Executor.ExecuteTransaction | executor/src/executor/executor.rs:12-21 | the held ledger becomes `Transfer` of the old one; only a success is saved; a success whose save fails panics; after a returned success the file restores exactly the in-memory map |
| Executor.Executor.LoadState | executor/src/executor/executor.rs:28-34 | the held ledger is replaced by a fresh one holding what the file restores |
| Cli.TrimIsSlice | executor/src/main.rs:16 | trimming returns a slice of the line with only white space before and after it |
| Cli.Trim | executor/src/main.rs:16 | the trimmed line neither starts nor ends with white space |
| Cli.TrimPadded | executor/src/main.rs:16 | white space of any length around a text is exactly what trimming removes |
| Cli.SplitWhitespace | executor/src/main.rs:22 | every token is non-empty and contains no white space |
| Cli.SplitLosesOnlyWhitespace | executor/src/main.rs:22 | the tokens, concatenated, are exactly the non-white-space characters of the line, in order |
| Cli.SplitThree | executor/src/main.rs:22-23 | three tokens separated and surrounded by any runs of white space split into exactly those three tokens |
| Cli.ParseU64 | executor/src/main.rs:30-36 | an accepted amount is an optional '+' followed by one or more digits, and its value is the value of those digits |
| Cli.ParseU64Accepts | executor/src/main.rs:30-36 | conversely, every optional '+' followed by digits of value below 2^64 is accepted with that value, leading zeros included |
| Cli.ParseU64RejectsMinus | executor/src/main.rs:30-36 | an amount starting with '-' is always rejected |
| Cli.ParseU64RejectsOverflow | executor/src/main.rs:30-36 | a digit string of value 2^64 or more is rejected |
| Cli.ParseU64Decimal | executor/src/main.rs:30-36 | every `u64`, written in decimal, parses back to itself |
| Cli.ParseLine | executor/src/main.rs:16-36 | the classification of one line: trim, "exit", three tokens, a `u64` amount; its four outcomes are stated by `Cli.ParseLineCases` |
| Cli.ParseLineCases | executor/src/main.rs:16-38 | a line is a quit exactly when it trims to "exit"; otherwise a format error exactly when it is not three tokens; otherwise an amount error exactly when the third token is not a `u64`; otherwise a transaction of the three tokens in order |
| Cli.ExitLine | executor/src/main.rs:16-20 | "exit" with any surrounding white space quits |
| Cli.WellFormedLine | executor/src/main.rs:16-38 | a padded line of sender, receiver and decimal amount submits exactly `Transaction::new` of them |
| Cli.LineStep | executor/src/main.rs:38-43 | one pass of the loop body for a parsed line; `Cli.StepReplies` and `Cli.StepConserves` state its replies, saves and balances, and `Cli.Execute` is proved equal to it |
| Cli.StepReplies | executor/src/main.rs:38-43 | a transfer line prints the success message exactly when the sender can pay, and only then is the file written; lines that are not transfers change nothing |
| Cli.StepConserves | executor/src/main.rs:38-43 | one line of input keeps the total supply |
| Cli.Replay | executor/src/main.rs:11-44 | a session prints at most one reply per input line |
| Cli.SessionConserves | executor/src/main.rs:11-44 | a whole session keeps the total supply |
| Cli.SessionDurable | executor/src/main.rs:11-44 | unless a save fails, the last map written in a session is the map it ends with, and a session that writes nothing keeps its starting balances |
| Cli.SessionLeavesRestorableFile | executor/src/main.rs:8-45 | unless a save fails, the file a session leaves restores exactly its final balances |
| Cli.ExhaustedRepliesToEveryLine | executor/src/main.rs:11-44 | a session that reads all of its input prints exactly one reply per line |
| Cli.SavedIffExecuted | executor/src/main.rs:11-44 | the file is written during a session exactly when some transfer succeeded |
| Cli.Execute | executor/src/main.rs:38-43 | one pass of the loop body changes the ledger, the file and the reply as the one-line step function says |
| Cli.Serve | executor/src/main.rs:11-44 | the read loop ends with the replies, the final balances, the last saved map and the exit (a normal return, or the save panic) that `Replay` gives |
| Cli.Run | executor/src/main.rs:8-45 | `main` loads the snapshot and then runs the loop from the balances the file restores; when no save panicked, the file it leaves restores exactly the final in-memory ledger |
| ZkProver.FromU64 | executor/src/zk_prover/zk_prover.rs:112-116 | a `u64` maps to the field element with the same value |
| ZkProver.FromU64Injective | executor/src/zk_prover/zk_prover.rs:112-116 | distinct `u64` values give distinct field elements |
| ZkProver.ProvingSystem.Alloc | executor/src/zk_prover/zk_prover.rs:36-44 | a present assignment is appended as the next private variable; a missing one is `AssignmentMissing`, and nothing changes |
| ZkProver.ProvingSystem.AllocInput | executor/src/zk_prover/zk_prover.rs:47-52 | a present assignment is appended as the next public input; a missing one is `AssignmentMissing`, and nothing changes |
| ZkProver.ProvingSystem.Enforce | executor/src/zk_prover/zk_prover.rs:55-68 | one constraint is appended and the assignment is unchanged |
| ZkProver.Allocated | executor/src/zk_prover/zk_prover.rs:36-52 | allocation stops at the first missing assignment, and everything before it is allocated |
| ZkProver.Synthesize | executor/src/zk_prover/zk_prover.rs:34-71 | the first three values present go to the private variables and the rest to the public inputs; synthesis succeeds exactly when all five are present; a failure is `AssignmentMissing` with no constraint added; a success adds exactly the two transfer constraints over the new variables |
| ZkProver.TransferConstraints | executor/src/zk_prover/zk_prover.rs:55-68 | the two constraints `synthesize` enforces, (sender - amount) * one = new sender and (receiver + amount) * one = new receiver; `ZkProver.ConstraintsIffRelation` states what they mean |
| ZkProver.TransferRelation | executor/src/zk_prover/zk_prover.rs:54-68 | the as-written statement of the circuit, two equalities modulo R with no range check; `ZkProver.ConstraintsIffRelation` proves it is what the constraints enforce and `ZkProver.RelationAdmitsOverdraft` that it admits overdrafts |
| ZkProver.ConstraintsIffRelation | executor/src/zk_prover/zk_prover.rs:55-68 | the two constraints hold exactly when new sender = sender - amount and new receiver = receiver + amount in the field |
| ZkProver.GenerateWitness | executor/src/zk_prover/zk_prover.rs:99-121 | the prover returns exactly when the sender can pay and the receiver does not overflow, and otherwise panics with the matching message; the witness holds the two old balances, the amount and the two new balances |
| ZkProver.WitnessIsComplete | executor/src/zk_prover/zk_prover.rs:111-117 | the prover's witness has all five assignments |
| ZkProver.WitnessSatisfiesConstraints | executor/src/zk_prover/zk_prover.rs:99-121 | the prover's witness satisfies both constraints |
| ZkProver.PublicInputs | executor/src/zk_prover/zk_prover.rs:132-141 | the verifier's public inputs are two values |
| ZkProver.PublicInputsMatchWitness | executor/src/zk_prover/zk_prover.rs:132-141 | the verifier panics exactly when the prover does, with the same message; otherwise its public inputs are the prover's public assignments, in allocation order |
| ZkProver.VerifyProof | executor/src/zk_prover/zk_prover.rs:125-147 | returns exactly when the balances allow the transfer; then the answer is true exactly when the pairing check accepts the two new balances |
| ZkProver.RelationAdmitsOverdraft | executor/src/zk_prover/zk_prover.rs:54-68 | the constraints as written accept every overdraft: a sender holding less than the amount "sends" it, with new balance sender - amount + R, which is no `u64` |
| ZkProver.RangeCheckedIffSufficient | executor/src/zk_prover/zk_prover.rs:54-68 | with all five values range-checked to `u64`, the relation holds, for any field elements, exactly for a real, non-overflowing transfer with the right new balances |
| ZkProver.WitnessIsRangeChecked | executor/src/zk_prover/zk_prover.rs:106-117 | the prover's witness meets the range-checked relation |
| Utf8.EncodeChar | rollup-executor/src/state.rs:19 | each character is one to four bytes; the length is announced by the lead byte and followed by continuation bytes |
| Utf8.DecodeEncode | rollup-executor/src/state.rs:19 | `as_bytes` loses nothing: decoding the bytes gives back the string |
| Utf8.EncodeInjective | rollup-executor/src/state.rs:19 | distinct strings have distinct bytes |
| Utf8.EncodeAscii | rollup-executor/src/state.rs:19 | ASCII text is encoded as one byte per character, each equal to the character |
| RollupState.EmptyLeaves | rollup-executor/src/state.rs:11 | the initial tree has four all-zero leaves |
| RollupState.Leaves | rollup-executor/src/state.rs:17-20 | one leaf per transaction, in order, each the SHA-256 digest of the transaction's UTF-8 bytes |
| RollupState.LeavesAppend | rollup-executor/src/state.rs:17-20 | the leaves of two batches joined are the two leaf lists joined |
| RollupState.LeavesPrefix | rollup-executor/src/state.rs:17-20 | batches that agree on a prefix get the same leaves on that prefix |
| RollupState.FromLeaves | rollup-executor/src/state.rs:12 | the tree keeps its leaves in order |
| RollupState.MerkleTreeState.New | rollup-executor/src/state.rs:10-14 | the state starts as the tree over the four zero leaves |
| RollupState.MerkleTreeState.UpdateState | rollup-executor/src/state.rs:16-24 | the old tree is replaced by the tree over the batch's leaves, and its root is returned |
| RollupState.UpdateTwice | rollup-executor/src/state.rs:16-24 | the new tree depends on the batch alone: updating twice with one batch returns the same root both times and leaves that batch's tree |
| StateAccounts.Le32 | program/src/state.rs:8-11 | a length below 2^32 is written as four little-endian bytes that read back to it |
| StateAccounts.Le32OfValue | program/src/state.rs:8-11 | every four bytes are the encoding of the value they spell |
| StateAccounts.Encode | program/src/state.rs:8-11 | the encoding is the length prefix and the bytes (4 + n bytes), and it decodes back to the account |
| StateAccounts.Decode | program/src/state.rs:14-17 | decoding succeeds exactly when the length prefix equals the number of bytes after it, giving those bytes; every failure is `InvalidAccountData` |
| StateAccounts.DecodeIsEncoding | program/src/state.rs:14-17 | a buffer that decodes is exactly the encoding of what it decodes to |
| StateAccounts.TrailingBytesRejected | program/src/state.rs:14-17 | an encoding followed by any further bytes does not decode |
| StateAccounts.Load | program/src/state.rs:14-17 | a successful load is the account whose encoding is the whole data buffer; a failure is `InvalidAccountData` |
| StateAccounts.SaveEffect | program/src/state.rs:19-23 | saving succeeds exactly when the length fits a `u32` and the encoding fits the buffer; it then writes the encoding at the front and keeps the rest; a too-long vector fails with nothing written; a too-small buffer is filled with a prefix of the encoding and fails |
| StateAccounts.SavedReloadsIffExactFit | program/src/state.rs:14-23 | after a successful save the buffer loads again exactly when the encoding fills it, and then it loads as the saved account |
| StateAccounts.Save | program/src/state.rs:19-23 | the in-place write into the data array has the result and the contents that `SaveEffect` gives |
| Processor.Outcome | program/src/processor.rs:11-30 | a rejected proof is `InvalidInstructionData` and a bad account `InvalidAccountData`, both with nothing written; success requires a verified proof, a decodable account and room for the proof's encoding, and then the data starts with that encoding |
| Processor.ProcessInstruction | program/src/processor.rs:11-30 | an empty account list is `InvalidArgument`; otherwise only the first account's data changes, as `Outcome` gives |
| Processor.SuccessReloadsIffSameLength | program/src/processor.rs:25-27 | after a success the account loads again exactly when the proof is as long as the state it replaced, and then it holds the proof |
| Processor.PreviousStateDiscarded | program/src/processor.rs:25-27 | after a success with a proof as long as the old state, the account holds exactly the proof's encoding, whatever it held before |
| Processor.LongerProofFails | program/src/processor.rs:25-27 | a proof longer than the stored state fails with a Borsh I/O error even though it verifies |

## Left out

- Ledger.Transfer: requires that the receiver's `+=` does not leave `u64` (`NoOverflow`). The source does not check this: a debug build panics and a release build wraps. The model excludes that case instead of choosing one behaviour.
- Ledger.State.ApplyTransaction: requires `NoOverflow`, for the same reason.
- Executor.Executor.ExecuteTransaction: requires `NoOverflow`, for the same reason.
- Cli.Serve: requires that no line of the session submits an overflowing transfer (`Replay(...).end != Overflow`), for the same reason.
- Cli.Run: has the same requirement as `Cli.Serve`.
- Cli.Execute: requires `NoOverflow` for a submitted transfer, for the same reason.
- The `Mutex`, the `Arc` and `lazy_static` are not modelled; there is one ledger object and no concurrency. A poisoned lock (the `unwrap` on `lock()`) is not modelled either.
- Whether writing `state.json` succeeds is the constant `Executor.writable`, fixed for the whole session: the model cannot show a session where some saves succeed and a later one fails.
- Executor.SAVE_FAILED: is only the start of the save panic's message; `expect` appends the I/O error, which the model does not represent.
- The JSON text of `state.json` is abstract. It is a parsed `State`, the fallback "{}", or any other text; `serde_json`'s format itself is not modelled.
- File I/O is reduced to the file's contents and the `writable` flag. A failed `fs::write` is taken to leave the old contents, although a real partial write could corrupt them.
- The prompt the loop prints before each line (main.rs:12) is not modelled. The replies it prints are named by the `Reply` datatype; their text is not output.
- Standard input is a finite list of lines. An I/O error on `read_line` (its `unwrap`) is not modelled. At end of input the source keeps reading empty lines forever and prints a format error for each; the model ends the session instead (`Exhausted`).
- In the model the loop body parses line i through `ParseLineAt` rather than reading it from standard input.
- `setup_zk`, the Groth16 parameter generation, proof creation and its randomness are not modelled; the pairing check is the parameter `backend` of `VerifyProof`.
- Constraint-system namespaces (the names passed to `cs.namespace`) and constraint annotations are not modelled.
- Only the proving-mode constraint system is modelled. In setup mode bellman does not evaluate assignments, so a missing value does not fail there.
- Linear combinations carry integer coefficients read modulo R; the coefficient -1 stands for the field element R - 1.
- The sp1 verifier is the parameter `verify` of the processor.
- The inner workings of SHA-256 and of the `merkletree` crate (hashing of inner nodes, leaf-count requirements) are not modelled; they are the functions the rollup state is built with.
- The `_program_id` parameter and `msg!` logging are not modelled. So are the `RefCell` borrow panics of `account.data`, and the Solana runtime discarding the writes of a failed instruction (`Processor.Outcome` describes the buffer as the program leaves it).
- Borsh I/O errors are kept only as their kind (`InvalidData`, `WriteZero`), not as the wrapped `std::io::Error`.
- executor/src/zk-prover/zk_prover.rs (an earlier draft of the circuit), the TypeScript client, program/src/lib.rs, rollup-executor/src/main.rs and rollup-executor/src/prover.rs are not part of this model.

## Findings

| source | as written | input that shows it | evidently intended | confidence | as-written member | corrected member |
|---|---|---|---|---|---|---|
| executor/src/zk_prover/zk_prover.rs:54-68 | the two constraints state sender − amount = new sender and receiver + amount = new receiver in the field, with no range check on any of the five values | sender 5, amount 10, receiver 0, new sender R − 5, new receiver 10 satisfies both constraints, so an overdraft can be proved | only a transfer of `u64` values that the sender can pay for, with `u64` results, satisfies the circuit (as the checked arithmetic outside the circuit demands); the corrected relation range-checks all five values, private ones included | not executed | ZkProver.RelationAdmitsOverdraft | ZkProver.RangeCheckedIffSufficient |
