# A model of hopper-svm

hopper-svm is a sequential, in-memory machine that runs Solana-style instructions over a list of
accounts. This project models its kernel, five of its programs and its base58 codecs in Dafny and
proves what holds of them for every input, every run and every reachable state.
`dafny verify dfyconfig.toml` checks it.

* **Execution kernel** (`Common`, `Sums`, `Bytes`, `Accounts`, `Validation`, `Engine`, `Kernel`,
  `Frame`, `Runs`, `Store`, `Fees`, `Warp`, `Harness`, `StrictAcceptance`,
  `Verdicts`, `ChainExample`). An instruction clones the accounts its metas name, runs a built-in on
  the clones, writes them back by address with the last copy winning, and is accepted or rolled back
  by the Strict validator. A built-in is an arbitrary function of its context, data, clones and the
  shared cells that keeps the length and the addresses of its slice, so the kernel theorems hold of any such program: non-interference, exact lamport accounting,
  frames, and batch execution equal to step-by-step execution. `Harness.HopperSvm` is the mutable
  object; each of its methods is proved against the function the theorems are about.
* **Compute budget program** (`ComputeBudget`, `DryRuns`).
* **System program** (`SystemProgram`, `SystemVerdicts`, `SystemAcceptance`, `SystemRules`, `Ledger`,
  `CreateRule`, `LedgerExample`).
* **Stake program** (`StakeRecord`, `StakeProgram`, `StakeVerdicts`, `StakeLock`, `StakeAuthority`).
* **Address lookup tables** (`Alt`, `AltProgram`, `TableVerdicts`, `AltHistory`).
* **SPL token simulator** (`TokenProgram`, `TokenVerdicts`, `TokenCodec`, `TokenSupply`,
  `TokenRuns`, `TokenSkew`, `TokenDelegate`, `TokenAuthority`).
* **All five programs together** (`Builtins`, `Conservation`, `StrictConservation`).
* **Base58** (`Radix`, `Base58`, `Base58InPlace`), written twice in the bindings: through one big
  integer, and in place on a carry array.

Each program comes as functions (what an instruction computes) and as methods on a mutable
`array<Account>` in the source's own order of checks and writes; every method ends in the verdict
and the slice of its function, or in the error and an untouched slice. The `*Verdicts` modules say
what each function means in terms of data offsets, metas and account fields: exactly when it
accepts, which error it raises otherwise, and what it leaves.

## Reading the model

* A public key is the number its 32 bytes spell, least significant first; the system program's id
  and the default key are 0. Byte buffers are sequences of bytes; machine integers are bounded
  types with saturation, truncation and casts written out.
* Hashing, address derivation, the UTF-8 check and the floating-point rent formula are functions
  in `Oracles` that nothing is assumed about.
* The spl_token crate is not part of this model. Its packing is a `Codec` of which only this is
  used: exact sizes 82 and 165, only initialised records unpack, and packing then unpacking is the
  identity. `TokenCodec` shows that such a codec exists.
* Errors keep their kind, not their text.
* A run is a sequence of instructions with arbitrary changes of the sysvars between them, so every
  run theorem allows the clock to move in any direction.
* Lists are taken to hold each address once where a theorem says `Distinct`. Metas may repeat an
  address unless a theorem says `DistinctMetas`. Of several clones of one account only the last is
  written back, so some laws fail for some instructions; each failure is stated exactly, and shown.
  * Lamports under Strict: exactly the accepted CreateAccounts of `Ledger.MintsLamports` (funder
    named again, target not) make some (`StrictConservation.StrictStepConservesIff`,
    `LedgerExample.RepeatedFunderMintsLamports`).
  * Lamports under either policy: exactly the accepted instructions of `Conservation.Raises`, plain
    transfers and closes among them, raise the total (`Conservation.StepRaisesIff`,
    `LedgerExample.RepeatedSourceMakesLamports`).
  * Tokens: exactly the accepted moves of `TokenRuns.Skews` (first account named again, second not)
    lower supply minus holdings (`TokenRuns.LowersSlackIff`, `TokenSkew.SelfTransferBreaksBacking`),
    and exactly uneven moves and initialisations over a balance change it (`TokenRuns.KeepsGapsIff`).
  * Custody: exactly an accepted InitializeMint takes a sealed token account from its owner
    (`TokenAuthority.StepSealedIff`, `TokenAuthority.InitializeMintNeedsNoSignature`).

## Where the code and its documentation differ

The model follows the code.

* `process_instruction_chain` is documented as atomic (src/lib.rs:1376-1381); a failed chain returns
  the list after its successful prefix (`Runs.ChainKeepsGoodPrefix`, and
  `ChainExample.FailedChainKeepsPrefix` at an input), and only the overlay is all-or-nothing.
* The dry runs are documented to leave the fee configuration and compute budget alone
  (src/lib.rs:909-912); what an instruction writes to the pending compute-unit limit or the priority
  fee stays written. Only the overlay is restored. `DryRuns.StatelessKeepsCellsIff` and
  `DryRuns.DryRunKeepsCellsIff` say exactly when that shows, and `DryRuns.SimulatedLimitStays` does it.
* The validator's note that the lamports of an account missing from the post-state are "already
  accounted" (src/validation.rs:142-147) does not match the loop, which continues before adding them.
* A CreateAccount that funds a new account is credited twice by the conservation rule, so Strict
  rejects it unless its funder is named again; `CreateRule.CreateAcceptedIff` says exactly which pass.
* The creation clause of the owner rule (src/validation.rs:197-200) never decides: an account it is
  about is owned by the system program, which is the running program (`StrictAcceptance.StrictAcceptsIff`
  does without it).
* A lookup is documented to fail for a table that is deactivated (src/lib.rs:726-728); it fails only
  when more than 513 slots have passed (`AltHistory.ResolveIff`).
* Under Strict a lookup table can only be created in an account that the lookup-table program owns
  already, paid for by another it owns (`StrictAcceptance.TablesPassIff`), although the handler is
  written for an empty account and any signing payer (src/spl/alt_program.rs:97-106).
* The token module says that every operation checks the account's owner program
  (src/spl/token.rs:33-36); InitializeMint and InitializeAccount do not, and they replace a buffer of
  another length instead of refusing it. InitializeMint asks for no signature.
* The lookup-table header is described with a 4-byte authority flag and 58 bytes (src/alt.rs:13-27);
  the code writes a 1-byte flag and 56 bytes.
* The system program's header lists four instructions (src/system_program.rs:3-25); twelve run.
* The TypeScript base58 pair starts its array as `[0]`, so an input of zeros only gets one extra
  symbol; the Python pair does not.

## Model

| member | source | states |
|---|---|---|
| `Validation.CheckAccount` | src/validation.rs:151-234 | The per-account checks decide exactly the declarative rules: a read-only account keeps lamports, data, owner and executable flag; a writable one may be debited, re-owned or rewritten only by its owner or while it is an empty system account. |
| `Validation.ValidatePostState` | src/validation.rs:104-276 | Soundness and completeness: Strict returns Ok if and only if every address known to both lists obeys the rules of its first meta and the named lamports change by exactly the creation credit; Lax always returns Ok; the only error is a validation failure; the u128 sums never saturate. |
| `Validation.VerdictIgnoresOrder` | src/validation.rs:124-132 | With distinct metas the verdict is the same for every order of them. |
| `Validation.NamedSumBounds` | src/validation.rs:148-149 | Over any number of metas a vector can hold, the running lamport sums stay far below 2^128. |
| `StrictAcceptance.StrictAcceptsIff` | src/validation.rs:104-276 | For an arbitrary built-in and any metas, Strict accepts a step if and only if it succeeds without validation, nothing but one of these happens to each account (nothing; or, if its first meta is writable and its executable flag stays: anything if the program owns it, a credit, new data or lamports in an empty system account that keeps its owner), and the list total grows by exactly the creation credit. |
| `StrictAcceptance.CreditLaw` | src/validation.rs:244-262 | The creation credit of an account is its new balance if it was a system account without lamports and data and got another owner or data, and nothing otherwise. |
| `StrictAcceptance.OnlySystemReowns` | src/validation.rs:194-211 | Under Strict an empty system account keeps its owner in every step of every program but the system program. |
| `StrictAcceptance.HandledPassesIff` | src/validation.rs:104-276 | With any metas, what a handler of the other programs accepts passes Strict if and only if everything written back of its slice is permitted so and its route neither makes nor loses lamports. |
| `StrictAcceptance.TokenPassesIff` | src/spl/token.rs:81-111 | A token instruction its handler accepts passes Strict if and only if an initialisation that is written back works on an account of the program and a close neither makes nor loses lamports. |
| `StrictAcceptance.CloseAccountPassesIff` | src/spl/token.rs:728-777 | With distinct metas a token close its handler accepts passes Strict if and only if the destination has room for the balance. |
| `StrictAcceptance.StakePassesIff` | src/spl/stake_program.rs:175-207 | A stake instruction its handler accepts passes Strict if and only if a first account it changes and writes back is the program's and a withdrawal neither makes nor loses lamports. |
| `StrictAcceptance.TablesPassIff` | src/spl/alt_program.rs:61-89 | A lookup-table instruction its handler accepts passes Strict if and only if the table it changes and writes back is the program's, a created one was not executable and its payer is the program's too, and a close neither makes nor loses lamports. |
| `SystemAcceptance.SystemPassesIff` | src/system_program.rs:53-95 | A system instruction other than a CreateAccount that its handler accepts passes Strict if and only if a first account it changes and writes back is system-owned and its route neither makes nor loses lamports. |
| `Engine.ResolveAccounts` | src/engine.rs:203-217 | Succeeds exactly when every meta names a listed account, and then gives one clone per meta, in order, repeated metas cloned again. |
| `Engine.MergeAccounts` | src/engine.rs:222-233 | The write-back loop is the fold that overwrites the first slot of each address or appends. |
| `Engine.Execute` | src/engine.rs:103-196 | One execution: meter charged first, over-budget and unknown accounts fail, a failed built-in leaves the list untouched, a successful one is merged. |
| `Accounts.MergedIsMapUpdate` | src/engine.rs:222-233 | With distinct addresses the write-back keeps order, length and addresses of the list and equals the map update in which the last working copy of each address wins. |
| `Accounts.MergedReplays` | src/lib.rs:1390-1419 | Replaying a step's accounts over the carried list gives those accounts: the chain's returned list always equals its carried state. |
| `Accounts.SumByMerge` | src/engine.rs:222-233 | Distinct working copies change any total over the list by exactly what they changed among themselves. |
| `Kernel.DispatchShape` | src/lib.rs:1563-1683 | Dispatch of any well-behaved built-in keeps the order, length and addresses of the list, and a failed or rejected one changes nothing in it. |
| `Kernel.DispatchVerdict` | src/lib.rs:1563-1640 | Every outcome of a dispatch of an arbitrary built-in, in order: an unknown program costs nothing; then the pending limit if there is one, else the budget's, has to cover the cost; then every meta has to be listed; then the built-in decides; then the validator; with what each charges, what it leaves of the list and which cells. |
| `Runs.RunSound` | src/lib.rs:1563-1640 | Every reachable state keeps distinct addresses and well-behaved programs, and no run changes order, length or addresses of the list. |
| `Kernel.CopySource` | src/engine.rs:203-233 | The post-state of an account is the account itself or the last working copy that names it, whose input was that account. |
| `Kernel.StrictStepRespectsOwners` | src/validation.rs:126-234 | For an arbitrary built-in under Strict: an account it does not own (and that is not an empty system account) can only be credited, an account not given as writable keeps its whole state, and no executable flag changes. |
| `Kernel.StrictStepChangesTotalByCredit` | src/validation.rs:244-272 | An accepted Strict step of any built-in changes the lamport total of the whole list by exactly the creation credit. |
| `Kernel.StrictVerdict` | src/lib.rs:1652-1683 | Whatever its metas, a Strict step succeeds if and only if it succeeds without validation, every named account of the list obeys its owner and writable rules, and the list total moves by exactly the creation credit; it then leaves what the unvalidated step leaves. |
| `Kernel.TwoCopyTotal` | src/engine.rs:222-233 | Whatever the metas, when a program changes at most two of its copies the total over the list moves by what it changed in those of the two whose key no later meta names again. |
| `Frame.DispatchFrame` | src/lib.rs:1563-1683 | Two lists that agree on the named accounts get the same verdict, the same meter and cells and the same named post-state, and neither changes an unnamed account: dispatch reads and writes only what its metas name. |
| `Runs.ChainKeepsGoodPrefix` | src/lib.rs:1382-1420 | A chain returns the state after its longest successful prefix and succeeds exactly when that prefix is the whole, non-empty chain. |
| `Runs.ChainEndsAt` | src/lib.rs:1382-1420 | The outcome of a non-empty chain, error, charge and cells included, is that of the last instruction it dispatched on the state the successful ones before it left; an empty chain fails as such. |
| `ChainExample.FailedChainKeepsPrefix` | src/lib.rs:1376-1420 | A chain is not all-or-nothing: for every system-owned account, under Strict, a chain that hands it to another owner and then fails returns the handed-over account. |
| `Runs.StrictRunRespectsOwners` | src/validation.rs:126-234 | Over Strict runs of any length mixing any programs: an account whose owner never runs keeps data, owner and executable flag and never loses lamports; one never passed as writable keeps its whole state. |
| `Runs.StrictChainRespectsOwners` | src/lib.rs:1382-1420 | The same non-interference for one chain, whatever instruction it stops at. |
| `Store.CollectFacts` | src/lib.rs:1150-1178 | The collected inputs hold every named address once, with the overlay's account or an empty system account. |
| `Store.CommitFacts` | src/lib.rs:1240-1245 | After a commit the overlay holds the committed accounts and is otherwise unchanged. |
| `Store.CollectInOrder` | src/lib.rs:1207-1234 | The input slice lists every key the instructions mention once, in the order of first mention, program ids before their metas, with the overlay's account or an empty system account. |
| `Store.OverlayStep` | src/lib.rs:1128-1135 | A step against the overlay is the dispatch on that slice; success stores every account it returned under its address and nothing else, failure stores nothing. |
| `Store.OverlayChain` | src/lib.rs:1141-1181 | The same for a chain: everything it returned, or nothing. |
| `Store.BatchEqualsSequential` | src/lib.rs:1141-1181 | For any non-empty instruction list and any deterministic built-ins, the batch succeeds exactly when running its instructions one by one succeeds throughout, with the same final overlay and cells; a failed batch leaves the overlay as it was. |
| `Fees.CountUniqueSigners` | src/fees.rs:92-102 | The count is the cardinality of the set of keys that sign anywhere in the transaction. |
| `Fees.FeeAmount` | src/fees.rs:68-87 | In arithmetic: the fee is the price of a signature times the number of distinct signers plus the micro-price of the whole compute limit in force, in lamports rounded down; with what it is when a product or the sum passes 64 bits. |
| `Fees.TransactionAmount` | src/lib.rs:1283-1374 | At the transaction: a listed payer that holds that amount is charged exactly it before the chain runs and the receipt reports it; one that does not pays nothing and the transaction fails for insufficient funds. |
| `Fees.UnknownPayer` | src/lib.rs:1283-1374 | An unlisted payer fails the transaction as an unknown account, without charge or change. |
| `Fees.FeeChargedOnce` | src/lib.rs:1283-1374 | If the payer is listed and can pay, the returned list is the run of the longest successful prefix over the fee-debited input and the fee is reported once; otherwise nothing is charged and nothing changes. |
| `Harness.HopperSvm.ApplyValidation` | src/lib.rs:1652-1683 | A rejected outcome is rolled back to the pre-state with a validation error; failed and accepted outcomes pass through. |
| `Harness.HopperSvm.DispatchOneInner` | src/lib.rs:1563-1640 | The method computes the dispatch function every kernel theorem is about, shared cells included. |
| `Harness.HopperSvm.RunChain` | src/lib.rs:1346-1370 | The carried-state loop computes the chain function for every registry whose built-ins keep the length of their slice, addresses rewritten or not. |
| `Harness.HopperSvm.ProcessInstructionChain` | src/lib.rs:1382-1420 | Chain processing is the chain function on the caller's accounts. |
| `Harness.HopperSvm.ProcessTransaction` | src/lib.rs:1283-1374 | The fee-charging transaction is the transaction function on the harness's fields. |
| `Harness.HopperSvm.CollectInputs` | src/lib.rs:1207-1234 | The input slice is the overlay read at the first-seen names, unknown ones as empty system accounts. |
| `Harness.HopperSvm.CommitAll` | src/lib.rs:1240-1245 | The overlay becomes the committed overlay. |
| `Harness.HopperSvm.ProcessInstructionWithStore` | src/lib.rs:1128-1135 | One instruction against the overlay: committed on success, untouched on failure. |
| `Harness.HopperSvm.ProcessInstructionChainWithStore` | src/lib.rs:1141-1181 | A chain against the overlay: committed on success, untouched on failure. |
| `Harness.HopperSvm.SimulateInstructionWithStore` | src/lib.rs:1186-1191 | Answers as the real call does and always restores the overlay; the shared cells are not restored. |
| `Harness.HopperSvm.SimulateInstructionChainWithStore` | src/lib.rs:1194-1202 | The same for chains. |
| `Harness.HopperSvm.SimulateInstruction` | src/lib.rs:925-931 | The stateless dry run is the dispatch function, shared cells included. |
| `Harness.HopperSvm.SimulateInstructionChain` | src/lib.rs:943-949 | The stateless dry run of a chain is the chain function, shared cells included. |
| `DryRuns.StatelessKeepsCellsIff` | src/lib.rs:909-931 | With the five programs registered, the stateless dry run leaves the shared cells as they were if and only if it was not a compute budget instruction that fits the budget, asks for another limit or price and names only listed accounts. |
| `DryRuns.DryRunKeepsCellsIff` | src/lib.rs:1186-1191 | The dry run against the overlay, which lists every account it names, leaves the shared cells as they were if and only if it was not such an instruction. |
| `DryRuns.SimulatedLimitStays` | src/lib.rs:1186-1191 | On the harness object, a dry run of SetComputeUnitLimit puts the overlay back and leaves the requested limit pending, for every limit up to the maximum. |
| `ComputeBudget.Simulator.Invoke` | src/compute_budget_program.rs:104-208 | The five requests on the shared cells: a limit within the maximum or a price is stored, heap and data-size requests only checked, anything else refused with the cells untouched. |
| `ComputeBudget.RequestedVerdict` | src/compute_budget_program.rs:104-208 | In offsets of the data: which bytes each of the five tags needs, the limit of 1400000 units, and which cell it sets. |
| `Harness.HopperSvm.WarpToSlot` | src/lib.rs:844-871 | The clock becomes the warped clock: slot, truncated and saturated timestamp, derived epoch. |
| `Harness.HopperSvm.WarpToTimestamp` | src/lib.rs:888-907 | The clock becomes the warped clock: derived slot, clamped timestamp, derived epoch. |
| `Harness.HopperSvm.ResolveAddressTableLookup` | src/lib.rs:729-762 | Resolution fails for an unlisted, invalid or cooled-down table and for an index out of bounds, and otherwise gives each list of indexes its own addresses in order. |
| `Warp.SlotHopsArrive` | src/lib.rs:844-871 | Any number of slot hops reaches the slot and epoch of one direct warp. |
| `Warp.SlotHopsDrift` | src/lib.rs:848-854 | As long as nothing saturates, k forward slot hops end never ahead of a direct warp and at most 4k/5 seconds behind; the gap is given exactly. |
| `Warp.TimeHopsDrift` | src/lib.rs:892-899 | As long as nothing saturates and the first stop is not before 1970, k forward timestamp hops lose at most k/2 slots against a direct warp and gain none; the gap is given exactly. |
| `Warp.NegativeStopDrift` | src/lib.rs:888-901 | A first stop before 1970 is clamped to zero, so the hops lose the slots of the time before zero as well; the gap is given exactly. |
| `Warp.EpochHoldsSlot` | src/lib.rs:860-870 | From the first normal slot on, and short of a wrap at 64 bits, an epoch is the computed one if and only if its slot interval contains the slot. |
| `Warp.EpochMonotoneIff` | src/lib.rs:860-870 | Over all slots the epoch is monotone if and only if the warm-up approximation of one epoch per 32 slots does not run past the first normal epoch and the epoch of the last slot does not wrap. |
| `Warp.SlotOfTimestamp` | src/lib.rs:888-899 | A timestamp warp in either direction moves the slot by the whole 400 ms slots between the two times, stopping at the first and the last slot. |
| `Warp.SlotOfFarTimestamp` | src/lib.rs:888-899 | A time too far away to count in milliseconds moves it by the slots of the largest number of milliseconds. |
| `Warp.TimeOfSlot` | src/lib.rs:844-858 | A slot warp forward adds the whole seconds of the slots between, up to the largest timestamp; one backward leaves the time alone. |
| `Warp.TimeOfFarSlot` | src/lib.rs:844-858 | Past that range the elapsed time saturates, and from 2^63 slots on the time goes backward. |
| `Warp.EpochLaw` | src/lib.rs:860-870 | Before the first normal slot 32 slots make an epoch, from it on slots_per_epoch do, counted from the first normal epoch modulo 2^64. |
| `Warp.TimestampWarp` | src/lib.rs:888-907 | A timestamp warp sets the time, never before 1970, with the slot and the epoch that go with it. |
| `NonceRecord.WriteNonce` | src/system_program.rs:591-614 | The in-place writer changes exactly the 80 bytes of the record, and nothing in a shorter buffer. |
| `NonceRecord.ReadWrittenNonce` | src/system_program.rs:567-614 | A written nonce reads back, and the bytes past the record are untouched. |
| `SystemHandlers.CreateAccount` | src/system_program.rs:101-164 | Ends in the verdict and slice of SystemProgram.CreateAccount, of which CreateFundsTarget, DebitsNeedAuthority, OwnerChangesNeedAuthority and CreateAcceptedIff are proved; nothing is written unless every check passes. |
| `SystemHandlers.Assign` | src/system_program.rs:168-189 | Ends in the verdict and slice of SystemProgram.Assign, of which OwnerChangesNeedAuthority is proved; nothing is written unless every check passes. |
| `SystemHandlers.Transfer` | src/system_program.rs:193-245 | Ends in the verdict and slice of SystemProgram.Transfer, of which TransferMovesExactly and DebitsNeedAuthority are proved; nothing is written unless every check passes. |
| `SystemHandlers.Allocate` | src/system_program.rs:251-278 | Ends in the verdict and slice of SystemProgram.Allocate, of which InvokeIsFrugal is proved; nothing is written unless every check passes. |
| `SystemHandlers.CreateAccountWithSeed` | src/system_program.rs:294-391 | Ends in the verdict and slice of SystemProgram.CreateAccountWithSeed, in the source's order of checks; CreateFundsTarget and CreateAcceptedIff are proved of it. |
| `SystemHandlers.AssignWithSeed` | src/system_program.rs:402-456 | Ends in the verdict and slice of SystemProgram.AssignWithSeed, of which OwnerChangesNeedAuthority is proved. |
| `SystemHandlers.TransferWithSeed` | src/system_program.rs:468-534 | Ends in the verdict and slice of SystemProgram.TransferWithSeed, of which DebitsNeedAuthority is proved. |
| `SystemHandlers.InitializeNonce` | src/system_program.rs:645-691 | Ends in the verdict and slice of SystemProgram.InitializeNonce, of which NonceStarts is proved. |
| `SystemHandlers.AdvanceNonce` | src/system_program.rs:703-750 | Ends in the verdict and slice of SystemProgram.AdvanceNonce, of which AdvanceTwice is proved. |
| `SystemHandlers.WithdrawNonce` | src/system_program.rs:764-814 | Ends in the verdict and slice of SystemProgram.WithdrawNonce, of which DebitsNeedAuthority is proved. |
| `SystemHandlers.AuthorizeNonce` | src/system_program.rs:825-874 | Ends in the verdict and slice of SystemProgram.AuthorizeNonce, of which AuthorizeHandsOver is proved. |
| `SystemHandlers.UpgradeNonce` | src/system_program.rs:888-907 | Ends in the verdict and slice of SystemProgram.UpgradeNonce, of which UpgradeKeepsNonce is proved. |
| `SystemHandlers.Invoke` | src/system_program.rs:53-95 | The tag picks the handler; short data and unknown tags fail. |
| `SystemVerdicts.CreateAccountVerdict` | src/system_program.rs:101-164 | Accepted if and only if every requirement holds, the first unmet one deciding the error; funder and target sign and are writable, the funder covers the amount, the target has neither lamports nor data; the target is left with exactly the amount, the owner and the zero bytes asked for. |
| `SystemVerdicts.AssignVerdict` | src/system_program.rs:168-189 | Accepted if and only if every requirement holds, the first unmet one deciding the error; the account signs and is writable; only its owner changes, to the key given. |
| `SystemVerdicts.TransferVerdict` | src/system_program.rs:193-245 | Accepted if and only if every requirement holds, the first unmet one deciding the error; two accounts, both writable, the source signing, system-owned and covering the amount; only the two balances change, the credit capped at 64 bits. |
| `SystemVerdicts.AllocateVerdict` | src/system_program.rs:251-278 | Accepted if and only if every requirement holds, the first unmet one deciding the error; a signing, writable account without data; it gets exactly that many zero bytes and nothing else changes. |
| `SystemVerdicts.CreateAccountWithSeedVerdict` | src/system_program.rs:294-391 | Accepted if and only if every requirement holds, the first unmet one deciding the error; a whole UTF-8 seed, the target derived from the base, a signing writable funder, a writable target, a signing base, and what CreateAccount asks of the balances. |
| `SystemVerdicts.CreateAccountWithSeedLeaves` | src/system_program.rs:294-391 | The slice is left as CreateAccount leaves it, with the fields behind the seed. |
| `SystemVerdicts.AssignWithSeedVerdict` | src/system_program.rs:402-456 | Accepted if and only if every requirement holds, the first unmet one deciding the error; a whole UTF-8 seed, two accounts, a writable account derived from a signing base; only its owner changes, to the one it was derived under. |
| `SystemVerdicts.TransferWithSeedVerdict` | src/system_program.rs:468-534 | Accepted if and only if every requirement holds, the first unmet one deciding the error; a whole UTF-8 seed, three accounts, writable source and destination, a signing base the source is derived from, and the amount covered; only the two balances change. |
| `SystemVerdicts.NonceLayout` | src/system_program.rs:567-590 | A buffer of 80 bytes reads as a nonce with its fields at offsets 4, 8, 40 and 72, a shorter one not at all. |
| `SystemVerdicts.InitializeNonceVerdict` | src/system_program.rs:645-691 | Accepted if and only if every requirement holds, the first unmet one deciding the error; a writable buffer of 80 bytes without a nonce; it is left with the key given, this slot's nonce, a fee of 5000 and the system owner. |
| `SystemVerdicts.AdvanceNonceVerdict` | src/system_program.rs:703-750 | Accepted if and only if every requirement holds, the first unmet one deciding the error; a writable nonce whose authority is the third account and signs; only the durable nonce changes. |
| `SystemVerdicts.WithdrawNonceVerdict` | src/system_program.rs:764-814 | Accepted if and only if every requirement holds, the first unmet one deciding the error; five accounts, a writable nonce account and recipient, the fifth signing and, of a live nonce, its authority, and the amount covered; only the two balances change. |
| `SystemVerdicts.AuthorizeNonceVerdict` | src/system_program.rs:825-874 | Accepted if and only if every requirement holds, the first unmet one deciding the error; a writable live nonce whose authority is the second account and signs; only the authority changes, to the key given. |
| `SystemVerdicts.UpgradeNonceVerdict` | src/system_program.rs:888-907 | Accepted if and only if every requirement holds, the first unmet one deciding the error; a writable account; its first four bytes, if it has as many, become version 1 and nothing else changes. |
| `SystemAcceptance.UncheckedTransferIff` | src/system_program.rs:193-245 | From list to list: without validation the plain two-account transfer succeeds if and only if the budget covers 150 units, the source is system-owned and the amount is there; it charges 150 and changes two balances. |
| `SystemAcceptance.StrictTransferIff` | src/system_program.rs:193-245 | Under Strict it needs room at the destination as well, and then moves exactly the amount and leaves every other field of every account alone. |
| `SystemRules.DebitsNeedAuthority` | src/system_program.rs:193-245 | In any successful system instruction only the first copy can lose lamports, and only with the signature that instruction asks for: its own key, the stored nonce authority, or the base its address is derived from. |
| `SystemRules.OwnerChangesNeedAuthority` | src/system_program.rs:168-189 | In any successful system instruction an owner changes only with the account's own signature, that of the base it is derived from, in a CreateAccount with the funder's too and on an account without lamports or data, or, unsigned, when a buffer without a nonce is initialised as one. |
| `SystemRules.CreateFundsTarget` | src/system_program.rs:152-158 | A created account gets the requested owner, that many zero bytes and exactly the lamports the funder loses. |
| `SystemRules.NonceStarts` | src/system_program.rs:645-691 | Initialising stores the given authority and this slot's nonce, and cannot be repeated. |
| `SystemRules.UpgradeKeepsNonce` | src/system_program.rs:888-907 | Upgrading never changes what the nonce record reads as. |
| `SystemRules.TransferMovesExactly` | src/system_program.rs:238-239 | A transfer to a destination with room moves exactly the amount. |
| `SystemRules.AdvanceTwice` | src/system_program.rs:703-750 | Advance replaces the durable nonce and keeps authority and fee; within one slot a second Advance changes nothing. |
| `SystemRules.AuthorizeHandsOver` | src/system_program.rs:825-874 | Authorize stores the new authority, keeps nonce and fee, and the old authority can no longer advance or withdraw. |
| `Ledger.InvokeIsFrugal` | src/system_program.rs:70-82 | No system instruction makes lamports within its slice, even with repeated metas and saturating credits, and only a CreateAccount can credit an account it creates. |
| `Ledger.SystemStepTotal` | src/validation.rs:244-272 | Whatever its metas, an accepted Strict system step adds to the list total exactly what can be read off the instruction: the lamports of a CreateAccount whose funder is named again and whose target is not, otherwise zero. |
| `Ledger.SystemStepConserves` | src/validation.rs:244-272 | A Strict system step conserves the total if and only if it is not an accepted CreateAccount of that kind with a positive amount, whatever the metas. |
| `Ledger.FundedCreateIsRejected` | src/validation.rs:244-272 | A CreateAccount that funds an empty account while changing its owner or size, and names neither funder nor target again, is always rejected. |
| `CreateRule.CreateAcceptedIff` | src/validation.rs:151-272 | Whatever the metas, a CreateAccount its handler accepts passes Strict if and only if a condition on metas, funder, target and arguments holds that a caller can check beforehand. |
| `Ledger.SystemRunConserves` | src/lib.rs:1382-1420 | Every Strict run of system instructions that name no CreateAccount of the minting kind conserves the total, whatever the metas. |
| `Ledger.TransactionTakesTheFee` | src/lib.rs:1283-1374 | A Strict transaction of such instructions takes exactly its reported fee out of the total, whether or not one of them fails. |
| `Conservation.StepTotal` | src/engine.rs:222-233 | Under either policy and with any metas, an accepted step of any of the five programs changes the list total by exactly what is written back of its route: the saturating credit if the account it ends at is not named again, less the amount if the account it starts from is not. |
| `Conservation.StepRaisesIff` | src/engine.rs:222-233 | So, under either policy, a step raises the total if and only if it is accepted, moves a positive amount from an account that is named again to one that is not and that has room for a lamport. |
| `Conservation.DistinctMetasNeverRaise` | src/engine.rs:203-233 | In particular no step of the five programs with distinct metas raises the total, under either policy. |
| `Conservation.BundledRunConserves` | src/validation.rs:244-272 | Over any run mixing instructions of all five programs, with any metas, and clock moves, the lamport total never rises under either policy if no accepted instruction is of the raising kind, and is then constant under Strict. |
| `Conservation.BundledTransactionTakesTheFee` | src/lib.rs:1283-1374 | A Strict transaction of any of the five programs' instructions with distinct metas takes exactly its reported fee out of the total, whether or not one of them fails. |
| `StrictConservation.StrictStepConservesIff` | src/validation.rs:244-272 | A Strict step of any of the five programs, with any metas, conserves the total if and only if it is not an accepted CreateAccount of the minting kind. |
| `StrictConservation.StrictRunConserves` | src/validation.rs:244-272 | So any Strict run mixing the five programs without such a CreateAccount keeps the total constant, repeated metas included. |
| `StrictConservation.StrictTransactionTakesTheFee` | src/lib.rs:1283-1374 | And any Strict transaction without such a CreateAccount takes exactly its reported fee out of the total. |
| `StrictConservation.ProcessConservingTransaction` | src/lib.rs:1283-1374 | On the harness object: what such a transaction returns and its reported fee together are what went in. |
| `LedgerExample.RepeatedFunderMintsLamports` | src/engine.rs:226-231 | The Strict condition is met: naming the funder again after the new account makes a CreateAccount pass Strict and raises the total by its lamports, for every amount. |
| `LedgerExample.RepeatedSourceMakesLamports` | src/system_program.rs:193-245 | The Lax condition is met by a plain Transfer: naming its source again succeeds without validation and raises the total by the amount, for every amount the destination has room for. |
| `StakeRecord.WriteState` | src/spl/stake_program.rs:626-652 | The in-place writer produces exactly the zeroed and filled record followed by the old tail. |
| `StakeRecord.WriteMeta` | src/spl/stake_program.rs:654-661 | The header fields land at their offsets, in order. |
| `StakeRecord.ReadWritten` | src/spl/stake_program.rs:560-661 | Reading what was written gives the state, for every state and every buffer of at least 200 bytes. |
| `StakeRecord.WrittenTwice` | src/spl/stake_program.rs:626-652 | Bytes past 200 are untouched, and writing s2 after s1 equals writing s2 alone. |
| `StakeHandlers.Initialize` | src/spl/stake_program.rs:215-278 | Ends in the verdict and slice of StakeProgram.Initialize, of which InitializeRecords is proved; nothing is written unless every check passes. |
| `StakeHandlers.Authorize` | src/spl/stake_program.rs:284-334 | Ends in the verdict and slice of StakeProgram.Authorize, of which AuthorizeRecords is proved. |
| `StakeHandlers.DelegateStake` | src/spl/stake_program.rs:339-389 | Ends in the verdict and slice of StakeProgram.DelegateStake, of which DelegateRecords is proved. |
| `StakeHandlers.Withdraw` | src/spl/stake_program.rs:395-470 | Ends in the verdict and slice of StakeProgram.Withdraw, zero-balance wipe included, of which WithdrawIff and WithdrawKeepsLock are proved. |
| `StakeHandlers.Deactivate` | src/spl/stake_program.rs:474-510 | Ends in the verdict and slice of StakeProgram.Deactivate, of which DeactivateRecords is proved. |
| `StakeHandlers.Invoke` | src/spl/stake_program.rs:175-207 | The tag picks the handler; short data and unsupported tags fail. |
| `StakeVerdicts.StakeLayout` | src/spl/stake_program.rs:560-624 | A buffer of 200 bytes with tag 0, 1 or 2 reads as that state with every field at its offset, any other not at all. |
| `StakeVerdicts.WrittenRecords` | src/spl/stake_program.rs:626-652 | A written buffer reads as its state, keeps length and tail, and holds zeroes between the record and byte 200. |
| `StakeVerdicts.InitializeVerdict` | src/spl/stake_program.rs:215-278 | Accepted if and only if every requirement holds, the first unmet one deciding the error; a writable blank buffer of exactly 200 bytes, a body of 112 and the rent minimum in the account; the record is left with all six fields as given. |
| `StakeVerdicts.AuthorizeVerdict` | src/spl/stake_program.rs:284-334 | Accepted if and only if every requirement holds, the first unmet one deciding the error; a writable live record, a role of 0 or 1 and the signature of that role's key; only that key changes. |
| `StakeVerdicts.DelegateStakeVerdict` | src/spl/stake_program.rs:339-389 | Accepted if and only if every requirement holds, the first unmet one deciding the error; two accounts, a writable live record and the staker's signature; the record delegates what is above the reserve to the second account from this epoch on, keeping an earlier rate and credits. |
| `StakeVerdicts.WithdrawVerdict` | src/spl/stake_program.rs:395-470 | Accepted if and only if every requirement holds, the first unmet one deciding the error; record and recipient writable, the withdrawer's signature, and nothing taken of the reserve and the stake still bound, both sums capped at 64 bits. |
| `StakeVerdicts.WithdrawLeaves` | src/spl/stake_program.rs:446-465 | Only the two balances change, but for the record's bytes, which are zeroed when nothing is left. |
| `StakeVerdicts.DeactivateVerdict` | src/spl/stake_program.rs:474-510 | Accepted if and only if every requirement holds, the first unmet one deciding the error; a writable undated delegation and the staker's signature; only its end is dated, with this epoch. |
| `StakeLock.WithdrawKeepsLock` | src/spl/stake_program.rs:430-465 | A withdrawal leaves the reserve and, while the stake is still bound, reserve plus stake in the account; it wipes the record only if the reserve is zero. |
| `StakeLock.WithdrawIff` | src/spl/stake_program.rs:423-455 | From a locked account the withdrawer may take an amount if and only if it leaves the reserve and the still bound stake, computed without saturation, or, when the account is below that floor in this epoch, it is zero; an accepted withdrawal moves exactly the amount, saturating at the recipient. |
| `StakeLock.InitializeRecords` | src/spl/stake_program.rs:215-278 | Initialising records the given authorities, lockup and custodian and the rent minimum, which the account holds, and cannot be repeated. |
| `StakeLock.AuthorizeRecords` | src/spl/stake_program.rs:284-334 | Authorize replaces the authority of its role with the signature of the old one and nothing else of the record. |
| `StakeLock.DelegateRecords` | src/spl/stake_program.rs:351-383 | Delegating binds everything above the reserve to the vote account from the current epoch, undated. |
| `StakeLock.DeactivateRecords` | src/spl/stake_program.rs:474-510 | Deactivating dates the end of the delegation and changes nothing else. |
| `StakeLock.StakeStaysLocked` | src/validation.rs:181-191 | Over any Strict run mixing stake instructions, arbitrary other programs and clock moves that never pass a given epoch, an account locked for that epoch stays stake-owned and locked for it; with the last epoch of all this is every clock move, and the lock of an undated delegation. |
| `StakeLock.PrincipalIsSafe` | src/spl/stake_program.rs:430-465 | From an uninitialised stake account on, every later state holds at least its reserve, and reserve plus stake while the delegation is undated or its deactivation epoch is not before the latest epoch of the run; that sum never saturates. |
| `StakeLock.BoundStakeIsThere` | src/spl/stake_program.rs:430-465 | If no clock move lowers the epoch, an account locked at the start holds at the end everything a withdrawal would have to leave there, a deactivated delegation's stake included until the clock has passed its date. |
| `StakeAuthority.OnlyAuthoritiesChangeIt` | src/spl/stake_program.rs:284-334 | While the withdrawer signs no stake instruction, no lamports leave and withdrawer, reserve and lockup stay; while the staker signs none either, the record does not change, whatever other programs run. |
| `Alt.WriteMeta` | src/alt.rs:143-178 | The in-place writer changes exactly the 56-byte header, zeroing a missing authority's slot. |
| `Alt.ReadWrittenMeta` | src/alt.rs:115-178 | A written header reads back whatever was there before, and the addresses are untouched. |
| `Alt.AppendAddresses` | src/alt.rs:203-215 | Appends all the addresses and returns their new number or, past 256, appends none and fails. |
| `Alt.AppendedKeeps` | src/alt.rs:192-215 | Appending keeps every address readable at its index. |
| `Alt.AppendedAdds` | src/alt.rs:192-215 | The appended addresses are readable behind the old ones, in order. |
| `Alt.ResolveLookup` | src/alt.rs:224-254 | The two loops resolve writable then read-only indexes into their own lists, and fail exactly when one is out of bounds. |
| `Alt.LookupsIff` | src/alt.rs:216-254 | A lookup succeeds if and only if the table has an address at every index of both lists; it gives the writable ones and the read-only ones, each in the order of its indexes. |
| `AltHandlers.CreateTable` | src/spl/alt_program.rs:107-188 | Ends in the verdict and slice of AltProgram.CreateTable, of which CreationStartsTable is proved; nothing is written unless every check passes. |
| `AltHandlers.FreezeTable` | src/spl/alt_program.rs:197-235 | Ends in the verdict and slice of AltProgram.FreezeTable, of which FreezeIsLater is proved. |
| `AltHandlers.ExtendTable` | src/spl/alt_program.rs:248-331 | Ends in the verdict and slice of AltProgram.ExtendTable, address-parsing loop included, of which ExtendAppends is proved. |
| `AltHandlers.DeactivateTable` | src/spl/alt_program.rs:340-390 | Ends in the verdict and slice of AltProgram.DeactivateTable, of which DeactivationSticks is proved. |
| `AltHandlers.CloseTable` | src/spl/alt_program.rs:400-458 | Ends in the verdict and slice of AltProgram.CloseTable, of which CloseEnds is proved. |
| `AltHandlers.Invoke` | src/spl/alt_program.rs:61-89 | The tag picks the handler; short data and unknown tags fail. |
| `TableVerdicts.CreateTableVerdict` | src/spl/alt_program.rs:107-188 | Accepted if and only if every requirement holds, the first unmet one deciding the error; four accounts, a writable blank table derived from authority, slot and bump, signatures of authority and payer, and 1281360 lamports with a writable payer. |
| `TableVerdicts.CreateTableLeaves` | src/spl/alt_program.rs:107-188 | The payer loses 1281360 lamports; the table holds them, the program owns it, and its 56 bytes read as active, never extended and held by the authority. |
| `TableVerdicts.FreezeTableVerdict` | src/spl/alt_program.rs:197-235 | Accepted if and only if every requirement holds, the first unmet one deciding the error; a writable table held by the second account, which signs; only the authority goes. |
| `TableVerdicts.ExtendTableVerdict` | src/spl/alt_program.rs:248-331 | Accepted if and only if every requirement holds, the first unmet one deciding the error; as many addresses as announced, four accounts, a writable active table held by the second account, which signs, and room for 256 in all. |
| `TableVerdicts.ExtendTableLeaves` | src/spl/alt_program.rs:248-331 | The bytes of the new addresses are those of the instruction, behind the old ones; the header gets this slot and their start, and keeps the rest. |
| `TableVerdicts.DeactivateTableVerdict` | src/spl/alt_program.rs:340-390 | Accepted if and only if every requirement holds, the first unmet one deciding the error; a writable active table held by the second account, which signs; only the deactivation slot changes, to this one. |
| `TableVerdicts.CloseTableVerdict` | src/spl/alt_program.rs:400-458 | Accepted if and only if every requirement holds, the first unmet one deciding the error; table and recipient writable, the table held by the second account, which signs, and more than 513 slots past its deactivation. |
| `TableVerdicts.CloseTableLeaves` | src/spl/alt_program.rs:440-458 | The table is left empty, without lamports and system-owned, and the recipient is credited, capped at 64 bits. |
| `TableVerdicts.TableLayout` | src/alt.rs:115-142 | 56 bytes that start with 1 read as a header, with slots at 4 and 12, the start at 20 and the authority at 22 if byte 21 is 1; nothing else does. |
| `TableVerdicts.AddressLayout` | src/alt.rs:180-201 | Address i lies at 56 + 32 i, and is there exactly when it is below the address count. |
| `AltHistory.CreationStartsTable` | src/spl/alt_program.rs:107-188 | A created table is a well-formed, empty, active table of the authority that signed. |
| `AltHistory.ExtendAppends` | src/spl/alt_program.rs:248-331 | A successful Extend puts exactly the instruction's addresses behind the old ones and records the slot and where they start. |
| `AltHistory.Refusals` | src/spl/alt_program.rs:197-458 | A frozen table refuses every instruction; a deactivated one refuses to be extended or deactivated again; an existing one cannot be created again. |
| `AltHistory.DeactivationSticks` | src/spl/alt_program.rs:340-390 | Deactivation takes effect if and only if the clock is below the slot that marks an active table. |
| `AltHistory.FreezeIsLater` | src/spl/alt_program.rs:197-235 | Freezing removes the authority and keeps every address. |
| `AltHistory.CloseEnds` | src/spl/alt_program.rs:400-458 | A close empties the account, and only of an unfrozen table deactivated more than 513 slots ago. |
| `AltHistory.TableHistory` | src/spl/alt_program.rs:197-458 | Over any run of lookup-table instructions and clock moves, and over any Strict run mixing arbitrary programs if the lookup-table program owns the table, a table either ends as a later table (length 56 plus 32 per address, at most 256, no index changed, authority kept or gone, frozen means unchanged, deactivated means same slot and addresses) or was closed, unfrozen and more than 513 slots after its deactivation. |
| `AltHistory.TableOrEmpty` | src/spl/alt_program.rs:107-458 | Over any run of lookup-table instructions, and of any programs under Strict while the lookup-table program owns it, an account that starts empty or as a table is empty or a well-formed table in every later state, re-creation after a close included. |
| `AltHistory.LookupsStable` | src/alt.rs:224-254 | A lookup that resolves keeps its answer in every later table. |
| `AltHistory.ResolutionSurvives` | src/lib.rs:729-762 | Over every such run the harness resolves a table to the same answer unless it has been closed or has cooled down. |
| `AltHistory.ResolveIff` | src/lib.rs:718-762 | The harness resolves a listed table if and only if it holds a header, is active or at most 513 slots past its deactivation, and has an address at every index; it gives each list its own addresses in order. |
| `AltHistory.UnlistedTable` | src/lib.rs:729-762 | A table that is not listed is an unknown account. |
| `TokenHandlers.InitializeMint` | src/spl/token.rs:190-262 | Ends in the verdict and slice of TokenProgram.InitializeMint, of which InitializeMintEffect and InitializeMintNeedsNoSignature are proved; nothing is written unless every check passes. |
| `TokenHandlers.InitializeAccount` | src/spl/token.rs:273-333 | Ends in the verdict and slice of TokenProgram.InitializeAccount, of which InitializeAccountEffect and MintsStayLive are proved. |
| `TokenHandlers.Spend` | src/spl/token.rs:399-443 | The authority and balance checks on the spent account: owner first, then a delegate within its allowance. |
| `TokenHandlers.Transfer` | src/spl/token.rs:345-457 | Ends in the verdict and slice of TokenProgram.Transfer, of which TransferEffect, InvokeSlack and AllowanceHolds are proved. |
| `TokenHandlers.Approve` | src/spl/token.rs:469-509 | Ends in the verdict and slice of TokenProgram.Approve, of which AllowanceHolds and OnlyTheDelegateMoves are proved. |
| `TokenHandlers.Revoke` | src/spl/token.rs:518-547 | Ends in the verdict and slice of TokenProgram.Revoke, of which AllowanceHolds is proved. |
| `TokenHandlers.MintTo` | src/spl/token.rs:559-629 | Ends in the verdict and slice of TokenProgram.MintTo, of which MintToEffect and InvokeSlack are proved. |
| `TokenHandlers.Burn` | src/spl/token.rs:641-718 | Ends in the verdict and slice of TokenProgram.Burn, of which BurnEffect and InvokeSlack are proved. |
| `TokenHandlers.CloseAccount` | src/spl/token.rs:728-777 | Ends in the verdict and slice of TokenProgram.CloseAccount, of which CloseAccountEffect and BundledRunConserves are proved. |
| `TokenHandlers.Invoke` | src/spl/token.rs:81-111 | The tag picks the handler; empty data and unsupported tags fail. |
| `TokenVerdicts.InitializeMintVerdict` | src/spl/token.rs:190-262 | Accepted if and only if every requirement holds, the first unmet one deciding the error; 34 bytes, a writable buffer of at least 82 that holds no live mint; it is left packed with the decimals, mint authority and optional freeze authority given, no supply, and owned by the program. |
| `TokenVerdicts.InitializeAccountVerdict` | src/spl/token.rs:273-333 | Accepted if and only if every requirement holds, the first unmet one deciding the error; a writable buffer of at least 165 bytes that holds no initialised account, and a live mint of the program second; it is left packed as an empty account of that mint owned by the third key. |
| `TokenVerdicts.SpentVerdict` | src/spl/token.rs:399-443 | Spending is allowed if and only if the signer is the owner, or the delegate within its allowance, and the balance is there; a delegate's allowance is used up and the delegate goes with the last of it. |
| `TokenVerdicts.TransferVerdict` | src/spl/token.rs:345-457 | Accepted if and only if every requirement holds, the first unmet one deciding the error; both accounts writable, the third signing, both initialised and of one mint, the signer allowed to spend, and room at the destination. |
| `TokenVerdicts.TransferLeaves` | src/spl/token.rs:345-457 | Source and destination are left packed with exactly the amount moved, and nothing else changes. |
| `TokenVerdicts.ApproveVerdict` | src/spl/token.rs:469-509 | Accepted if and only if every requirement holds, the first unmet one deciding the error; a writable account whose owner is the third account and signs; only delegate and allowance change, to the second key and the amount. |
| `TokenVerdicts.RevokeVerdict` | src/spl/token.rs:518-547 | Accepted if and only if every requirement holds, the first unmet one deciding the error; a writable account whose owner is the second account and signs; only delegate and allowance go. |
| `TokenVerdicts.MintToVerdict` | src/spl/token.rs:559-629 | Accepted if and only if every requirement holds, the first unmet one deciding the error; mint and account writable, the account of that mint, the third account its mint authority and signing, and room in supply and balance. |
| `TokenVerdicts.MintToLeaves` | src/spl/token.rs:559-629 | Mint and account are left packed with exactly the amount added. |
| `TokenVerdicts.BurnVerdict` | src/spl/token.rs:641-718 | Accepted if and only if every requirement holds, the first unmet one deciding the error; account and mint writable, the account of that mint, and the signing third account allowed to spend. |
| `TokenVerdicts.BurnLeaves` | src/spl/token.rs:641-718 | Account and mint are left packed with exactly the amount gone, the supply stopping at zero. |
| `TokenVerdicts.CloseAccountVerdict` | src/spl/token.rs:728-777 | Accepted if and only if every requirement holds, the first unmet one deciding the error; account and destination writable, an empty token account whose owner or close authority is the third account and signs; it is left as 165 zero bytes without lamports and system-owned, and the destination is credited, capped at 64 bits. |
| `TokenVerdicts.MintLife` | src/spl/token.rs:190-629 | After an InitializeMint, a later MintTo on that mint is refused unless the key it named signs third, and accepted if and only if it does and the rest of the slice is in order. |
| `TokenSupply.InitializeMintEffect` | src/spl/token.rs:190-262 | An InitializeMint that succeeds was pointed at no live mint and leaves a live mint with the decimals, the mint authority and the optional freeze authority of its data, and no supply. |
| `TokenSupply.InitializeAccountEffect` | src/spl/token.rs:273-333 | An InitializeAccount that succeeds leaves a live token account of a live mint for the third key, without balance, delegate or close authority. |
| `TokenSupply.TransferEffect` | src/spl/token.rs:345-457 | A transfer only ever happens between live accounts of one mint, and only their amounts and the spent allowance change. |
| `TokenSupply.MintToEffect` | src/spl/token.rs:559-629 | MintTo raises the supply and one account of that mint by the same amount, and no other view changes. |
| `TokenSupply.BurnEffect` | src/spl/token.rs:641-718 | Burn lowers one account and its own mint's supply, and no other view changes. |
| `TokenSupply.CloseAccountEffect` | src/spl/token.rs:728-777 | Only an empty token account closes, and it stops being live. |
| `TokenSupply.InvokeSlack` | src/spl/token.rs:190-777 | Within a slice every instruction moves supply and holdings of every mint together, but for the balance an initialisation overwrites. |
| `TokenSupply.TransferNeverOverflows` | src/spl/token.rs:444-450 | Under the supply invariant the destination's checked addition in a Transfer between two different accounts never fails, however many copies of them the slice holds. |
| `TokenSupply.MintToNeverOverflows` | src/spl/token.rs:609-622 | Under the supply invariant, once the supply check has passed, the destination's checked addition in MintTo never fails. |
| `TokenSupply.BurnNeverSaturates` | src/spl/token.rs:713 | Under the supply invariant Burn's saturating subtraction on the supply is exact. |
| `TokenRuns.StepSlack` | src/spl/token.rs:190-777 | From a backed state and whatever its metas, one token step changes supply minus holdings of each mint by exactly what is written back of it: the amount moved if position 0 is the last naming of its key, less the same amount if position 1 is, plus the balance a successful initialisation writes over. |
| `TokenRuns.LowersSlackIff` | src/engine.rs:222-233 | From a backed state, an accepted token step lowers some mint's supply minus holdings if and only if it is a Transfer, MintTo or Burn of a positive amount whose first account is named again later and whose second is not; it then lowers that of its mint by exactly the amount. |
| `TokenRuns.DistinctMovesEvenly` | src/engine.rs:222-233 | Distinct metas are never of that kind. |
| `TokenSkew.DataWritesPass` | src/validation.rs:151-272 | Whatever the metas, either policy accepts a token instruction whose handler accepts it and only writes data of writable accounts the program owns. |
| `TokenSkew.MovesPassStrict` | src/validation.rs:151-272 | Strict does not stop it: whatever the metas, Strict accepts every Transfer, MintTo and Burn its handler accepts. |
| `TokenSkew.SelfTransferBreaksBacking` | src/engine.rs:226-231 | The condition is met: for any codec and any amount of any supply, a three-account list in balance and one Transfer naming its holder twice that Strict accepts and that leaves exactly that amount more held than the supply. |
| `TokenSkew.SkewedMoveBreaksBacking` | src/engine.rs:226-231 | Any instruction of that kind its handler accepts breaks the supply invariant as soon as the gap of its mint is smaller than the amount. |
| `TokenSkew.StaysBackedIff` | src/engine.rs:222-233 | One token step keeps holdings within supply if and only if it is not such an accepted instruction of an amount above the gap of its mint. |
| `TokenRuns.SupplyCoversHoldings` | src/spl/token.rs:190-777 | Over every run without an accepted token instruction of that kind, whatever the metas, and under Strict with any other programs that hand over no account holding a record already, what is held of each mint never exceeds its supply, and the gap never shrinks. |
| `TokenRuns.ReachableSlicesAreBacked` | src/spl/token.rs:345-718 | In every state such a run reaches, the working copies of any instruction satisfy the hypotheses of the three dead-arm lemmas. |
| `TokenRuns.MintsStayLive` | src/spl/token.rs:273-333 | In every state such a run reaches, every live token account belongs to a live mint and none is frozen. |
| `TokenRuns.KeepsGapsIff` | src/spl/token.rs:190-262 | From a backed state, an accepted token step keeps supply minus holdings of every mint if and only if it moves evenly and no InitializeMint or InitializeAccount is written back over a token account that holds something. |
| `TokenRuns.SupplyEqualsHoldings` | src/spl/token.rs:190-262 | Over such a run supply minus holdings of every mint is the same at the end as at the start if and only if every accepted token instruction writes a moved amount back to both or neither of its accounts and no initialisation is written back over a token account that holds something. |
| `TokenDelegate.AllowanceHolds` | src/spl/token.rs:399-434 | Over every run of token instructions, and over every Strict run mixing arbitrary programs while the token program owns the account, whatever the metas: what was debited against the allowance since the last Approve never exceeds the approved amount, the recorded allowance is exactly the difference, and without a delegate it is zero. A delegate's transfer whose source is named again writes neither the debit nor the spent allowance back, so it counts for neither, although its destination is credited. |
| `TokenDelegate.AllowanceHoldsAlone` | src/spl/token.rs:399-434 | For runs of token instructions alone this needs no Strict validation. |
| `TokenDelegate.OnlyTheDelegateMoves` | src/spl/token.rs:399-434 | In every state such a run reaches, whoever moves tokens out of an account without being its owner is the delegate last approved for it, and signed. |
| `TokenDelegate.SelfTransferInflates` | src/engine.rs:226-231 | The handler's part in it: in a slice of any length, a transfer that names one account as source and destination, and not again, leaves its last copy with the amount added. |
| `TokenAuthority.StepSealedIff` | src/spl/token.rs:399-434 | A token step its owner does not sign leaves such an account receiving only if and only if it is not an accepted InitializeMint written back to it. |
| `TokenAuthority.OnlyTheOwnerSpends` | src/spl/token.rs:399-434 | Over every run of token instructions, and under Strict of arbitrary other programs too, in which the owner signs no token instruction, an account without delegate and close authority ends having only received tokens, everything else kept, if and only if no accepted InitializeMint was written back to it; otherwise it ends as a mint. |
| `TokenAuthority.InitializeMintNeedsNoSignature` | src/spl/token.rs:190-262 | That exception is real: in every list and under either policy, an InitializeMint nobody signs is accepted and turns any live token account into a mint without supply. |
| `TokenAuthority.InitializeMintHandlerIff` | src/spl/token.rs:190-262 | At the handler the account's writable flag alone decides, whatever else the slice holds. |
| `TokenCodec.SplLayoutIsLawful` | src/spl/token.rs:164-177 | A codec with the record layout of SPL tokens meets the hypotheses of the token theorems. |
| `Builtins.BundledIsWellBehaved` | src/lib.rs:596-602 | A registry of the five modelled programs, under any ids, meets the hypotheses of the kernel theorems. |
| `Builtins.ProgramContracts` | src/builtin.rs:104-140 | The five programs charge 150, 4000, 750, 750 and 150 units; each returns its slice or an error with the slice it got; only the compute budget program touches the cells. |
| `Verdicts.FlagsOfFirstMeta` | src/builtin.rs:70-96 | A key signs, or is writable, for a handler if and only if the first meta that names it says so. |
| `Bytes.LittleEndian` | src/system_program.rs:53-70 | Numbers are read lowest byte first, and each width is two halves of the one before. |
| `Base58.SymbolsSpellTheAlphabet` | bindings/python/hopper_svm/core.py:152-154 | The symbols used below are the 58 characters of the alphabet, in order. |
| `Base58.PyEncode` | bindings/python/hopper_svm/core.py:157-173 | The big-integer encoder computes the base58 string: one '1' per leading zero byte, then the shortest numeral. |
| `Base58.PyDecode` | bindings/python/hopper_svm/core.py:176-192 | The big-integer decoder computes the decoding and fails exactly on a character outside the alphabet. |
| `Base58.DecodeEncode` | bindings/python/hopper_svm/core.py:157-192 | Decoding an encoding gives the bytes back, for every byte string, leading zeros included. |
| `Base58.EncodeDecode` | bindings/python/hopper_svm/core.py:157-192 | Decoding succeeds exactly on strings over the alphabet, and encoding the result gives the string back. |
| `Base58InPlace.TsEncode` | bindings/typescript/src/index.ts:504-526 | The in-place digit-carry encoder gives the big-integer encoder's string, plus one symbol exactly when the input is non-empty and all zero. |
| `Base58InPlace.TsDecode` | bindings/typescript/src/index.ts:528-550 | The in-place decoder gives the big-integer decoder's bytes, plus one zero byte exactly when the string is non-empty and all '1'. |
| `Base58InPlace.PushCarry` | bindings/typescript/src/index.ts:510-520 | One outer turn of either converter multiplies the number in the array and adds the new digit; the top digit stays non-zero. |
| `Base58InPlace.CarryThrough` | bindings/typescript/src/index.ts:512-516 | The inner carry loop: the carry stays below the multiplier, 256 when encoding and 58 when decoding. |
| `Base58InPlace.ArrayRoundTrip` | bindings/typescript/src/index.ts:504-550 | The in-place pair is a round trip on a byte string if and only if it is not a non-empty string of zeros. |

## Left out

- Harness.HopperSvm.DispatchOneInner: the Agave engine and the BPF fall-through are not modelled; only registered built-ins run.
- Harness.HopperSvm.ProcessTransaction: the number of distinct signers is required to fit 64 bits, as any real transaction's does; like the other chain methods it is about lists that a vector can hold once each meta has appended an account, and built-ins that keep the length of their slice, which the source's slice type enforces.
- Validation.ValidatePostState: lists longer than a vector can be are excluded; within that bound the sums cannot saturate.
- SystemHandlers.CreateAccountWithSeed: a seed length within 128 of 2^64 makes the source's length sum wrap and its slicing panic; the model reports the too-short-body error there instead.
- SystemHandlers.AssignWithSeed: the same panic on such a seed length is reported as an error.
- SystemHandlers.TransferWithSeed: the same panic on such a seed length is reported as an error.
- AltHandlers.ExtendTable: an address count of 2^59 or more makes the source's length product wrap and its allocation panic; the model reports the too-short-body error there instead.
- Harness.HopperSvm.WarpToSlot: requires an epoch schedule for which the derivation does not divide by zero, where the source panics; where the epoch addition wraps, a release build is modelled and a debug build would panic.
- TokenRuns.SupplyCoversHoldings: other programs in such runs must hand over no account that already holds a mint or token record, since a forged record would count towards supply or holdings.
- Allocation failure on huge account sizes, and every other out-of-memory behaviour.
- Logs, error texts, return data, inner instructions and wall-clock timing of an outcome; mutexes and sharing of the harness between clones.
- The Config, Vote, Associated Token and Token-2022 programs and the token account factories: the kernel theorems, the Strict non-interference of stake, token and table accounts among them, cover them as arbitrary built-ins, and no law here depends on what they compute.
- Airdrop, account seeding and the snapshot calls of the overlay: plain map updates.
- The ComputeBudget meter as an object: `Engine.Execute` keeps its two numbers, the charge and the limit, as local variables.
- The rest of the Python and TypeScript bindings and the foreign-function layer.
