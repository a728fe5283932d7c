# The Solana spoke program, modelled and verified

This project models `svm_spoke`, the Solana side of the Across bridge, and proves what it promises about money
and about identity: no leaf is executed twice, no relay is filled twice, no bundle pays more than its Merkle tree
owes, and every token that leaves a vault is accounted for by the event log. The verification covers all runs,
with arbitrary callers, arbitrary interleavings, failed transactions, and arbitrary token traffic outside the
program.

`dafny verify dfyconfig.toml` checks everything.

## How the model is built

* `Spoke.dfy` defines each instruction as a step: a function of the accounts that yields the accounts afterwards
  and the emitted event, or an error. `Apply` is one transaction, `Next` and `Run` are runs of attempted
  transactions (a failed one changes nothing but the time), `Reaches` is reachability from a freshly initialized
  program while the clock does not go back. The log of a run keeps, for each transaction that went through, its
  time, its arguments, its event and the accounts before it.
* `Program.dfy` is the program in its own imperative form: a class whose methods update its fields in the order in
  which the Rust handlers do, some of them before the last check (the claim bit is set before the leaf's arrays are
  compared, the pending amount is lowered before the burn, accounts are opened before their constraints hold), and
  a runtime that undoes a failed instruction. Every method is proved equal to its step, and processing any list of
  transactions is proved equal to `Run`; so what is proved about runs holds of the class.
* `Merkle.dfy`, `Leaves.dfy`, `Encoders.dfy`, `Bitmap.dfy`, `CallData.dfy`, `Params.dfy` are the byte-level parts.
  `Ledger.dfy` and `Refunds.dfy` are the token moves and the refund loop.
* `Bundles.dfy`, `Payouts.dfy`, `Fills.dfy`, `Accounting.dfy`, `Administration.dfy`, `Deposits.dfy`, `History.dfy`
  and `Entitlements.dfy` prove what is true of runs; `Folds.dfy` and `Commutation.dfy` prove that the order of
  leaf executions does not matter, and exactly when it does.
* `Acceptance.dfy` proves when a step must go through: for each instruction it lists the faults that can stop it,
  on the accounts and the arguments alone, and shows that it succeeds exactly when there is none and otherwise fails
  with the error of one of them. `Frames.dfy` proves what every step leaves alone. `Progress.dfy` puts both together
  over runs: what a run that has come so far still allows, said in terms of its log.

Hash functions are parameters about which nothing is assumed. Where the program relies on them, the theorem says so
explicitly: either it exhibits two different byte strings with the same hash, or it assumes that no two strings of
an explicitly given finite set collide. The six call selectors and discriminators are assumed pairwise distinct
wherever `Distinct` appears.

Integers are the program's: `u32` and `u64` are bounded, and additions and subtractions that would leave the range
fail, as in the program's overflow-checked build. The clock is the time of a transaction, and fits 32 bits.

## Where the code and its documentation differ

The code is modelled as it is. Three places deserve mention.

* `state.rs:16` says that quote times may be off by a buffer into the past or the future, and the error for a bad
  one is `InvalidQuoteTimestamp`. The code rejects every quote time that lies ahead, and with an arithmetic error
  (`deposit.rs:88-93`, as expected by `test/svm/SvmSpoke.Deposit.ts:236-256`). `Deposits.QuoteErrors` and
  `Deposits.AcceptedTimes` state exactly what is accepted.
* Refunding the vault's own token account moves nothing, yet counts as paid in the event, and makes the order of
  leaf executions matter. `Accounting.EventsSuffice`, `Commutation.ExecutionsSwap` and
  `Commutation.SelfRefundMustGoFirst` give the exact conditions and a concrete failing case.
* `close_fill_pda` does not ask for a filled relay, only for a passed deadline, and `execute_v3_slow_relay_leaf`
  does not ask whether fills are paused. The histories in `Fills.Legal` include a request that is closed unfilled.

## Model

| member | source | states |
|---|---|---|
| Program.SpokeProgram.DepositV3 | programs/svm-spoke/src/instructions/deposit.rs:65-127 | The handler, in its own order of checks and updates, does exactly what the deposit step says: same event, same accounts, same error. When that is a success is `Acceptance.DepositAccepted`; what it leaves alone, `Frames.StepFrames`. |
| Program.SpokeProgram.FillV3Relay | programs/svm-spoke/src/instructions/fill.rs:69-147 | The handler, including the opening of the status account and the self-relay shortcut, is the fill step, of which `Acceptance.FillAccepted` says exactly when it succeeds. |
| Program.SpokeProgram.LoadFillAccounts | programs/svm-spoke/src/instructions/fill.rs:20-67 | Which account constraint fails first, and that the status account is opened as Unfilled when it is missing. |
| Program.SpokeProgram.CloseFillPda | programs/svm-spoke/src/instructions/fill.rs:151-179 | The handler is the closing step. |
| Program.SpokeProgram.RequestV3SlowFill | programs/svm-spoke/src/instructions/slow_fill.rs:43-83 | The handler is the request step. |
| Program.SpokeProgram.ExecuteV3SlowRelayLeaf | programs/svm-spoke/src/instructions/slow_fill.rs:169-248 | The handler, with its encoder and proof loop, is the slow-fill step, of which `Acceptance.SlowFillAccepted` says exactly when it succeeds. |
| Program.SpokeProgram.PayRefunds | programs/svm-spoke/src/instructions/bundle.rs:142-185 | The loop pays as the recursive definition does, stops at the first failure with its error, and reports whether anything was deferred. |
| Program.SpokeProgram.LoadRefundAccounts | programs/svm-spoke/src/instructions/bundle.rs:24-58 | The account constraints: the bundle account is grown to the realloc rule's size and the liability account opened. |
| Program.SpokeProgram.ClaimLeaf | programs/svm-spoke/src/instructions/bundle.rs:115-134 | The four checks on a leaf in order, with the claim bit set between the third and the fourth. |
| Program.SpokeProgram.ExecuteRelayerRefundLeaf | programs/svm-spoke/src/instructions/bundle.rs:101-205 | The whole handler is the refund step. |
| Program.SpokeProgram.InitializeClaimAccount | programs/svm-spoke/src/instructions/refund_claims.rs:11-34 | The handler is the step that opens a claim account. |
| Program.SpokeProgram.ClaimRelayerRefund | programs/svm-spoke/src/instructions/refund_claims.rs:75-111 | The handler is the claim step. |
| Program.SpokeProgram.CloseClaimAccount | programs/svm-spoke/src/instructions/refund_claims.rs:132-140 | The handler is the step that closes an empty claim account. |
| Program.SpokeProgram.BridgeTokensToHubPool | programs/svm-spoke/src/instructions/token_bridge.rs:83-123 | The handler, which lowers the debt before the burn, is the bridge step. |
| Program.SpokeProgram.SetEnableRoute | programs/svm-spoke/src/instructions/admin.rs:142-193 | The handler, which opens the route and the vault if needed, is the route step. |
| Program.SpokeProgram.RelayRootBundle | programs/svm-spoke/src/instructions/admin.rs:197-235 | The handler is the relay step, overflow of the bundle counter included. |
| Program.SpokeProgram.Administer | programs/svm-spoke/src/instructions/admin.rs:67-263 | The six owner's calls behind the local-or-remote-owner constraint are their steps. |
| Program.SpokeProgram.TransferOwnership | programs/svm-spoke/src/instructions/admin.rs:104-118 | The handler is the ownership step. |
| Program.SpokeProgram.HandleReceiveMessage | programs/svm-spoke/src/instructions/handle_receive_message.rs:13-49 | Authentication, translation and self-invocation are the receiving step. |
| Program.SpokeProgram.Process | programs/svm-spoke/src/lib.rs:22-220 | A transaction turns the program's world into the next one; a failed instruction leaves no trace, whatever it had already changed. |
| Program.SpokeProgram.ProcessAll | programs/svm-spoke/src/lib.rs:22-220 | Processing a list of transactions is the run of steps over which the theorems below quantify. |
| Spoke.InitializedIsGenesis | programs/svm-spoke/src/instructions/admin.rs:39-63 | Initialization succeeds for seed 0 only, stores each parameter in its own field with both pauses off, and starts a run as the theorems assume. |
| Acceptance.StepStops | programs/svm-spoke/src/lib.rs:22-220 | Every transaction goes through exactly when none of its listed faults is present, and otherwise fails with the error of one that is. |
| Acceptance.FillAccepted | programs/svm-spoke/src/instructions/fill.rs:20-117 | A fast fill succeeds if and only if fills are not paused, both token accounts are in order, the hash is the relay's, exclusivity is over or does not concern the signer, the deadline has not passed, the relay is not filled, and it is a self-relay or there are funds and room. |
| Acceptance.FillStops | programs/svm-spoke/src/error.rs:4-95 | The errors of a fast fill are those of its faults. |
| Acceptance.SlowFillAccepted | programs/svm-spoke/src/instructions/slow_fill.rs:126-219 | A slow fill succeeds if and only if bundle and status account exist, the proof folds to the slow root, the hash is the relay's, the accounts are in order, it is in time, the relay is not filled, and vault and recipient have funds and room. |
| Acceptance.SlowFillStops | programs/svm-spoke/src/instructions/slow_fill.rs:126-198 | The errors of a slow fill are those of its faults. |
| Acceptance.RequestStops | programs/svm-spoke/src/instructions/slow_fill.rs:19-83 | A request succeeds if and only if it is not paused, the hash is right, it lies strictly after exclusivity and by the deadline, and the relay is unfilled and not requested; the event carries the relay. |
| Acceptance.CloseFillStops | programs/svm-spoke/src/instructions/fill.rs:151-179 | Closing succeeds if and only if the account exists, the signer is its relayer, the hash is right, and the deadline has passed. |
| Acceptance.DepositAccepted | programs/svm-spoke/src/instructions/deposit.rs:10-114 | A deposit succeeds if and only if deposits are not paused, the route is enabled, the accounts are in order, the times are in the window, there are funds and room, and the counter is not exhausted. |
| Acceptance.DepositStops | programs/svm-spoke/src/instructions/deposit.rs:10-114 | The errors of a deposit are those of its faults. |
| Acceptance.EntryAccepted | programs/svm-spoke/src/state/refund_account.rs:24-124 | One refund entry is paid if and only if the payee's writable token account of the mint was passed, with funds and room, or exactly its writable claim account, with room; a missing account and any other account have errors of their own. |
| Acceptance.EntriesStop | programs/svm-spoke/src/instructions/bundle.rs:145-185 | The whole loop succeeds if and only if each entry can be paid on the ledger from which the loop starts, after what the earlier entries take from the vault and give to the same payee. |
| Acceptance.RefundStops | programs/svm-spoke/src/instructions/bundle.rs:12-189 | A leaf is executed if and only if bundle and vault exist, the proof folds to the root, chain and lengths are right, its bit is clear, its entries can be paid, and the debt has room; errors are those of its faults. |
| Acceptance.ClaimStops | programs/svm-spoke/src/instructions/refund_claims.rs:36-97 | A claim succeeds if and only if the account is open, holds something, was opened by the given initializer, and vault and token account have funds and room. |
| Acceptance.ClaimAccountsStop | programs/svm-spoke/src/instructions/refund_claims.rs:11-140 | Opening succeeds if and only if the account is not open; closing if and only if it is open, empty, and the signer's. |
| Acceptance.BridgeStops | programs/svm-spoke/src/instructions/token_bridge.rs:18-118 | Bridging succeeds if and only if liability account and vault exist and both cover the amount. |
| Acceptance.AdministerStops | programs/svm-spoke/src/constraints.rs:5-7 | The owner and the program's own authority, and nobody else, may make every call; which calls then still fail, and how. |
| Acceptance.MessageStops | programs/svm-spoke/src/instructions/handle_receive_message.rs:13-119 | A message is acted on if and only if it is authentic, starts with an encoded call, and that call has no fault. |
| Progress.DepositGoesThrough | programs/svm-spoke/src/instructions/deposit.rs:65-114 | In any run, when a deposit goes through, with the buffers and the counter as initialized and the deposits logged; that the route's vault exists need not be asked. |
| Progress.FillGoesThrough | programs/svm-spoke/src/instructions/fill.rs:69-133 | In any run, when a fast fill goes through, with the status of the relay read off the log. |
| Progress.RequestGoesThrough | programs/svm-spoke/src/instructions/slow_fill.rs:43-83 | In any run a request goes through exactly between exclusivity and deadline for a relay without history or with a closed one, and leaves it requested. |
| Progress.RequestedSlowFillGoesThrough | programs/svm-spoke/src/instructions/slow_fill.rs:169-248 | In any run a relay last heard of as requested gets the slow fill that a live bundle's tree grants, in time and funded, and is then filled. |
| Progress.RequestThenSlowFill | programs/svm-spoke/src/instructions/slow_fill.rs:43-248 | A timely request followed by a timely execution of a leaf of the slow tree with its proof and a funded vault goes through. |
| Progress.CloseGoesThrough | programs/svm-spoke/src/instructions/fill.rs:151-179 | In any run the relayer on record, and nobody else, may close an open status account, exactly after the deadline. |
| Progress.LeafGoesThrough | programs/svm-spoke/src/instructions/bundle.rs:101-205 | In any run a well-formed leaf of a live bundle's tree that was not executed before executes with its proof exactly when the vault exists, its entries can be paid, and the debt has room. |
| Progress.DeferredIsClaimable | programs/svm-spoke/src/instructions/refund_claims.rs:75-111 | In any run exactly what was deferred and not yet claimed can be claimed, for the account's opener, once the vault holds it. |
| Progress.BridgeGoesThrough | programs/svm-spoke/src/instructions/token_bridge.rs:83-118 | In any run exactly what was authorised and not yet bridged can be bridged, as far as the vault holds it. |
| Progress.RelayGoesThrough | programs/svm-spoke/src/instructions/admin.rs:197-235 | In any run the owner can relay a bundle until the ids run out; the next id is never taken. |
| Frames.StepFrames | programs/svm-spoke/src/state/state.rs:5-18 | No step changes chain id, remote domain or buffers; token accounts keep mint and owner, and steps that move no tokens leave them alone; only a refund opens a liability account, and only its own. |
| Frames.StepReports | programs/svm-spoke/src/event.rs:3-134 | The event of each step that goes through, field by field. |
| Frames.SettingsNeverChange | programs/svm-spoke/src/instructions/admin.rs:39-63 | Over any run chain id, remote domain and both buffers are as initialized, and a liability account exists exactly for the mints of executed leaves. |
| Frames.VaultsStay | programs/svm-spoke/src/instructions/admin.rs:161-169 | Once the program has a vault for a mint it has it for good. |
| Frames.ReachableRoutes | programs/svm-spoke/src/instructions/admin.rs:142-193 | In any run the token of every route has a vault under the program's authority. |
| Bundles.LiveBundlesAreHistory | programs/svm-spoke/src/instructions/admin.rs:197-263 | A bundle account exists exactly while its bundle is relayed and not deleted. |
| Entitlements.ClaimAccountsAreHistory | programs/svm-spoke/src/instructions/refund_claims.rs:11-140 | A claim account exists exactly while it is opened and neither claimed nor closed, with its opener as initializer. |
| Bundles.ExecutedAtMostOnce | programs/svm-spoke/src/instructions/bundle.rs:123-127 | In any run, deletions included, no leaf id is executed twice under the same bundle id. |
| Bundles.BitmapIsHistory | programs/svm-spoke/src/instructions/admin.rs:221-263 | The bitmap of a live bundle denotes exactly the leaf ids executed under its id; it fits its account; live ids are below the counter. |
| Bundles.ReachableBundles | programs/svm-spoke/src/instructions/bundle.rs:101-205 | The invariant behind both: ids are never reused, logged executions were proved against the relayed root, have equal-length arrays, this chain's id, and distinct leaf ids. |
| Bundles.StepChangesBundles | programs/svm-spoke/src/instructions/admin.rs:197-263 | All that any instruction can do to the bundles, by the event it emits. |
| Payouts.PayoutBound | programs/svm-spoke/src/instructions/bundle.rs:115-185 | In any run a bundle relayed with a tree's root has paid, per mint, at most what the tree's leaves for this chain owe; the rest is exactly what the leaves not yet executed owe. Assumes only that the strings hashed for this tree and these proofs do not collide. |
| Payouts.PayoutComplete | programs/svm-spoke/src/instructions/bundle.rs:115-185 | Once all leaves for this chain are executed the bundle has paid exactly what its tree owes. |
| Payouts.AcceptedLeafIsOwed | programs/svm-spoke/src/instructions/bundle.rs:115-134 | An accepted leaf is one of the tree's Solana leaves: not an inner node, not an EVM leaf, not another leaf with the same bytes. |
| Payouts.PaidIsExecuted | programs/svm-spoke/src/instructions/bundle.rs:192-202 | The refunds summed from the emitted events are the refunds of the executed leaves. |
| Fills.FillHistory | programs/svm-spoke/src/instructions/slow_fill.rs:43-83 | In any run, for every relay hash, the status account agrees with the log, is never Unfilled, and the log shows one of the few legal histories with times in order, unless two visits to the hash carry different relay data, which is a collision. |
| Fills.FilledAtMostOnce | programs/svm-spoke/src/instructions/fill.rs:88-117 | Two fills under one relay hash, by any mix of fast fills, slow fills, bundles and closing, exhibit a collision. |
| Fills.RelayDataFilledAtMostOnce | programs/svm-spoke/src/instructions/fill.rs:169-179 | The same relay data filled twice exhibits a collision. |
| Fills.SlowFollowsRequest | programs/svm-spoke/src/instructions/slow_fill.rs:189-198 | A slow or a replacing fill is the second visit, right after the one request, which came strictly after the exclusivity deadline, or there is a collision; although the code only tests for not Filled. |
| Fills.StepChangesFills | programs/svm-spoke/src/instructions/fill.rs:88-147 | What any instruction can do to status accounts, what it must have found, and when. |
| Fills.ReachableFills | programs/svm-spoke/src/instructions/slow_fill.rs:43-248 | The invariant: status and recorded relayer of every account are determined by the log. |
| History.EntryMadeIn | programs/svm-spoke/src/lib.rs:22-220 | Every logged transaction applied in a reachable world, the one before it. |
| History.SlowFillWasGranted | programs/svm-spoke/src/instructions/slow_fill.rs:169-248 | Every slow fill in a run was proved against a bundle relayed before it, and is word for word a leaf of the tree relayed as its slow root, barring a collision of the strings hashed. |
| History.AcceptedSlowLeaf | programs/svm-spoke/src/instructions/slow_fill.rs:94-114 | An accepted slow-fill leaf determines relay data, chain and amount of a leaf in the tree. |
| Refunds.PayeesArePaid | programs/svm-spoke/src/instructions/bundle.rs:145-185 | Each payee's balance and outstanding claim together grow by the sum of its entries, duplicates included. |
| Refunds.VaultPaysTheSum | programs/svm-spoke/src/instructions/bundle.rs:145-185 | The vault less outstanding claims falls by exactly the sum of the amounts, however the payees were passed; only refunds from the vault to itself stay in. |
| Refunds.RefundsConfluent | programs/svm-spoke/src/state/refund_account.rs:24-50 | Two successful executions with different refund accounts passed leave every payee and the vault equally well off. |
| Refunds.ClaimsGrow | programs/svm-spoke/src/instructions/bundle.rs:175-183 | A claim account grows by exactly the deferred entries of its token account. |
| Refunds.OtherMintsUntouched | programs/svm-spoke/src/instructions/bundle.rs:145-185 | Balances and claims of other mints are unchanged. |
| Refunds.PayOneEffect | programs/svm-spoke/src/state/refund_account.rs:24-124 | An entry that is paid either moves the amount from the vault to the payee's account or adds it to the payee's claim, and changes nothing else; `Acceptance.EntryAccepted` says exactly when it is paid. |
| Accounting.BooksBalance | programs/svm-spoke/src/instructions/refund_claims.rs:75-111 | In any run, per mint and claim account: vault less claims equals the start plus deposits less refunds, slow fills and bridged amounts, as folded from the events, plus gifts that are never negative; deferred equals claimed plus still claimable; authorised for the hub equals bridged plus pending. |
| Accounting.EventsSuffice | programs/svm-spoke/src/instructions/deposit.rs:99-124 | The events alone account for the vault exactly when nothing was given to it silently; otherwise the vault only holds more. |
| Accounting.StepAccounted | programs/svm-spoke/src/instructions/token_bridge.rs:83-123 | Every step changes the vault's net worth by what its event says plus its gift. |
| Accounting.StepBooked | programs/svm-spoke/src/instructions/bundle.rs:175-189 | Every step changes claims and the debt to the hub by what it defers, claims, authorises and bridges. |
| Accounting.BridgeInParts | programs/svm-spoke/src/instructions/token_bridge.rs:83-118 | Bridging a list of parts succeeds exactly when both the pending debt and the vault cover the sum, and then bridges the sum. |
| Accounting.SplitsAgree | programs/svm-spoke/src/instructions/token_bridge.rs:83-118 | Any two splits of the same amount succeed together and end in the same accounts. |
| Commutation.ExecutionsSwap | programs/svm-spoke/src/instructions/bundle.rs:123-189 | Two executions that go through in one order go through in the other, with the same accounts at the end, if and only if the vault still covers the first one's refunds to itself. |
| Commutation.ExecutionsPermute | programs/svm-spoke/src/instructions/bundle.rs:101-205 | A list of distinct leaves without such refunds executes in every order if in one, with the same balances, claims, debts, bitmap bytes and account sizes. |
| Commutation.SelfRefundMustGoFirst | programs/svm-spoke/src/instructions/bundle.rs:160-173 | The condition is needed: two leaves, one refunding the vault itself, that execute in one order only. |
| Commutation.ListsSwap | programs/svm-spoke/src/instructions/bundle.rs:145-185 | Two lists of refunds exchange, with the same ledger, exactly when the vault's payments to itself stay covered. |
| Administration.RemoteRefinesLocal | programs/svm-spoke/src/instructions/handle_receive_message.rs:16-27 | A message with the right domain and sender does exactly what the owner's own transaction would, failures included. |
| Administration.MessagesAreOwnerCalls | programs/svm-spoke/src/instructions/handle_receive_message.rs:51-119 | Conversely a message has no effect but that of the owner's call its body starts with. |
| Administration.OwnerChangesBySignature | programs/svm-spoke/src/instructions/admin.rs:104-118 | Over any run the owner changes only by transfers that the owner of the time signed. |
| Administration.ConfigIsObserved | programs/svm-spoke/src/instructions/admin.rs:67-193 | The pauses, the cross-domain admin and the routes are at any time what the events so far, remote ones included, say they are. |
| Entitlements.FillPays | programs/svm-spoke/src/instructions/fill.rs:78-133 | A logged fast fill was outside exclusivity or by the exclusive relayer, while not paused, moved the full output amount to the recipient's own account, and reported the relay and the requested repayment. |
| Entitlements.SlowFillPays | programs/svm-spoke/src/instructions/slow_fill.rs:200-219 | A logged slow fill moved the updated amount from the vault to the recipient's own account. |
| Entitlements.ClaimPays | programs/svm-spoke/src/instructions/refund_claims.rs:75-111 | A logged claim paid the whole outstanding claim to the account it was deferred for, closed it, and left other claims alone. |
| Entitlements.RefundPays | programs/svm-spoke/src/instructions/bundle.rs:145-202 | A logged refund paid each account what the leaf owes it, in balance and claim together, and reported leaf, executor and whether anything was deferred. |
| Entitlements.ClaimsGoBackToOpener | programs/svm-spoke/src/instructions/refund_claims.rs:43-140 | In any run a claim account is claimed only with, and closed only by, whoever last opened it; and closed by hand only when empty. |
| Entitlements.ClosedByRelayer | programs/svm-spoke/src/instructions/fill.rs:151-179 | A status account is closed only by whoever last filled fast or requested, after the deadline. |
| Entitlements.AdminSignedByOwner | programs/svm-spoke/src/constraints.rs:5-7 | Every direct owner's call was signed by whom the logged transfers had made the owner, and its event reports exactly that call. |
| Entitlements.MessageAuthenticated | programs/svm-spoke/src/instructions/handle_receive_message.rs:16-27 | Every effective message came through the transmitter, from the configured domain and sender; its body starts with an encoded call, and the event reports that call. |
| Deposits.DepositIds | programs/svm-spoke/src/instructions/deposit.rs:108-114 | Deposits are numbered without gaps, on from the initial number. |
| Deposits.DepositIdsIncrease | programs/svm-spoke/src/instructions/deposit.rs:108-114 | No two deposits of a run share an id. |
| Deposits.DepositMoves | programs/svm-spoke/src/instructions/deposit.rs:65-127 | A logged deposit was in its window on an enabled route, and moved its input amount into the vault. |
| Deposits.AcceptedTimes | programs/svm-spoke/src/instructions/deposit.rs:85-98 | A deposit's times are accepted if and only if they are in the window and the end of the window does not overflow. |
| Deposits.QuoteErrors | programs/svm-spoke/src/state/state.rs:16 | Which error a bad quote time gets: the named one only when it is too old, an arithmetic one whenever it lies ahead. |
| Merkle.Soundness | programs/svm-spoke/src/utils/merkle_proof_utils.rs:11-40 | An accepted string is a leaf of the tree, or the extractor returns two distinct strings of equal hash, one hashed in the tree and one for the proof. |
| Merkle.AcceptedIsMember | programs/svm-spoke/src/utils/merkle_proof_utils.rs:11-18 | Without collisions among the strings hashed, an accepted leaf is a member. |
| Merkle.Completeness | programs/svm-spoke/src/utils/merkle_proof_utils.rs:22-28 | Every leaf of every binary tree has a proof that folds to the root. |
| Merkle.SwapKeepsProofs | programs/svm-spoke/src/utils/merkle_proof_utils.rs:31-33 | Exchanging siblings at any node keeps the root and exactly the same proofs. |
| Merkle.ProcessProofLoop | programs/svm-spoke/src/utils/merkle_proof_utils.rs:22-28 | The loop computes the fold. |
| Merkle.PairBytesInjective | programs/svm-spoke/src/utils/merkle_proof_utils.rs:31-40 | The sorted pair determines the unordered pair of children; which of them comes first is `Merkle.PairBytesSorted`. |
| Merkle.PairBytesSorted | programs/svm-spoke/src/utils/merkle_proof_utils.rs:31-40 | The hash that is the smaller 256-bit number comes first, whichever way the pair is given. |
| Merkle.ProofStep | programs/svm-spoke/src/utils/merkle_proof_utils.rs:22-33 | Each proof element is hashed with what is below it, the smaller number first; the empty proof folds to the leaf. |
| Merkle.RootOfNode | programs/svm-spoke/src/utils/merkle_proof_utils.rs:31-40 | A node of the tree hashes its children with the smaller number first. |
| Binary.LessIsNumeric | programs/svm-spoke/src/utils/merkle_proof_utils.rs:31-33 | On byte strings of one length the order is that of the numbers they stand for. |
| Binary.LessTrichotomy | programs/svm-spoke/src/utils/merkle_proof_utils.rs:31-33 | The lexicographic order on byte strings is total and antisymmetric. |
| Leaves.RelayPreimageInjective | programs/svm-spoke/src/utils/merkle_proof_utils.rs:5-9 | The relay hash's preimage determines relay data and chain id. |
| Leaves.SlowFillInjective | programs/svm-spoke/src/instructions/slow_fill.rs:94-114 | The slow-fill bytes determine all fields, although the message has no length prefix. |
| Leaves.RefundLeafInjective | programs/svm-spoke/src/instructions/bundle.rs:78-93 | Two refund leaves with the same bytes are equal if and only if they have equally many amounts. |
| Leaves.EqualLengthLeafInjective | programs/svm-spoke/src/instructions/bundle.rs:132-134 | On leaves that pass the handler's length check the bytes determine the leaf. |
| Leaves.UnequalLengthsAreAmbiguous | programs/svm-spoke/src/instructions/bundle.rs:132-134 | Without that check they do not: two different leaves with the same bytes. |
| Leaves.DomainSeparation | test/svm/utils.ts:177-199 | No leaf has the 64 bytes of an inner node, and Solana and EVM leaves differ in length modulo 8. |
| Leaves.EvmLeafReadsBack | test/svm/utils.ts:177-199 | Read by the offsets that the ABI encoding carries, every field of an EVM leaf comes back. |
| Leaves.RefundLeafSize | programs/svm-spoke/src/instructions/bundle.rs:78-93 | A refund leaf has 52 bytes, 8 for each amount and 32 for each account. |
| Leaves.SlowFillSize | programs/svm-spoke/src/instructions/slow_fill.rs:94-114 | A slow-fill leaf has 212 bytes and its message. |
| Encoders.RefundLeafToBytes | programs/svm-spoke/src/instructions/bundle.rs:78-93 | The loops that append to the buffer produce the leaf's bytes. |
| Encoders.SlowFillToBytes | programs/svm-spoke/src/instructions/slow_fill.rs:94-114 | The appends produce the slow-fill bytes. |
| Encoders.GetV3RelayHash | programs/svm-spoke/src/utils/merkle_proof_utils.rs:5-9 | Serializing relay data and chain id and hashing gives the relay hash. |
| Encoders.ClientRefundLeafAgrees | test/svm/utils.ts:153-175 | The client encodes a refund leaf if and only if every field is in range, and then byte for byte as the program. |
| Encoders.ClientRelayDataAgrees | src/SvmUtils.ts:124-148 | So does the client's encoding of relay data, and (test/svm/utils.ts:220-240) of slow-fill leaves. |
| Bitmap.ClaimedIsBit | programs/svm-spoke/src/utils/bitmap_utils.rs:1-10 | An index is claimed exactly when bit index mod 8, from the least significant, of byte index / 8 is one. |
| Bitmap.SetClaimedAdds | programs/svm-spoke/src/utils/bitmap_utils.rs:12-20 | Setting a bit adds exactly that index to the set the bitmap denotes, across resizes. |
| Bitmap.ReallocFits | programs/svm-spoke/src/instructions/bundle.rs:24-34 | The realloc rule keeps the account exactly as long as its bitmap needs, and never shrinks it. |
| Bitmap.SetClaimedCommutes | programs/svm-spoke/src/utils/bitmap_utils.rs:12-20 | The order of claims leaves no trace in bytes or account size. |
| Bitmap.ClaimedBitmap.IsSet | programs/svm-spoke/src/utils/bitmap_utils.rs:1-10 | The in-place read is membership in the denoted set. |
| Bitmap.ClaimedBitmap.Set | programs/svm-spoke/src/utils/bitmap_utils.rs:12-20 | The in-place update adds one index to the denoted set. |
| CallData.TranslateExact | programs/svm-spoke/src/instructions/handle_receive_message.rs:51-90 | Data is accepted if and only if it starts with the ABI encoding of one of the six calls. |
| CallData.TranslateComplete | programs/svm-spoke/src/instructions/handle_receive_message.rs:51-90 | Every encoded call, followed by anything, is translated to the Anchor data of the same call. |
| CallData.TranslateSound | programs/svm-spoke/src/instructions/handle_receive_message.rs:51-90 | Whatever is translated starts with the encoding of the call it is translated to. |
| CallData.DispatchOfAnchorData | programs/svm-spoke/src/utils/cctp_utils.rs:11-21 | The Anchor data decodes to the call it was made from. |
| CallData.CallsByName | programs/svm-spoke/src/utils/cctp_utils.rs:11-28 | Selector and discriminator of each call are the first bytes of the hashes of its two names. |
| CallData.DecodesInRange | programs/svm-spoke/src/utils/cctp_utils.rs:43-82 | A word decodes as a bool, u32 or u64 if and only if its 256-bit value is in range, and then to that value. |
| CallData.Halves | programs/svm-spoke/src/utils/cctp_utils.rs:66-82 | The two 128-bit halves decide about the 256-bit value. |
| CallData.DecodeAddressLoop | programs/svm-spoke/src/utils/cctp_utils.rs:84-91 | The loop accepts exactly the words with twelve leading zero bytes. |
| CallData.SelfInvocationAccounts | programs/svm-spoke/src/instructions/handle_receive_message.rs:95-110 | The self-invoked instruction gets the program's authority as signer and then the remaining accounts unchanged. |
| Params.WriteFragment | programs/svm-spoke/src/instructions/instruction_params.rs:36-53 | The in-place write replaces exactly the fragment's range; a fragment out of range is refused and changes nothing. |
| Params.FragmentsReassemble | programs/svm-spoke/src/instructions/instruction_params.rs:36-53 | Fragments of any size, order and overlap that agree with some data yield it if and only if they cover every byte that was not right already. |
| Params.Upload | test/svm/utils.ts:268-271 | The client's loop of 900-byte fragments writes the whole buffer. |
| Params.DeserializeOfSerialize | programs/svm-spoke/src/state/instruction_params.rs:6-12 | The program reads back the parameters that the client serialized. |
| Params.PrepareAndLoad | test/svm/utils.ts:242-274 | Serialized, uploaded in fragments and loaded, the parameters are the prepared ones. |

## Left out

- The EVM contracts (hub pool, EVM spoke pools, adapters) and the LP-fee arithmetic: their sources are not in the repository.
- Deploy scripts, tasks, command-line scripts, event-reading clients and lookup tables: network plumbing.
- Keccak and SHA-256 internals and account derivation: hashes are parameters; derived accounts are keyed by what they are derived from, and associated token accounts by a function of owner and mint.
- Rent, lamports, compute limits, the runtime's cap on reallocation, and who receives the lamports of a closed account.
- Token program details: decimals, program ids, frozen accounts, delegates, transfer fees. A transfer is a move that fails on insufficient funds or overflow; the owner of a token account can leave it in any state at any time, but nobody outside the program can spend from or re-assign an account under the program's authority.
- The bridge's internals: a burn is a debit of the vault; its limits, its rejection of zero amounts, nonces and attestations are external.
- The test build: its settable clock and its several seeds are disabled in production (`testable.rs:28-57`).
- The framework's loading of accounts beyond the constraints modelled: discriminators, program ownership, duplicate mutable accounts. Refund accounts are token or claim accounts by their key.
- Which account holds the parameters of a refund: the step takes the leaf, proof and bundle id as arguments; `Params.dfy` proves how they get into the account.
- Order among failures that several account constraints would raise together: the model fixes the order in which the accounts are declared.
