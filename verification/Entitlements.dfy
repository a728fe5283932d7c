/** What each logged transaction was entitled to, and whom it paid, at the moment it was made. */
module Entitlements {
  import opened Binary
  import opened Results
  import opened Leaves
  import opened Ledger
  import opened CallData
  import opened Spoke
  import opened Refunds
  import opened Fills
  import opened History
  import opened Administration

  /** From before to after, the amount moved between two accounts, which may be one, and nothing else did. */
  ghost predicate Moved(before: Ledger, after: Ledger, from: Pubkey, to: Pubkey, amount: u64)
  {
    forall key :: Balance(after, key)
      == Balance(before, key) - (if key == from then amount else 0) + (if key == to then amount else 0)
  }

  /** The accounts that entry e left. */
  function Left(env: Env, e: Entry): Accounts
    requires Apply(env, e.before, e.now, e.step).Ok?
  {
    Apply(env, e.before, e.now, e.step).value.accounts
  }

  /**
   A fast fill was made while fills were not paused, outside exclusivity or by the exclusive relayer, on
   the relay's own hash, and moved the full output amount from the filler's account to the recipient's.
   */
  lemma FillPays(env: Env, w0: World, w: World, k: nat)
    requires Reaches(env, w0, w) && k < |w.log| && w.log[k].step.Fill?
    ensures var e, rd := w.log[k], w.log[k].step.rd;
            var to := env.ata(rd.recipient, rd.outputToken);
            && !e.before.state.pausedFills
            && (rd.exclusivityDeadline < e.now || rd.exclusiveRelayer == e.step.signer
                || rd.exclusiveRelayer == DEFAULT_PUBKEY)
            && Apply(env, e.before, e.now, e.step).Ok?
            && Moved(e.before.ledger, Left(env, e).ledger, e.step.relayerToken, to, rd.outputAmount)
            && TokenOk(e.before.ledger, e.step.relayerToken, rd.outputToken, e.step.signer)
            && TokenOk(e.before.ledger, to, rd.outputToken, rd.recipient)
            && e.event.FilledV3Relay? && e.event.filled == rd && e.event.updatedOutputAmount == rd.outputAmount
            && e.event.repaymentChainId == e.step.repaymentChainId && e.event.relayer == e.step.repaymentAddress
  {
    var u := EntryMadeIn(env, w0, w, k);
    var e, rd := w.log[k], w.log[k].step.rd;
    var to := env.ata(rd.recipient, rd.outputToken);
    if e.step.relayerToken != to {
      TransferBalances(e.before.ledger, e.step.relayerToken, to, rd.outputToken, e.step.signer, rd.outputAmount);
    }
  }

  lemma SlowFillMoves(env: Env, a: Accounts, now: u32, step: Step)
    requires step.ExecuteSlowFill? && Apply(env, a, now, step).Ok?
    ensures var rd := step.rd;
            var vault, to := env.ata(env.statePda, rd.outputToken), env.ata(rd.recipient, rd.outputToken);
            && Moved(a.ledger, Apply(env, a, now, step).value.accounts.ledger, vault, to, step.updatedOutputAmount)
            && TokenOk(a.ledger, to, rd.outputToken, rd.recipient)
  {
    var rd, vault := step.rd, VaultFor(env, step.rd.outputToken);
    TransferBalances(a.ledger, vault.key, env.ata(rd.recipient, rd.outputToken), vault.mint, vault.authority,
                     step.updatedOutputAmount);
  }

  /** A slow fill moved the updated output amount from the vault to the recipient's account. */
  lemma SlowFillPays(env: Env, w0: World, w: World, k: nat)
    requires Reaches(env, w0, w) && k < |w.log| && w.log[k].step.ExecuteSlowFill?
    ensures var e, rd := w.log[k], w.log[k].step.rd;
            var vault, to := env.ata(env.statePda, rd.outputToken), env.ata(rd.recipient, rd.outputToken);
            && Apply(env, e.before, e.now, e.step).Ok?
            && Moved(e.before.ledger, Left(env, e).ledger, vault, to, e.step.updatedOutputAmount)
            && TokenOk(e.before.ledger, to, rd.outputToken, rd.recipient)
  {
    var u := EntryMadeIn(env, w0, w, k);
    SlowFillMoves(env, w.log[k].before, w.log[k].now, w.log[k].step);
  }

  /**
   A refund paid every account but the vault what the leaf owes it, in balance and claim together, and reported
   the leaf, its executor, and whether anything was deferred.
   */
  lemma RefundPays(env: Env, w0: World, w: World, k: nat, payee: Pubkey)
    requires Reaches(env, w0, w) && k < |w.log| && w.log[k].step.ExecuteRefund?
    requires payee != env.ata(env.statePda, w.log[k].step.leaf.mint)
    ensures var e, leaf := w.log[k], w.log[k].step.leaf;
            var key, n := ClaimKey(leaf.mint, payee), |leaf.refundAmounts|;
            && Apply(env, e.before, e.now, e.step).Ok? && EqualLengths(leaf)
            && var after := Left(env, e).ledger;
            && Balance(after, payee) + CurrentClaim(after, key)
               == Balance(e.before.ledger, payee) + CurrentClaim(e.before.ledger, key) + Owed(leaf, payee, n)
            && CurrentClaim(after, key) == CurrentClaim(e.before.ledger, key) + Deferred(leaf, e.step.infos, payee, n)
            && e.event == ExecutedRelayerRefundRoot(e.step.bundleId, leaf, AnyDeferred(e.step.infos, n), e.step.signer)
  {
    var u := EntryMadeIn(env, w0, w, k);
    var e, leaf := w.log[k], w.log[k].step.leaf;
    var v, n := VaultFor(env, leaf.mint), |leaf.refundAmounts|;
    RefundIs(env, e.before, e.now, e.step);
    PayeesArePaid(v, e.before.ledger, leaf, e.step.infos, n, payee);
    ClaimsGrow(v, e.before.ledger, leaf, e.step.infos, n, ClaimKey(leaf.mint, payee));
  }

  lemma RefundIs(env: Env, a: Accounts, now: u32, step: Step)
    requires step.ExecuteRefund? && Apply(env, a, now, step).Ok?
    ensures EqualLengths(step.leaf)
    ensures var paid := PayFirst(VaultFor(env, step.leaf.mint), a.ledger, step.leaf, step.infos,
                                 |step.leaf.refundAmounts|);
            paid.Ok? && Apply(env, a, now, step).value.accounts.ledger == paid.value
    ensures Apply(env, a, now, step).value.event
            == ExecutedRelayerRefundRoot(step.bundleId, step.leaf, AnyDeferred(step.infos, |step.leaf.refundAmounts|),
                                         step.signer)
  {
  }

  /** A claim paid the whole of what was deferred to the account it was deferred for, and closed the claim. */
  lemma ClaimPays(env: Env, w0: World, w: World, k: nat)
    requires Reaches(env, w0, w) && k < |w.log| && w.log[k].step.Claim?
    ensures var e, key := w.log[k], w.log[k].step.key;
            var amount := CurrentClaim(e.before.ledger, key);
            && Apply(env, e.before, e.now, e.step).Ok?
            && amount > 0
            && Moved(e.before.ledger, Left(env, e).ledger, env.ata(env.statePda, key.mint), key.tokenAccount, amount)
            && key !in Left(env, e).ledger.claims
            && (forall other :: other != key ==>
                  CurrentClaim(Left(env, e).ledger, other) == CurrentClaim(e.before.ledger, other))
            && e.event == ClaimedRelayerRefund(key.mint, amount, key.tokenAccount)
  {
    var u := EntryMadeIn(env, w0, w, k);
    var e, key, vault := w.log[k], w.log[k].step.key, VaultFor(env, w.log[k].step.key.mint);
    TransferBalances(e.before.ledger, vault.key, key.tokenAccount, vault.mint, vault.authority,
                     CurrentClaim(e.before.ledger, key));
  }

  // ---------- Who opened a claim account ----------

  /** The initializer of a claim account that exists. */
  function Opener(claims: map<ClaimKey, ClaimAccount>, key: ClaimKey): Option<Pubkey>
  {
    if key in claims then Some(claims[key].initializer) else None
  }

  /** Who opened the claim account that a step leaves: claiming and closing by hand remove it. */
  function OpenerAfter(opener: Option<Pubkey>, step: Step, key: ClaimKey): Option<Pubkey>
  {
    if step.InitializeClaim? && step.key == key then Some(step.signer)
    else if (step.Claim? || step.CloseClaim?) && step.key == key then None
    else opener
  }

  /** Who opened the claim account that a log leaves, if it leaves one. */
  function OpenerIn(before: map<ClaimKey, ClaimAccount>, log: seq<Entry>, key: ClaimKey): Option<Pubkey>
  {
    if log == [] then Opener(before, key)
    else OpenerAfter(OpenerIn(before, log[..|log| - 1], key), log[|log| - 1].step, key)
  }

  ghost predicate KeepsOpener(a: Accounts, step: Step, b: Accounts, key: ClaimKey)
  {
    Opener(b.ledger.claims, key) == OpenerAfter(Opener(a.ledger.claims, key), step, key)
  }

  lemma AdministerKeepsOpener(env: Env, a: Accounts, signer: Pubkey, call: AdminCall, mintAccount: Pubkey, step: Step,
                              key: ClaimKey)
    requires (step.Admin? || step.Receive?) && Administer(env, a, signer, call, mintAccount).Ok?
    ensures KeepsOpener(a, step, Administer(env, a, signer, call, mintAccount).value.accounts, key)
  {
  }

  lemma TransfersKeepOpener(env: Env, a: Accounts, t: Transaction, key: ClaimKey)
    requires t.step.Deposit? || t.step.Fill? || t.step.ExecuteSlowFill?
    requires Apply(env, a, t.now, t.step).Ok?
    ensures KeepsOpener(a, t.step, Apply(env, a, t.now, t.step).value.accounts, key)
  {
  }

  lemma ClaimStepsKeepOpener(env: Env, a: Accounts, t: Transaction, key: ClaimKey)
    requires t.step.InitializeClaim? || t.step.Claim? || t.step.CloseClaim? || t.step.Bridge?
    requires Apply(env, a, t.now, t.step).Ok?
    ensures KeepsOpener(a, t.step, Apply(env, a, t.now, t.step).value.accounts, key)
  {
  }

  lemma OtherStepsKeepOpener(env: Env, a: Accounts, t: Transaction, key: ClaimKey)
    requires t.step.CloseFill? || t.step.RequestSlowFill? || t.step.TransferOwner? || t.step.External?
    requires Apply(env, a, t.now, t.step).Ok?
    ensures KeepsOpener(a, t.step, Apply(env, a, t.now, t.step).value.accounts, key)
  {
  }

  lemma StepKeepsOpener(env: Env, a: Accounts, t: Transaction, key: ClaimKey)
    requires Apply(env, a, t.now, t.step).Ok?
    ensures KeepsOpener(a, t.step, Apply(env, a, t.now, t.step).value.accounts, key)
  {
    match t.step
    case ExecuteRefund(_, _, leaf, _, infos) =>
      RefundIs(env, a, t.now, t.step);
      PayFirstShape(VaultFor(env, leaf.mint), a.ledger, leaf, infos, |leaf.refundAmounts|);
    case Admin(signer, call, mintAccount) =>
      AdministerKeepsOpener(env, a, signer, call, mintAccount, t.step, key);
    case Receive(_, _, _, _, body, mintAccount) =>
      AdministerKeepsOpener(env, a, env.selfAuthority, ReceivedCall(env, body).value, mintAccount, t.step, key);
    case _ =>
      if t.step.Deposit? || t.step.Fill? || t.step.ExecuteSlowFill? {
        TransfersKeepOpener(env, a, t, key);
      } else if t.step.InitializeClaim? || t.step.Claim? || t.step.CloseClaim? || t.step.Bridge? {
        ClaimStepsKeepOpener(env, a, t, key);
      } else {
        OtherStepsKeepOpener(env, a, t, key);
      }
  }

  ghost predicate OpenerOk(before: map<ClaimKey, ClaimAccount>, w: World, key: ClaimKey)
  {
    Opener(w.accounts.ledger.claims, key) == OpenerIn(before, w.log, key)
  }

  lemma {:induction false} RunKeepsOpener(env: Env, before: map<ClaimKey, ClaimAccount>, w: World, ts: seq<Transaction>,
                                          key: ClaimKey)
    requires OpenerOk(before, w, key)
    ensures OpenerOk(before, Run(env, w, ts), key)
    decreases |ts|
  {
    if ts != [] {
      var outcome := Apply(env, w.accounts, ts[0].now, ts[0].step);
      if outcome.Ok? {
        StepKeepsOpener(env, w.accounts, ts[0], key);
        var log := After(w, ts[0], outcome.value).log;
        assert log[..|log| - 1] == w.log;
      }
      RunKeepsOpener(env, before, Next(env, w, ts[0]), ts[1..], key);
    }
  }

  /** At any time a claim account exists exactly if the log leaves it open, with its opener as initializer. */
  lemma ClaimAccountsAreHistory(env: Env, w0: World, w: World, key: ClaimKey)
    requires Reaches(env, w0, w)
    ensures Opener(w.accounts.ledger.claims, key) == OpenerIn(w0.accounts.ledger.claims, w.log, key)
  {
    var ts :| Chronological(w0.clock, ts) && w == Run(env, w0, ts);
    RunKeepsOpener(env, w0.accounts.ledger.claims, w0, ts, key);
  }

  /** Whoever opened a claim account gets its rent back: only with their key is it claimed, only by them closed. */
  lemma ClaimsGoBackToOpener(env: Env, w0: World, w: World, k: nat)
    requires Reaches(env, w0, w) && k < |w.log| && (w.log[k].step.Claim? || w.log[k].step.CloseClaim?)
    ensures var step := w.log[k].step;
            var opener := OpenerIn(w0.accounts.ledger.claims, w.log[..k], step.key);
            && opener == Some(if step.Claim? then step.initializer else step.signer)
            && (step.CloseClaim? ==> CurrentClaim(w.log[k].before.ledger, step.key) == 0)
  {
    var u := EntryMadeIn(env, w0, w, k);
    ClaimAccountsAreHistory(env, w0, u, w.log[k].step.key);
  }

  // ---------- Closing and administration ----------

  /** A status account is closed only by whoever last filled the relay fast, or asked for its slow fill. */
  lemma ClosedByRelayer(env: Env, w0: World, w: World, k: nat)
    requires Reaches(env, w0, w) && k < |w.log| && w.log[k].step.CloseFill?
    ensures w.log[k].step.signer == RelayerIn(w.log[..k], w.log[k].step.relayHash)
    ensures w.log[k].step.rd.fillDeadline < w.log[k].now
  {
    var u := EntryMadeIn(env, w0, w, k);
    ReachableFills(env, w0, u, w.log[k].step.relayHash);
    CloseStepChanges(env, u.accounts, Transaction(w.log[k].now, w.log[k].step));
  }

  /** An owner's call was signed by whom the logged transfers had made the owner, and its event reports it. */
  lemma AdminSignedByOwner(env: Env, w0: World, w: World, k: nat)
    requires Reaches(env, w0, w) && k < |w.log| && w.log[k].step.Admin?
    ensures w.log[k].step.signer == OwnerAfter(w0.accounts.state.owner, w.log[..k])
    ensures w.log[k].event == Report(w.log[k].step.call, w.log[k].before.state.rootBundleId)
  {
    var u := EntryMadeIn(env, w0, w, k);
    var step := w.log[k].step;
    OwnerChangesBySignature(env, w0, u);
    AdminSigner(env, u.accounts, Transaction(w.log[k].now, step));
    AdministerConfigures(env, u.accounts, step.signer, step.call, step.mintAccount);
  }

  lemma AdminSigner(env: Env, a: Accounts, t: Transaction)
    requires t.step.Admin? && Apply(env, a, t.now, t.step).Ok?
    ensures t.step.signer == a.state.owner
  {
  }

  /** A message that had an effect came through the transmitter from the configured domain and sender. */
  lemma MessageAuthenticated(env: Env, w0: World, w: World, k: nat)
    requires Reaches(env, w0, w) && k < |w.log| && w.log[k].step.Receive? && Distinct(env.tags)
    ensures var e := w.log[k];
            && e.step.transmitterSigned
            && e.step.remoteDomain == e.before.state.remoteDomain
            && e.step.sender == e.before.state.crossDomainAdmin
            && Translate(env.tags, e.step.body).Ok?
            && var call := CallIn(env.tags, e.step.body);
            && AbiEncodable(call) && AbiEncode(env.tags, call) <= e.step.body
            && e.event == Report(call, e.before.state.rootBundleId)
  {
    var u := EntryMadeIn(env, w0, w, k);
    var step := w.log[k].step;
    MessagesAreOwnerCalls(env, u.accounts, step.transmitterSigned, step.remoteDomain, step.sender, step.body,
                          step.mintAccount);
    AdministerConfigures(env, u.accounts, u.accounts.state.owner, CallIn(env.tags, step.body), step.mintAccount);
  }
}
