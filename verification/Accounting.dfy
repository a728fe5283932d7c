/**
 What every run keeps about money: the vault, less the outstanding claims, is accounted for by the event log
 and by gifts; claims are accounted for by what was deferred and claimed; so is the debt to the hub pool.
 */
module Accounting {
  import opened Binary
  import opened Results
  import opened Leaves
  import opened Ledger
  import opened Spoke
  import opened CallData
  import opened Refunds

  // ---------- The vault ----------

  function VaultBalance(env: Env, l: Ledger, mint: Pubkey): nat
  {
    if VaultOk(env, l, mint) then l.tokens[env.ata(env.statePda, mint)].amount else 0
  }

  ghost function VaultNet(env: Env, a: Accounts, mint: Pubkey): int
  {
    VaultBalance(env, a.ledger, mint) - Outstanding(a.ledger.claims, mint)
  }

  /** What an emitted event alone says came into, and went out of, the vault of a mint. */
  function EventIn(event: Event, mint: Pubkey): nat
  {
    if event.V3FundsDeposited? && event.args.inputToken == mint then event.args.inputAmount else 0
  }

  function EventOut(event: Event, mint: Pubkey): nat
  {
    match event
    case ExecutedRelayerRefundRoot(_, leaf, _, _) => if leaf.mint == mint then Sum(leaf.refundAmounts) else 0
    case FilledV3Relay(rd, _, _, amount, fillType) =>
      if fillType == SlowFill && rd.outputToken == mint then amount else 0
    case BridgedToHubPool(amount, bridged) => if bridged == mint then amount else 0
    case _ => 0
  }

  function EventNet(event: Event, mint: Pubkey): int
  {
    EventIn(event, mint) - EventOut(event, mint)
  }

  function EventsNet(log: seq<Entry>, mint: Pubkey): int
  {
    if log == [] then 0 else EventsNet(log[..|log| - 1], mint) + EventNet(log[|log| - 1].event, mint)
  }

  /**
   Tokens that reach the vault without an event saying so: transfers from outside, fills whose recipient is the
   program itself, and refunds or claims paid by the vault to itself.
   */
  function Gift(env: Env, e: Entry, mint: Pubkey): int
  {
    match e.step
    case Fill(_, _, rd, _, _, _) =>
      if rd.outputToken == mint && rd.recipient == env.statePda then rd.outputAmount else 0
    case ExecuteSlowFill(_, _, rd, amount, _, _) =>
      if rd.outputToken == mint && rd.recipient == env.statePda then amount else 0
    case ExecuteRefund(_, _, leaf, _, infos) =>
      if leaf.mint == mint && EqualLengths(leaf)
      then SelfPaid(VaultFor(env, mint), leaf, infos, |leaf.refundAmounts|) else 0
    case Claim(_, _, key) =>
      if key.mint == mint && key.tokenAccount == env.ata(env.statePda, mint) && e.event.ClaimedRelayerRefund?
      then e.event.claimAmount else 0
    case External(_, key, account) =>
      VaultBalance(env, e.before.ledger.(tokens := e.before.ledger.tokens[key := account]), mint)
      - VaultBalance(env, e.before.ledger, mint)
    case _ => 0
  }

  function Gifts(env: Env, log: seq<Entry>, mint: Pubkey): int
  {
    if log == [] then 0 else Gifts(env, log[..|log| - 1], mint) + Gift(env, log[|log| - 1], mint)
  }

  /** The step changes the vault's net worth by what its event says, plus its gift, which is never negative. */
  ghost predicate Accounted(env: Env, a: Accounts, t: Transaction, post: Post, mint: Pubkey)
  {
    var gift := Gift(env, Entry(t.now, t.step, a, post.event), mint);
    && VaultNet(env, post.accounts, mint) == VaultNet(env, a, mint) + EventNet(post.event, mint) + gift
    && gift >= 0
  }

  lemma TransferVault(env: Env, l: Ledger, from: Pubkey, to: Pubkey, token: Pubkey, authority: Pubkey, amount: u64,
                      mint: Pubkey)
    requires Transfer(l, from, to, token, authority, amount).Ok?
    ensures var key := env.ata(env.statePda, mint);
            VaultBalance(env, Transfer(l, from, to, token, authority, amount).value, mint)
            == VaultBalance(env, l, mint)
               - (if mint == token && from == key && authority == env.statePda then amount else 0)
               + (if mint == token && to == key && l.tokens[to].authority == env.statePda then amount else 0)
  {
    TransferBalances(l, from, to, token, authority, amount);
    var m := Transfer(l, from, to, token, authority, amount).value;
    var key := env.ata(env.statePda, mint);
    assert VaultOk(env, m, mint) <==> VaultOk(env, l, mint);
    if VaultOk(env, l, mint) {
      assert VaultBalance(env, m, mint) == Balance(m, key) && VaultBalance(env, l, mint) == Balance(l, key);
    }
  }

  lemma DepositAccounted(env: Env, a: Accounts, t: Transaction, mint: Pubkey)
    requires t.step.Deposit? && Apply(env, a, t.now, t.step).Ok?
    ensures Accounted(env, a, t, Apply(env, a, t.now, t.step).value, mint)
  {
    var args, vault := t.step.args, VaultFor(env, t.step.args.inputToken);
    TransferVault(env, a.ledger, t.step.userToken, vault.key, vault.mint, t.step.signer, args.inputAmount, mint);
  }

  lemma FillAccounted(env: Env, a: Accounts, t: Transaction, mint: Pubkey)
    requires t.step.Fill? && Apply(env, a, t.now, t.step).Ok?
    ensures Accounted(env, a, t, Apply(env, a, t.now, t.step).value, mint)
  {
    var rd, to := t.step.rd, env.ata(t.step.rd.recipient, t.step.rd.outputToken);
    if t.step.relayerToken != to {
      TransferVault(env, a.ledger, t.step.relayerToken, to, rd.outputToken, t.step.signer, rd.outputAmount, mint);
    }
  }

  lemma SlowFillAccounted(env: Env, a: Accounts, t: Transaction, mint: Pubkey)
    requires t.step.ExecuteSlowFill? && Apply(env, a, t.now, t.step).Ok?
    ensures Accounted(env, a, t, Apply(env, a, t.now, t.step).value, mint)
  {
    var rd, to, vault := t.step.rd, env.ata(t.step.rd.recipient, t.step.rd.outputToken),
                         VaultFor(env, t.step.rd.outputToken);
    TransferVault(env, a.ledger, vault.key, to, vault.mint, vault.authority, t.step.updatedOutputAmount, mint);
  }

  lemma {:induction false} DeferredAtMostOwed(leaf: RefundLeaf, infos: seq<AccountInfo>, payee: Pubkey, n: nat)
    requires EqualLengths(leaf) && n <= |leaf.refundAmounts|
    ensures Deferred(leaf, infos, payee, n) <= Owed(leaf, payee, n)
  {
    if n > 0 {
      DeferredAtMostOwed(leaf, infos, payee, n - 1);
    }
  }

  lemma RefundAccounted(env: Env, a: Accounts, t: Transaction, mint: Pubkey)
    requires t.step.ExecuteRefund? && Apply(env, a, t.now, t.step).Ok?
    ensures Accounted(env, a, t, Apply(env, a, t.now, t.step).value, mint)
  {
    var leaf, infos, l := t.step.leaf, t.step.infos, a.ledger;
    var v, n := VaultFor(env, leaf.mint), |leaf.refundAmounts|;
    var m := PayFirst(v, l, leaf, infos, n).value;
    assert Apply(env, a, t.now, t.step).value.accounts.ledger == m;
    PayFirstShape(v, l, leaf, infos, n);
    assert VaultOk(env, m, mint) <==> VaultOk(env, l, mint);
    if mint == leaf.mint {
      VaultPaysTheSum(v, l, leaf, infos, n);
      assert leaf.refundAmounts[..n] == leaf.refundAmounts;
      DeferredAtMostOwed(leaf, infos, v.key, n);
    } else {
      OtherMintsUntouched(v, l, leaf, infos, n, env.ata(env.statePda, mint), mint);
    }
  }

  lemma ClaimAccounted(env: Env, a: Accounts, t: Transaction, mint: Pubkey)
    requires t.step.Claim? && Apply(env, a, t.now, t.step).Ok?
    ensures Accounted(env, a, t, Apply(env, a, t.now, t.step).value, mint)
  {
    var key := t.step.key;
    var vault, amount := VaultFor(env, key.mint), a.ledger.claims[key].amount;
    TransferVault(env, a.ledger, vault.key, key.tokenAccount, vault.mint, vault.authority, amount, mint);
    OutstandingSplit(a.ledger.claims, key, mint);
  }

  lemma OpenOrCloseClaimAccounted(env: Env, a: Accounts, t: Transaction, mint: Pubkey)
    requires t.step.InitializeClaim? || t.step.CloseClaim?
    requires Apply(env, a, t.now, t.step).Ok?
    ensures Accounted(env, a, t, Apply(env, a, t.now, t.step).value, mint)
  {
    var key := t.step.key;
    if t.step.InitializeClaim? {
      OutstandingUpdate(a.ledger.claims, key, ClaimAccount(0, t.step.signer), mint);
    } else {
      OutstandingSplit(a.ledger.claims, key, mint);
    }
  }

  lemma AdministerKeepsVaults(env: Env, a: Accounts, signer: Pubkey, call: AdminCall, mintAccount: Pubkey, mint: Pubkey)
    requires Administer(env, a, signer, call, mintAccount).Ok?
    ensures var post := Administer(env, a, signer, call, mintAccount).value;
            VaultNet(env, post.accounts, mint) == VaultNet(env, a, mint) && EventNet(post.event, mint) == 0
  {
  }

  lemma BridgeAccounted(env: Env, a: Accounts, t: Transaction, mint: Pubkey)
    requires t.step.Bridge? && Apply(env, a, t.now, t.step).Ok?
    ensures Accounted(env, a, t, Apply(env, a, t.now, t.step).value, mint)
  {
  }

  lemma ExternalAccounted(env: Env, a: Accounts, t: Transaction, mint: Pubkey)
    requires t.step.External? && Apply(env, a, t.now, t.step).Ok?
    ensures Accounted(env, a, t, Apply(env, a, t.now, t.step).value, mint)
  {
  }

  lemma OtherStepsAccounted(env: Env, a: Accounts, t: Transaction, mint: Pubkey)
    requires t.step.CloseFill? || t.step.RequestSlowFill? || t.step.Admin? || t.step.TransferOwner? || t.step.Receive?
    requires Apply(env, a, t.now, t.step).Ok?
    ensures Accounted(env, a, t, Apply(env, a, t.now, t.step).value, mint)
  {
    match t.step
    case Admin(signer, call, mintAccount) => AdministerKeepsVaults(env, a, signer, call, mintAccount, mint);
    case Receive(_, _, _, _, body, mintAccount) =>
      AdministerKeepsVaults(env, a, env.selfAuthority, ReceivedCall(env, body).value, mintAccount, mint);
    case _ =>
  }

  lemma StepAccounted(env: Env, a: Accounts, t: Transaction, mint: Pubkey)
    requires Apply(env, a, t.now, t.step).Ok?
    ensures Accounted(env, a, t, Apply(env, a, t.now, t.step).value, mint)
  {
    match t.step
    case Deposit(_, _, _) => DepositAccounted(env, a, t, mint);
    case Fill(_, _, _, _, _, _) => FillAccounted(env, a, t, mint);
    case ExecuteSlowFill(_, _, _, _, _, _) => SlowFillAccounted(env, a, t, mint);
    case ExecuteRefund(_, _, _, _, _) => RefundAccounted(env, a, t, mint);
    case Claim(_, _, _) => ClaimAccounted(env, a, t, mint);
    case InitializeClaim(_, _) => OpenOrCloseClaimAccounted(env, a, t, mint);
    case CloseClaim(_, _) => OpenOrCloseClaimAccounted(env, a, t, mint);
    case Bridge(_, _, _) => BridgeAccounted(env, a, t, mint);
    case External(_, _, _) => ExternalAccounted(env, a, t, mint);
    case _ => OtherStepsAccounted(env, a, t, mint);
  }

  // ---------- Claims and the hub pool ----------

  /** What a transaction put on a claim account, and what it paid out of one. */
  function DeferredBy(e: Entry, key: ClaimKey): nat
  {
    if e.step.ExecuteRefund? && EqualLengths(e.step.leaf) && e.step.leaf.mint == key.mint
    then Deferred(e.step.leaf, e.step.infos, key.tokenAccount, |e.step.leaf.refundAmounts|) else 0
  }

  function ClaimedBy(event: Event, key: ClaimKey): nat
  {
    if event.ClaimedRelayerRefund? && ClaimKey(event.claimedMint, event.refundAddress) == key
    then event.claimAmount else 0
  }

  function ReturnedBy(event: Event, mint: Pubkey): nat
  {
    if event.ExecutedRelayerRefundRoot? && event.leaf.mint == mint then event.leaf.amountToReturn else 0
  }

  function BridgedBy(event: Event, mint: Pubkey): nat
  {
    if event.BridgedToHubPool? && event.bridgedMint == mint then event.amount else 0
  }

  function TotalDeferred(log: seq<Entry>, key: ClaimKey): nat
  {
    if log == [] then 0 else TotalDeferred(log[..|log| - 1], key) + DeferredBy(log[|log| - 1], key)
  }

  function TotalClaimed(log: seq<Entry>, key: ClaimKey): nat
  {
    if log == [] then 0 else TotalClaimed(log[..|log| - 1], key) + ClaimedBy(log[|log| - 1].event, key)
  }

  function TotalReturned(log: seq<Entry>, mint: Pubkey): nat
  {
    if log == [] then 0 else TotalReturned(log[..|log| - 1], mint) + ReturnedBy(log[|log| - 1].event, mint)
  }

  function TotalBridged(log: seq<Entry>, mint: Pubkey): nat
  {
    if log == [] then 0 else TotalBridged(log[..|log| - 1], mint) + BridgedBy(log[|log| - 1].event, mint)
  }

  /** The step changes a claim by what it defers and pays, and the debt to the hub by what it authorises and bridges. */
  ghost predicate Booked(a: Accounts, t: Transaction, post: Post, key: ClaimKey)
  {
    var e, b := Entry(t.now, t.step, a, post.event), post.accounts;
    && CurrentClaim(b.ledger, key) == CurrentClaim(a.ledger, key) + DeferredBy(e, key) - ClaimedBy(post.event, key)
    && PendingToHubPool(b, key.mint)
       == PendingToHubPool(a, key.mint) + ReturnedBy(post.event, key.mint) - BridgedBy(post.event, key.mint)
  }

  lemma RefundBooked(env: Env, a: Accounts, t: Transaction, key: ClaimKey)
    requires t.step.ExecuteRefund? && Apply(env, a, t.now, t.step).Ok?
    ensures Booked(a, t, Apply(env, a, t.now, t.step).value, key)
  {
    var leaf, infos := t.step.leaf, t.step.infos;
    ClaimsGrow(VaultFor(env, leaf.mint), a.ledger, leaf, infos, |leaf.refundAmounts|, key);
  }

  lemma AdministerBooksNothing(env: Env, a: Accounts, signer: Pubkey, call: AdminCall, mintAccount: Pubkey,
                               t: Transaction, key: ClaimKey)
    requires Administer(env, a, signer, call, mintAccount).Ok? && !t.step.ExecuteRefund?
    ensures Booked(a, t, Administer(env, a, signer, call, mintAccount).value, key)
  {
  }

  lemma ClaimOrBridgeBooked(env: Env, a: Accounts, t: Transaction, key: ClaimKey)
    requires t.step.Claim? || t.step.Bridge? || t.step.InitializeClaim? || t.step.CloseClaim?
    requires Apply(env, a, t.now, t.step).Ok?
    ensures Booked(a, t, Apply(env, a, t.now, t.step).value, key)
  {
  }

  lemma TransfersBookNothing(env: Env, a: Accounts, t: Transaction, key: ClaimKey)
    requires t.step.Deposit? || t.step.Fill? || t.step.ExecuteSlowFill?
    requires Apply(env, a, t.now, t.step).Ok?
    ensures Booked(a, t, Apply(env, a, t.now, t.step).value, key)
  {
  }

  lemma RelaysBookNothing(env: Env, a: Accounts, t: Transaction, key: ClaimKey)
    requires t.step.RequestSlowFill? || t.step.CloseFill?
    requires Apply(env, a, t.now, t.step).Ok?
    ensures Booked(a, t, Apply(env, a, t.now, t.step).value, key)
  {
  }

  lemma {:induction false} StepBooked(env: Env, a: Accounts, t: Transaction, key: ClaimKey)
    requires Apply(env, a, t.now, t.step).Ok?
    ensures Booked(a, t, Apply(env, a, t.now, t.step).value, key)
  {
    match t.step
    case ExecuteRefund(_, _, _, _, _) => RefundBooked(env, a, t, key);
    case Claim(_, _, _) => ClaimOrBridgeBooked(env, a, t, key);
    case Bridge(_, _, _) => ClaimOrBridgeBooked(env, a, t, key);
    case InitializeClaim(_, _) => ClaimOrBridgeBooked(env, a, t, key);
    case CloseClaim(_, _) => ClaimOrBridgeBooked(env, a, t, key);
    case Admin(signer, call, mintAccount) => AdministerBooksNothing(env, a, signer, call, mintAccount, t, key);
    case Receive(_, _, _, _, body, mintAccount) =>
      AdministerBooksNothing(env, a, env.selfAuthority, ReceivedCall(env, body).value, mintAccount, t, key);
    case TransferOwner(_, _) =>
    case External(_, _, _) =>
    case RequestSlowFill(_, _, _) => RelaysBookNothing(env, a, t, key);
    case CloseFill(_, _, _) => RelaysBookNothing(env, a, t, key);
    case _ => TransfersBookNothing(env, a, t, key);
  }

  // ---------- Runs ----------

  /** The books balance: for the key's mint and claim account, and from the vault's worth at the start. */
  ghost predicate Balanced(env: Env, start: int, w: World, key: ClaimKey)
  {
    && VaultNet(env, w.accounts, key.mint) == start + EventsNet(w.log, key.mint) + Gifts(env, w.log, key.mint)
    && Gifts(env, w.log, key.mint) >= 0
    && TotalDeferred(w.log, key) == TotalClaimed(w.log, key) + CurrentClaim(w.accounts.ledger, key)
    && TotalReturned(w.log, key.mint) == TotalBridged(w.log, key.mint) + PendingToHubPool(w.accounts, key.mint)
  }

  lemma StepKeepsBalanced(env: Env, start: int, w: World, t: Transaction, key: ClaimKey)
    requires Balanced(env, start, w, key)
    ensures Balanced(env, start, Next(env, w, t), key)
  {
    var outcome := Apply(env, w.accounts, t.now, t.step);
    if outcome.Ok? {
      StepAccounted(env, w.accounts, t, key.mint);
      StepBooked(env, w.accounts, t, key);
      var log := After(w, t, outcome.value).log;
      assert log[..|log| - 1] == w.log;
    }
  }

  lemma {:induction false} RunKeepsBalanced(env: Env, start: int, w: World, ts: seq<Transaction>, key: ClaimKey)
    requires Balanced(env, start, w, key)
    ensures Balanced(env, start, Run(env, w, ts), key)
    decreases |ts|
  {
    if ts != [] {
      StepKeepsBalanced(env, start, w, ts[0], key);
      RunKeepsBalanced(env, start, Next(env, w, ts[0]), ts[1..], key);
    }
  }

  /**
   In every reachable world, for every mint and claim account: the vault less the outstanding claims is the
   initial vault plus what the events say plus non-negative gifts; what was deferred is what was claimed plus
   what can still be claimed; what was authorised for the hub pool is what was bridged plus what is pending.
   */
  lemma BooksBalance(env: Env, w0: World, w: World, key: ClaimKey)
    requires Reaches(env, w0, w)
    ensures Balanced(env, VaultBalance(env, w0.accounts.ledger, key.mint), w, key)
  {
    OutstandingZero(w0.accounts.ledger.claims, key.mint);
    var ts :| Chronological(w0.clock, ts) && w == Run(env, w0, ts);
    RunKeepsBalanced(env, VaultBalance(env, w0.accounts.ledger, key.mint), w0, ts, key);
  }

  /** The emitted events alone give the vault less the claims exactly when no entry of the log was a gift. */
  lemma EventsSuffice(env: Env, w0: World, w: World, mint: Pubkey)
    requires Reaches(env, w0, w)
    ensures VaultNet(env, w.accounts, mint) == VaultBalance(env, w0.accounts.ledger, mint) + EventsNet(w.log, mint)
            <==> Gifts(env, w.log, mint) == 0
    ensures VaultNet(env, w.accounts, mint) >= VaultBalance(env, w0.accounts.ledger, mint) + EventsNet(w.log, mint)
  {
    BooksBalance(env, w0, w, ClaimKey(mint, mint));
  }

  // ---------- Splitting a bridge transfer ----------

  function BridgeAll(env: Env, a: Accounts, mint: Pubkey, parts: seq<u64>): Result<Accounts, Error>
  {
    if parts == [] then Ok(a)
    else
      var before :- BridgeAll(env, a, mint, parts[..|parts| - 1]);
      var post :- BridgeTokensToHubPool(env, before, mint, parts[|parts| - 1]);
      Ok(post.accounts)
  }

  /** The accounts with amount bridged: both the vault and the pending debt are lower by it. */
  function Bridged(env: Env, a: Accounts, mint: Pubkey, amount: nat): Accounts
    requires mint in a.liability && VaultOk(env, a.ledger, mint)
    requires amount <= a.liability[mint] && amount <= VaultBalance(env, a.ledger, mint)
  {
    var key := env.ata(env.statePda, mint);
    var held := a.ledger.tokens[key];
    a.(ledger := a.ledger.(tokens := a.ledger.tokens[key := held.(amount := held.amount - amount)]),
       liability := a.liability[mint := a.liability[mint] - amount])
  }

  lemma BridgeMore(env: Env, a: Accounts, mint: Pubkey, x: nat, amount: u64)
    requires mint in a.liability && VaultOk(env, a.ledger, mint)
    requires x <= a.liability[mint] && x <= VaultBalance(env, a.ledger, mint)
    ensures var r := BridgeTokensToHubPool(env, Bridged(env, a, mint, x), mint, amount);
            && (r.Ok? <==> x + amount <= a.liability[mint] && x + amount <= VaultBalance(env, a.ledger, mint))
            && (r.Ok? ==> r.value.accounts == Bridged(env, a, mint, x + amount))
  {
    var r := BridgeTokensToHubPool(env, Bridged(env, a, mint, x), mint, amount);
    if r.Ok? {
      assert r.value.accounts.ledger.tokens == Bridged(env, a, mint, x + amount).ledger.tokens;
      assert r.value.accounts.liability == Bridged(env, a, mint, x + amount).liability;
    }
  }

  /** Bridging in parts succeeds exactly when both the debt and the vault cover the sum, and then bridges the sum. */
  lemma {:induction false} BridgeInParts(env: Env, a: Accounts, mint: Pubkey, parts: seq<u64>)
    requires mint in a.liability && VaultOk(env, a.ledger, mint)
    ensures BridgeAll(env, a, mint, parts).Ok?
            <==> Sum(parts) <= a.liability[mint] && Sum(parts) <= VaultBalance(env, a.ledger, mint)
    ensures BridgeAll(env, a, mint, parts).Ok? ==>
              BridgeAll(env, a, mint, parts).value == Bridged(env, a, mint, Sum(parts))
  {
    if parts == [] {
      assert Bridged(env, a, mint, 0).liability == a.liability;
      assert Bridged(env, a, mint, 0).ledger.tokens == a.ledger.tokens;
    } else {
      var init := parts[..|parts| - 1];
      BridgeInParts(env, a, mint, init);
      if BridgeAll(env, a, mint, init).Ok? {
        BridgeMore(env, a, mint, Sum(init), parts[|parts| - 1]);
      }
    }
  }

  /** So any two splits of the same amount succeed together and end in the same accounts. */
  lemma SplitsAgree(env: Env, a: Accounts, mint: Pubkey, parts: seq<u64>, others: seq<u64>)
    requires mint in a.liability && VaultOk(env, a.ledger, mint)
    requires Sum(parts) == Sum(others)
    ensures BridgeAll(env, a, mint, parts).Ok? <==> BridgeAll(env, a, mint, others).Ok?
    ensures BridgeAll(env, a, mint, parts).Ok? ==> BridgeAll(env, a, mint, parts) == BridgeAll(env, a, mint, others)
  {
    BridgeInParts(env, a, mint, parts);
    BridgeInParts(env, a, mint, others);
  }
}
