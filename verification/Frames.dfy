/** What a step leaves alone, and what therefore stays as it is over a whole run. */
module Frames {
  import opened Binary
  import opened Results
  import opened Leaves
  import opened Ledger
  import opened CallData
  import opened Spoke
  import opened Refunds
  import opened Administration
  import opened Entitlements
  import opened Acceptance

  // ---------- Settings ----------

  /** What initialization fixes and no instruction changes. */
  datatype Settings = Settings(chainId: u64, remoteDomain: u32, depositQuoteTimeBuffer: u32, fillDeadlineBuffer: u32)

  function SettingsOf(a: Accounts): Settings
  {
    Settings(a.state.chainId, a.state.remoteDomain, a.state.depositQuoteTimeBuffer, a.state.fillDeadlineBuffer)
  }

  // ---------- Token accounts ----------

  /** Accounts may be added, but those that exist keep mint and owner, and, but for moves, their amounts. */
  ghost predicate TokensKept(env: Env, a: Ledger, step: Step, b: Ledger)
  {
    match step
    case Deposit(_, _, _) => SameShape(a, b)
    case Fill(_, _, _, _, _, _) => SameShape(a, b)
    case ExecuteSlowFill(_, _, _, _, _, _) => SameShape(a, b)
    case ExecuteRefund(_, _, _, _, _) => SameShape(a, b)
    case Claim(_, _, key) => SameShape(a.(claims := map[]), b.(claims := map[]))
    case Bridge(_, mint, amount) =>
      && SameShape(a, b)
      && forall k :: Balance(b, k) == Balance(a, k) - (if k == env.ata(env.statePda, mint) then amount else 0)
    case External(_, key, account) => b.tokens == a.tokens[key := account]
    case Admin(_, call, mint) => AddsVault(env, a, call, mint, b)
    case Receive(_, _, _, _, body, mint) =>
      Translate(env.tags, body).Ok? && AddsVault(env, a, CallIn(env.tags, body), mint, b)
    case _ => b.tokens == a.tokens
  }

  /** Enabling or disabling a route leaves an empty vault for its token where there was none. */
  ghost predicate AddsVault(env: Env, a: Ledger, call: AdminCall, mint: Pubkey, b: Ledger)
  {
    var vault := env.ata(env.statePda, mint);
    if call.SetEnableRoute? && vault !in a.tokens
    then b.tokens == a.tokens[vault := TokenAccount(mint, env.statePda, 0)]
    else b.tokens == a.tokens
  }

  ghost predicate Framed(env: Env, a: Accounts, step: Step, b: Accounts)
  {
    && SettingsOf(b) == SettingsOf(a)
    && TokensKept(env, a.ledger, step, b.ledger)
    && (if step.ExecuteRefund? then b.liability.Keys == a.liability.Keys + {step.leaf.mint}
        else b.liability.Keys == a.liability.Keys)
  }

  lemma AdministerFrames(env: Env, a: Accounts, signer: Pubkey, call: AdminCall, mint: Pubkey)
    requires Administer(env, a, signer, call, mint).Ok?
    ensures var b := Administer(env, a, signer, call, mint).value.accounts;
            && SettingsOf(b) == SettingsOf(a) && AddsVault(env, a.ledger, call, mint, b.ledger)
            && b.liability == a.liability
            && (call.SetEnableRoute? ==> OwnsVault(env, b.ledger, call.originToken))
  {
  }

  lemma DepositFrames(env: Env, a: Accounts, now: u32, step: Step)
    requires step.Deposit?
    requires Apply(env, a, now, step).Ok?
    ensures Framed(env, a, step, Apply(env, a, now, step).value.accounts)
  {
  }

  lemma FillsFrame(env: Env, a: Accounts, now: u32, step: Step)
    requires step.Fill? || step.ExecuteSlowFill?
    requires Apply(env, a, now, step).Ok?
    ensures Framed(env, a, step, Apply(env, a, now, step).value.accounts)
  {
  }

  lemma RefundFrames(env: Env, a: Accounts, now: u32, step: Step)
    requires step.ExecuteRefund? && Apply(env, a, now, step).Ok?
    ensures Framed(env, a, step, Apply(env, a, now, step).value.accounts)
  {
    RefundIs(env, a, now, step);
    PayFirstShape(VaultFor(env, step.leaf.mint), a.ledger, step.leaf, step.infos, |step.leaf.refundAmounts|);
  }

  lemma ClaimsFrame(env: Env, a: Accounts, now: u32, step: Step)
    requires step.Claim? || step.InitializeClaim? || step.CloseClaim?
    requires Apply(env, a, now, step).Ok?
    ensures Framed(env, a, step, Apply(env, a, now, step).value.accounts)
  {
  }

  lemma BridgeFrames(env: Env, a: Accounts, now: u32, step: Step)
    requires step.Bridge?
    requires Apply(env, a, now, step).Ok?
    ensures Framed(env, a, step, Apply(env, a, now, step).value.accounts)
  {
  }

  lemma OthersFrame(env: Env, a: Accounts, now: u32, step: Step)
    requires step.CloseFill? || step.RequestSlowFill? || step.TransferOwner? || step.External?
    requires Apply(env, a, now, step).Ok?
    ensures Framed(env, a, step, Apply(env, a, now, step).value.accounts)
  {
  }

  /** A received message's step is that of the call it starts with. */
  lemma ReceivedIsCall(env: Env, a: Accounts, now: u32, step: Step)
    requires Distinct(env.tags) && step.Receive? && Apply(env, a, now, step).Ok?
    ensures Translate(env.tags, step.body).Ok?
    ensures var r := Administer(env, a, env.selfAuthority, CallIn(env.tags, step.body), step.mintAccount);
            r.Ok? && r == Apply(env, a, now, step)
  {
    BodyIsCall(env, step.body);
  }

  lemma BodyIsCall(env: Env, body: Bytes)
    requires Distinct(env.tags)
    ensures ReceivedCall(env, body).Some? ==> Translate(env.tags, body).Ok?
    ensures Translate(env.tags, body).Ok? ==> ReceivedCall(env, body) == Some(CallIn(env.tags, body))
  {
    if Translate(env.tags, body).Ok? {
      TranslateSound(env.tags, body);
      DispatchOfAnchorData(env.tags, CallIn(env.tags, body));
    }
  }

  /** Each step changes no setting, only the token accounts it should, and opens only its own liability account. */
  lemma StepFrames(env: Env, a: Accounts, now: u32, step: Step)
    requires Distinct(env.tags) && Apply(env, a, now, step).Ok?
    ensures Framed(env, a, step, Apply(env, a, now, step).value.accounts)
  {
    match step
    case Deposit(_, _, _) => DepositFrames(env, a, now, step);
    case Fill(_, _, _, _, _, _) => FillsFrame(env, a, now, step);
    case ExecuteSlowFill(_, _, _, _, _, _) => FillsFrame(env, a, now, step);
    case Bridge(_, _, _) => BridgeFrames(env, a, now, step);
    case ExecuteRefund(_, _, _, _, _) => RefundFrames(env, a, now, step);
    case Admin(signer, call, mint) => AdministerFrames(env, a, signer, call, mint);
    case Receive(_, _, _, _, body, mint) =>
      ReceivedIsCall(env, a, now, step);
      AdministerFrames(env, a, env.selfAuthority, CallIn(env.tags, body), mint);
    case CloseFill(_, _, _) => OthersFrame(env, a, now, step);
    case RequestSlowFill(_, _, _) => OthersFrame(env, a, now, step);
    case TransferOwner(_, _) => OthersFrame(env, a, now, step);
    case External(_, _, _) => OthersFrame(env, a, now, step);
    case _ => ClaimsFrame(env, a, now, step);
  }

  // ---------- Events ----------

  /** Each kind of step emits its own kind of event, or none. */
  ghost predicate Reports(env: Env, a: Accounts, step: Step, event: Event)
  {
    match step
    case Deposit(_, _, args) =>
      event.V3FundsDeposited? && event.args == args && event.depositId == a.state.numberOfDeposits + 1
    case Fill(_, _, rd, chain, address, _) =>
      event.FilledV3Relay? && event.fillType != SlowFill
      && event == FilledV3Relay(rd, chain, address, rd.outputAmount, event.fillType)
    case RequestSlowFill(_, _, rd) => event == RequestedV3SlowFill(rd)
    case ExecuteSlowFill(_, _, rd, amount, _, _) => event == FilledV3Relay(rd, 0, DEFAULT_PUBKEY, amount, SlowFill)
    case ExecuteRefund(signer, id, leaf, _, infos) =>
      event == ExecutedRelayerRefundRoot(id, leaf, AnyDeferred(infos, |leaf.refundAmounts|), signer)
    case Claim(_, _, key) =>
      event == ClaimedRelayerRefund(key.mint, CurrentClaim(a.ledger, key), key.tokenAccount)
    case Bridge(_, mint, amount) => event == BridgedToHubPool(amount, mint)
    case Admin(_, call, _) => event == Report(call, a.state.rootBundleId)
    case Receive(_, _, _, _, body, _) =>
      Translate(env.tags, body).Ok? && event == Report(CallIn(env.tags, body), a.state.rootBundleId)
    case _ => event == Silent
  }

  lemma RelaysReport(env: Env, a: Accounts, now: u32, step: Step)
    requires step.Deposit? || step.Fill? || step.RequestSlowFill? || step.ExecuteSlowFill? || step.CloseFill?
    requires Apply(env, a, now, step).Ok?
    ensures Reports(env, a, step, Apply(env, a, now, step).value.event)
  {
  }

  lemma OthersReport(env: Env, a: Accounts, now: u32, step: Step)
    requires step.InitializeClaim? || step.Claim? || step.CloseClaim? || step.Bridge? || step.TransferOwner?
             || step.External?
    requires Apply(env, a, now, step).Ok?
    ensures Reports(env, a, step, Apply(env, a, now, step).value.event)
  {
  }

  /** What each step that goes through says it did. */
  lemma StepReports(env: Env, a: Accounts, now: u32, step: Step)
    requires Distinct(env.tags) && Apply(env, a, now, step).Ok?
    ensures Reports(env, a, step, Apply(env, a, now, step).value.event)
  {
    match step
    case ExecuteRefund(_, _, _, _, _) => RefundIs(env, a, now, step);
    case Admin(signer, call, mint) => AdministerConfigures(env, a, signer, call, mint);
    case Receive(_, _, _, _, body, mint) =>
      ReceivedIsCall(env, a, now, step);
      AdministerConfigures(env, a, env.selfAuthority, CallIn(env.tags, body), mint);
    case _ =>
      if step.Deposit? || step.Fill? || step.RequestSlowFill? || step.ExecuteSlowFill? || step.CloseFill? {
        RelaysReport(env, a, now, step);
      } else {
        OthersReport(env, a, now, step);
      }
  }

  // ---------- Runs ----------

  /** The mints for which a leaf has been executed. */
  function MintsExecuted(log: seq<Entry>): set<Pubkey>
  {
    if log == [] then {}
    else
      var earlier, step := MintsExecuted(log[..|log| - 1]), log[|log| - 1].step;
      if step.ExecuteRefund? then earlier + {step.leaf.mint} else earlier
  }

  ghost predicate StaysFixed(w0: World, w: World)
  {
    SettingsOf(w.accounts) == SettingsOf(w0.accounts) && w.accounts.liability.Keys == MintsExecuted(w.log)
  }

  lemma FramedStaysFixed(env: Env, w0: World, w: World, t: Transaction, post: Post)
    requires StaysFixed(w0, w) && Framed(env, w.accounts, t.step, post.accounts)
    ensures StaysFixed(w0, After(w, t, post))
  {
    var log := After(w, t, post).log;
    assert log[..|log| - 1] == w.log;
  }

  lemma {:induction false} RunStaysFixed(env: Env, w0: World, w: World, ts: seq<Transaction>)
    requires Distinct(env.tags) && StaysFixed(w0, w)
    ensures StaysFixed(w0, Run(env, w, ts))
    decreases |ts|
  {
    if ts != [] {
      var outcome := Apply(env, w.accounts, ts[0].now, ts[0].step);
      if outcome.Ok? {
        StepFrames(env, w.accounts, ts[0].now, ts[0].step);
        FramedStaysFixed(env, w0, w, ts[0], outcome.value);
      }
      RunStaysFixed(env, w0, Next(env, w, ts[0]), ts[1..]);
    }
  }

  /**
   Over every run the chain id, the remote domain and the two buffers are as initialized, and a liability
   account exists exactly for the mints of executed leaves.
   */
  lemma {:induction false} SettingsNeverChange(env: Env, w0: World, w: World)
    requires Distinct(env.tags) && Reaches(env, w0, w)
    ensures SettingsOf(w.accounts) == SettingsOf(w0.accounts)
    ensures w.accounts.liability.Keys == MintsExecuted(w.log)
  {
    var ts :| Chronological(w0.clock, ts) && w == Run(env, w0, ts);
    RunStaysFixed(env, w0, w0, ts);
  }

  /** A step takes no account away from the program. */
  lemma StepKeepsOwned(env: Env, a: Accounts, now: u32, step: Step, key: Pubkey, mint: Pubkey)
    requires Distinct(env.tags) && Apply(env, a, now, step).Ok? && Owns(a.ledger, env.statePda, key, mint)
    ensures Owns(Apply(env, a, now, step).value.accounts.ledger, env.statePda, key, mint)
  {
    StepFrames(env, a, now, step);
    var b := Apply(env, a, now, step).value.accounts;
    FramedKeepsOwned(env, a, now, step, b, key, mint);
  }

  lemma FramedKeepsOwned(env: Env, a: Accounts, now: u32, step: Step, b: Accounts, key: Pubkey, mint: Pubkey)
    requires Framed(env, a, step, b) && Owns(a.ledger, env.statePda, key, mint)
    requires step.External? ==> ExternalFaults(env, a, step.tokenKey, step.account) == {}
    ensures Owns(b.ledger, env.statePda, key, mint)
  {
  }

  /** Once the program has a vault for a mint, it has it for good. */
  lemma {:induction false} VaultsStay(env: Env, w: World, ts: seq<Transaction>, mint: Pubkey)
    requires Distinct(env.tags) && OwnsVault(env, w.accounts.ledger, mint)
    ensures OwnsVault(env, Run(env, w, ts).accounts.ledger, mint)
    decreases |ts|
  {
    if ts != [] {
      if Apply(env, w.accounts, ts[0].now, ts[0].step).Ok? {
        StepKeepsOwned(env, w.accounts, ts[0].now, ts[0].step, env.ata(env.statePda, mint), mint);
      }
      VaultsStay(env, Next(env, w, ts[0]), ts[1..], mint);
    }
  }

  // ---------- Routes ----------

  ghost predicate RoutesHaveVaults(env: Env, a: Accounts)
  {
    forall route :: route in a.routes ==> OwnsVault(env, a.ledger, route.originToken)
  }

  lemma AdministerOpensRoutes(env: Env, a: Accounts, signer: Pubkey, call: AdminCall, mint: Pubkey, route: RouteKey)
    requires Administer(env, a, signer, call, mint).Ok?
    requires route in Administer(env, a, signer, call, mint).value.accounts.routes
    ensures route in a.routes
            || OwnsVault(env, Administer(env, a, signer, call, mint).value.accounts.ledger, route.originToken)
  {
  }

  lemma StepOpensRoutes(env: Env, a: Accounts, t: Transaction, route: RouteKey)
    requires Distinct(env.tags) && Apply(env, a, t.now, t.step).Ok?
    requires route in Apply(env, a, t.now, t.step).value.accounts.routes
    ensures route in a.routes
            || OwnsVault(env, Apply(env, a, t.now, t.step).value.accounts.ledger, route.originToken)
  {
    match t.step
    case Admin(signer, call, mint) => AdministerOpensRoutes(env, a, signer, call, mint, route);
    case Receive(_, _, _, _, body, mint) =>
      ReceivedIsCall(env, a, t.now, t.step);
      AdministerOpensRoutes(env, a, env.selfAuthority, CallIn(env.tags, body), mint, route);
    case _ =>
      if t.step.Deposit? || t.step.Fill? || t.step.RequestSlowFill? || t.step.ExecuteSlowFill? || t.step.CloseFill? {
        RelaysAreQuiet(env, a, t);
      } else {
        OthersAreQuiet(env, a, t);
      }
  }

  lemma StepKeepsRoutes(env: Env, a: Accounts, t: Transaction)
    requires Distinct(env.tags) && RoutesHaveVaults(env, a) && Apply(env, a, t.now, t.step).Ok?
    ensures RoutesHaveVaults(env, Apply(env, a, t.now, t.step).value.accounts)
  {
    var b := Apply(env, a, t.now, t.step).value.accounts;
    forall route | route in b.routes
      ensures OwnsVault(env, b.ledger, route.originToken)
    {
      StepOpensRoutes(env, a, t, route);
      if route in a.routes {
        var mint := route.originToken;
        StepKeepsOwned(env, a, t.now, t.step, env.ata(env.statePda, mint), mint);
      }
    }
  }

  lemma {:induction false} RunKeepsRoutes(env: Env, w: World, ts: seq<Transaction>)
    requires Distinct(env.tags) && RoutesHaveVaults(env, w.accounts)
    ensures RoutesHaveVaults(env, Run(env, w, ts).accounts)
    decreases |ts|
  {
    if ts != [] {
      if Apply(env, w.accounts, ts[0].now, ts[0].step).Ok? {
        StepKeepsRoutes(env, w.accounts, ts[0]);
      }
      RunKeepsRoutes(env, Next(env, w, ts[0]), ts[1..]);
    }
  }

  /** In every run the token of every route, enabled or disabled, has a vault under the program's authority. */
  lemma {:induction false} ReachableRoutes(env: Env, w0: World, w: World)
    requires Distinct(env.tags) && Reaches(env, w0, w)
    ensures RoutesHaveVaults(env, w.accounts)
  {
    var ts :| Chronological(w0.clock, ts) && w == Run(env, w0, ts);
    RunKeepsRoutes(env, w0, ts);
  }
}
