/** Owner calls: remote ones are local ones, and ownership moves only by the owner's own signature. */
module Administration {
  import opened Binary
  import opened Results
  import opened CallData
  import opened Spoke
  import opened Ledger

  /**
   A message with the right domain and sender, whose body starts with the encoding of a call, does exactly what
   the owner's own transaction with that call would do, failures included.
   */
  lemma RemoteRefinesLocal(env: Env, a: Accounts, call: AdminCall, suffix: Bytes, mintAccount: Pubkey)
    requires Distinct(env.tags) && AbiEncodable(call)
    ensures HandleReceiveMessage(env, a, true, a.state.remoteDomain, a.state.crossDomainAdmin,
                                 AbiEncode(env.tags, call) + suffix, mintAccount)
            == Administer(env, a, a.state.owner, call, mintAccount)
  {
    TranslateComplete(env.tags, call, suffix);
    DispatchOfAnchorData(env.tags, call);
    assert ReceivedCall(env, AbiEncode(env.tags, call) + suffix) == Some(call);
  }

  /** Conversely a message has no effect but that of the owner's call that its body starts with. */
  lemma {:induction false} MessagesAreOwnerCalls(env: Env, a: Accounts, signed: bool, domain: u32, sender: Pubkey,
                                                 body: Bytes, mintAccount: Pubkey)
    requires Distinct(env.tags)
    requires HandleReceiveMessage(env, a, signed, domain, sender, body, mintAccount).Ok?
    ensures signed && domain == a.state.remoteDomain && sender == a.state.crossDomainAdmin
    ensures Translate(env.tags, body).Ok?
    ensures var call := CallIn(env.tags, body);
            && AbiEncodable(call) && AbiEncode(env.tags, call) <= body
            && HandleReceiveMessage(env, a, signed, domain, sender, body, mintAccount)
               == Administer(env, a, a.state.owner, call, mintAccount)
  {
    var call := CallIn(env.tags, body);
    TranslateSound(env.tags, body);
    DispatchOfAnchorData(env.tags, call);
    assert ReceivedCall(env, body) == Some(call);
  }

  // ---------- Configuration ----------

  /** What the owner's calls set, apart from root bundles. */
  datatype Config = Config(pausedDeposits: bool, pausedFills: bool, admin: Pubkey, routes: map<RouteKey, bool>)

  function ConfigOf(a: Accounts): Config
  {
    Config(a.state.pausedDeposits, a.state.pausedFills, a.state.crossDomainAdmin, a.routes)
  }

  /** What an observer of the events takes the configuration to be. */
  function Observed(first: Config, log: seq<Entry>): Config
  {
    if log == [] then first
    else
      var c := Observed(first, log[..|log| - 1]);
      match log[|log| - 1].event
      case PausedDeposits(paused) => c.(pausedDeposits := paused)
      case PausedFills(paused) => c.(pausedFills := paused)
      case SetXDomainAdmin(admin) => c.(admin := admin)
      case EnabledDepositRoute(route, enabled) => c.(routes := c.routes[route := enabled])
      case _ => c
  }

  /** The event that reports a call, made with the given next bundle id. */
  function Report(call: AdminCall, nextId: u32): Event
  {
    match call
    case PauseDeposits(pause) => Event.PausedDeposits(pause)
    case PauseFills(pause) => Event.PausedFills(pause)
    case SetCrossDomainAdmin(admin) => SetXDomainAdmin(admin)
    case SetEnableRoute(token, chain, enabled) => EnabledDepositRoute(RouteKey(token, chain), enabled)
    case RelayRootBundle(refund, slow) => RelayedRootBundle(nextId, refund, slow)
    case EmergencyDeleteRootBundle(id) => DeletedRootBundle(id)
  }

  /** The event reports what the step does to the configuration. */
  ghost predicate Configures(a: Accounts, post: Post)
  {
    forall e: Entry, log: seq<Entry>, first: Config ::
      e.event == post.event && Observed(first, log) == ConfigOf(a) ==>
        Observed(first, log + [e]) == ConfigOf(post.accounts)
  }

  lemma AdministerConfigures(env: Env, a: Accounts, signer: Pubkey, call: AdminCall, mintAccount: Pubkey)
    requires Administer(env, a, signer, call, mintAccount).Ok?
    ensures var post := Administer(env, a, signer, call, mintAccount).value;
            Configures(a, post) && post.event == Report(call, a.state.rootBundleId)
  {
    var post := Administer(env, a, signer, call, mintAccount).value;
    forall e: Entry, log: seq<Entry>, first: Config | e.event == post.event && Observed(first, log) == ConfigOf(a)
      ensures Observed(first, log + [e]) == ConfigOf(post.accounts)
    {
      assert (log + [e])[..|log + [e]| - 1] == log;
    }
  }

  /** The configuration is unchanged, and the event says nothing of it. */
  ghost predicate Quiet(a: Accounts, post: Post)
  {
    && ConfigOf(post.accounts) == ConfigOf(a)
    && !post.event.PausedDeposits? && !post.event.PausedFills? && !post.event.SetXDomainAdmin?
    && !post.event.EnabledDepositRoute?
  }

  lemma QuietStepsConfigure(a: Accounts, post: Post)
    requires Quiet(a, post)
    ensures Configures(a, post)
  {
    forall e: Entry, log: seq<Entry>, first: Config | e.event == post.event && Observed(first, log) == ConfigOf(a)
      ensures Observed(first, log + [e]) == ConfigOf(post.accounts)
    {
      assert (log + [e])[..|log + [e]| - 1] == log;
    }
  }

  lemma RelaysAreQuiet(env: Env, a: Accounts, t: Transaction)
    requires t.step.Deposit? || t.step.Fill? || t.step.RequestSlowFill? || t.step.ExecuteSlowFill? || t.step.CloseFill?
    requires Apply(env, a, t.now, t.step).Ok?
    ensures Quiet(a, Apply(env, a, t.now, t.step).value)
  {
  }

  lemma OthersAreQuiet(env: Env, a: Accounts, t: Transaction)
    requires t.step.ExecuteRefund? || t.step.InitializeClaim? || t.step.Claim? || t.step.CloseClaim? || t.step.Bridge?
             || t.step.TransferOwner? || t.step.External?
    requires Apply(env, a, t.now, t.step).Ok?
    ensures Quiet(a, Apply(env, a, t.now, t.step).value)
  {
  }

  lemma StepConfigures(env: Env, a: Accounts, t: Transaction)
    requires Apply(env, a, t.now, t.step).Ok?
    ensures Configures(a, Apply(env, a, t.now, t.step).value)
  {
    var post := Apply(env, a, t.now, t.step).value;
    match t.step
    case Admin(signer, call, mintAccount) => AdministerConfigures(env, a, signer, call, mintAccount);
    case Receive(_, _, _, _, body, mintAccount) =>
      AdministerConfigures(env, a, env.selfAuthority, ReceivedCall(env, body).value, mintAccount);
    case _ =>
      if t.step.Deposit? || t.step.Fill? || t.step.RequestSlowFill? || t.step.ExecuteSlowFill? || t.step.CloseFill? {
        RelaysAreQuiet(env, a, t);
      } else {
        OthersAreQuiet(env, a, t);
      }
      QuietStepsConfigure(a, post);
  }

  lemma {:induction false} RunConfigures(env: Env, first: Config, w: World, ts: seq<Transaction>)
    requires ConfigOf(w.accounts) == Observed(first, w.log)
    ensures ConfigOf(Run(env, w, ts).accounts) == Observed(first, Run(env, w, ts).log)
    decreases |ts|
  {
    if ts != [] {
      if Apply(env, w.accounts, ts[0].now, ts[0].step).Ok? {
        StepConfigures(env, w.accounts, ts[0]);
      }
      RunConfigures(env, first, Next(env, w, ts[0]), ts[1..]);
    }
  }

  /** The pauses, the cross-domain admin and the routes are at any time what the events so far say they are. */
  lemma ConfigIsObserved(env: Env, w0: World, w: World)
    requires Reaches(env, w0, w)
    ensures ConfigOf(w.accounts) == Observed(ConfigOf(w0.accounts), w.log)
  {
    var ts :| Chronological(w0.clock, ts) && w == Run(env, w0, ts);
    RunConfigures(env, ConfigOf(w0.accounts), w0, ts);
  }

  // ---------- Ownership ----------

  /** The owner that the logged transfers leave, starting from a first owner. */
  function OwnerAfter(first: Pubkey, log: seq<Entry>): Pubkey
  {
    if log == [] then first
    else if log[|log| - 1].step.TransferOwner? then log[|log| - 1].step.newOwner
    else OwnerAfter(first, log[..|log| - 1])
  }

  /** Every logged transfer was signed by the owner of its time, and the owner now is the last one named. */
  ghost predicate OwnershipOk(first: Pubkey, w: World)
  {
    && w.accounts.state.owner == OwnerAfter(first, w.log)
    && forall i :: 0 <= i < |w.log| && w.log[i].step.TransferOwner? ==>
         w.log[i].step.signer == OwnerAfter(first, w.log[..i])
  }

  lemma AdministerKeepsOwner(env: Env, a: Accounts, signer: Pubkey, call: AdminCall, mintAccount: Pubkey)
    requires Administer(env, a, signer, call, mintAccount).Ok?
    ensures Administer(env, a, signer, call, mintAccount).value.accounts.state.owner == a.state.owner
  {
  }

  lemma RelaysKeepOwner(env: Env, a: Accounts, t: Transaction)
    requires t.step.Deposit? || t.step.Fill? || t.step.RequestSlowFill? || t.step.ExecuteSlowFill? || t.step.CloseFill?
    requires Apply(env, a, t.now, t.step).Ok?
    ensures Apply(env, a, t.now, t.step).value.accounts.state.owner == a.state.owner
  {
  }

  lemma RefundsKeepOwner(env: Env, a: Accounts, t: Transaction)
    requires t.step.ExecuteRefund? || t.step.InitializeClaim? || t.step.Claim? || t.step.CloseClaim? || t.step.Bridge?
    requires Apply(env, a, t.now, t.step).Ok?
    ensures Apply(env, a, t.now, t.step).value.accounts.state.owner == a.state.owner
  {
  }

  lemma StepOwner(env: Env, a: Accounts, t: Transaction)
    requires Apply(env, a, t.now, t.step).Ok?
    ensures Apply(env, a, t.now, t.step).value.accounts.state.owner
            == if t.step.TransferOwner? then t.step.newOwner else a.state.owner
    ensures t.step.TransferOwner? ==> t.step.signer == a.state.owner
  {
    match t.step
    case Admin(signer, call, mintAccount) => AdministerKeepsOwner(env, a, signer, call, mintAccount);
    case Receive(_, _, _, _, body, mintAccount) =>
      AdministerKeepsOwner(env, a, env.selfAuthority, ReceivedCall(env, body).value, mintAccount);
    case TransferOwner(_, _) =>
    case External(_, _, _) =>
    case _ =>
      if t.step.ExecuteRefund? || t.step.InitializeClaim? || t.step.Claim? || t.step.CloseClaim? || t.step.Bridge? {
        RefundsKeepOwner(env, a, t);
      } else {
        RelaysKeepOwner(env, a, t);
      }
  }

  lemma StepKeepsOwnership(env: Env, first: Pubkey, w: World, t: Transaction)
    requires OwnershipOk(first, w)
    ensures OwnershipOk(first, Next(env, w, t))
  {
    var outcome := Apply(env, w.accounts, t.now, t.step);
    if outcome.Ok? {
      StepOwner(env, w.accounts, t);
      var log := After(w, t, outcome.value).log;
      assert log[..|log| - 1] == w.log;
      assert forall i :: 0 <= i <= |w.log| ==> log[..i] == w.log[..i];
      assert w.log[..|w.log|] == w.log;
    }
  }

  lemma {:induction false} RunKeepsOwnership(env: Env, first: Pubkey, w: World, ts: seq<Transaction>)
    requires OwnershipOk(first, w)
    ensures OwnershipOk(first, Run(env, w, ts))
    decreases |ts|
  {
    if ts != [] {
      StepKeepsOwnership(env, first, w, ts[0]);
      RunKeepsOwnership(env, first, Next(env, w, ts[0]), ts[1..]);
    }
  }

  /** Over any run, remote messages included, the owner changes only when the current owner signs a transfer. */
  lemma OwnerChangesBySignature(env: Env, w0: World, w: World)
    requires Reaches(env, w0, w)
    ensures OwnershipOk(w0.accounts.state.owner, w)
  {
    var ts :| Chronological(w0.clock, ts) && w == Run(env, w0, ts);
    RunKeepsOwnership(env, w0.accounts.state.owner, w0, ts);
  }
}
