/** Deposits over a run: their ids, their times, and what each one moved. */
module Deposits {
  import opened Binary
  import opened Results
  import opened CallData
  import opened Ledger
  import opened Spoke
  import opened Refunds
  import opened History

  function Count(log: seq<Entry>): nat
  {
    if log == [] then 0
    else Count(log[..|log| - 1]) + (if log[|log| - 1].event.V3FundsDeposited? then 1 else 0)
  }

  // ---------- One step ----------

  ghost predicate Counts(a: Accounts, post: Post)
  {
    && post.accounts.state.numberOfDeposits
       == a.state.numberOfDeposits + (if post.event.V3FundsDeposited? then 1 else 0)
    && (post.event.V3FundsDeposited? ==> post.event.depositId == post.accounts.state.numberOfDeposits)
  }

  lemma AdministerCounts(env: Env, a: Accounts, signer: Pubkey, call: AdminCall, mintAccount: Pubkey)
    requires Administer(env, a, signer, call, mintAccount).Ok?
    ensures Counts(a, Administer(env, a, signer, call, mintAccount).value)
  {
  }

  lemma TransfersCount(env: Env, a: Accounts, t: Transaction)
    requires t.step.Deposit? || t.step.Fill? || t.step.ExecuteSlowFill?
    requires Apply(env, a, t.now, t.step).Ok?
    ensures Counts(a, Apply(env, a, t.now, t.step).value)
  {
  }

  lemma OtherStepsCount(env: Env, a: Accounts, t: Transaction)
    requires !t.step.Deposit? && !t.step.Fill? && !t.step.ExecuteSlowFill?
    requires !t.step.Admin? && !t.step.Receive? && !t.step.ExecuteRefund?
    requires Apply(env, a, t.now, t.step).Ok?
    ensures Counts(a, Apply(env, a, t.now, t.step).value)
  {
  }

  lemma StepCounts(env: Env, a: Accounts, t: Transaction)
    requires Apply(env, a, t.now, t.step).Ok?
    ensures Counts(a, Apply(env, a, t.now, t.step).value)
  {
    match t.step
    case Admin(signer, call, mintAccount) => AdministerCounts(env, a, signer, call, mintAccount);
    case Receive(_, _, _, _, body, mintAccount) =>
      AdministerCounts(env, a, env.selfAuthority, ReceivedCall(env, body).value, mintAccount);
    case ExecuteRefund(_, _, _, _, _) =>
    case _ =>
      if t.step.Deposit? || t.step.Fill? || t.step.ExecuteSlowFill? {
        TransfersCount(env, a, t);
      } else {
        OtherStepsCount(env, a, t);
      }
  }

  // ---------- Runs ----------

  lemma {:induction false} RunCounts(env: Env, start: u32, w: World, ts: seq<Transaction>)
    requires w.accounts.state.numberOfDeposits == start + Count(w.log)
    ensures Run(env, w, ts).accounts.state.numberOfDeposits == start + Count(Run(env, w, ts).log)
    decreases |ts|
  {
    if ts != [] {
      var outcome := Apply(env, w.accounts, ts[0].now, ts[0].step);
      if outcome.Ok? {
        StepCounts(env, w.accounts, ts[0]);
        var log := After(w, ts[0], outcome.value).log;
        assert log[..|log| - 1] == w.log;
      }
      RunCounts(env, start, Next(env, w, ts[0]), ts[1..]);
    }
  }

  lemma ReachableCount(env: Env, w0: World, w: World)
    requires Reaches(env, w0, w)
    ensures w.accounts.state.numberOfDeposits == w0.accounts.state.numberOfDeposits + Count(w.log)
  {
    var ts :| Chronological(w0.clock, ts) && w == Run(env, w0, ts);
    RunCounts(env, w0.accounts.state.numberOfDeposits, w0, ts);
  }

  /** Deposits are numbered in the order in which they are made, without gaps, on from the initial number. */
  lemma DepositIds(env: Env, w0: World, w: World, k: nat)
    requires Reaches(env, w0, w) && k < |w.log| && w.log[k].event.V3FundsDeposited?
    ensures w.log[k].event.depositId == w0.accounts.state.numberOfDeposits + Count(w.log[..k]) + 1
  {
    var u := EntryMadeIn(env, w0, w, k);
    ReachableCount(env, w0, u);
    StepCounts(env, u.accounts, Transaction(w.log[k].now, w.log[k].step));
  }

  lemma {:induction false} CountGrows(log: seq<Entry>, i: nat, j: nat)
    requires i < j <= |log| && log[i].event.V3FundsDeposited?
    ensures Count(log[..i]) < Count(log[..j])
  {
    assert log[..j][..j - 1] == log[..j - 1];
    if i + 1 < j {
      CountGrows(log, i, j - 1);
    }
  }

  /** No two deposits of a run share an id, and later ones have greater ids. */
  lemma DepositIdsIncrease(env: Env, w0: World, w: World, i: nat, j: nat)
    requires Reaches(env, w0, w) && i < j < |w.log|
    requires w.log[i].event.V3FundsDeposited? && w.log[j].event.V3FundsDeposited?
    ensures w.log[i].event.depositId < w.log[j].event.depositId
  {
    DepositIds(env, w0, w, i);
    DepositIds(env, w0, w, j);
    CountGrows(w.log, i, j);
  }

  // ---------- Times ----------

  /** The window that the program's documentation and tests describe, without regard to overflow. */
  predicate InWindow(state: State, now: int, quoteTimestamp: int, fillDeadline: int)
  {
    && 0 <= now - quoteTimestamp <= state.depositQuoteTimeBuffer
    && now <= fillDeadline <= now + state.fillDeadlineBuffer
  }

  /** A deposit in the window is accepted unless now + fill_deadline_buffer overflows; no other is. */
  lemma AcceptedTimes(state: State, now: u32, quoteTimestamp: u32, fillDeadline: u32)
    ensures CheckDepositTimes(state, now, quoteTimestamp, fillDeadline).Ok?
            <==> InWindow(state, now, quoteTimestamp, fillDeadline) && now + state.fillDeadlineBuffer <= U32_MAX
  {
  }

  /** A bad quote timestamp gets the error named after it only when it is too old, not when it lies ahead. */
  lemma QuoteErrors(state: State, now: u32, quoteTimestamp: u32, fillDeadline: u32)
    ensures var r := CheckDepositTimes(state, now, quoteTimestamp, fillDeadline);
            && (r == Err(InvalidQuoteTimestamp) <==> quoteTimestamp + state.depositQuoteTimeBuffer < now)
            && (quoteTimestamp > now ==> r == Err(ArithmeticOverflow))
  {
  }

  /** An accepted deposit moved its input amount from the user's account into the vault and touched nothing else. */
  lemma DepositMoves(env: Env, w0: World, w: World, k: nat, key: Pubkey)
    requires Reaches(env, w0, w) && k < |w.log| && w.log[k].step.Deposit?
    ensures var e, args := w.log[k], w.log[k].step.args;
            var vault, post := VaultFor(env, args.inputToken), Apply(env, e.before, e.now, e.step);
            && InWindow(e.before.state, e.now, args.quoteTimestamp, args.fillDeadline)
            && !e.before.state.pausedDeposits
            && RouteKey(args.inputToken, args.destinationChainId) in e.before.routes
            && e.before.routes[RouteKey(args.inputToken, args.destinationChainId)]
            && post.Ok?
            && Balance(post.value.accounts.ledger, key)
               == Balance(e.before.ledger, key)
                  - (if key == e.step.userToken then args.inputAmount else 0)
                  + (if key == vault.key then args.inputAmount else 0)
            && e.event == V3FundsDeposited(args, e.before.state.numberOfDeposits + 1)
  {
    var u := EntryMadeIn(env, w0, w, k);
    var e, args, vault := w.log[k], w.log[k].step.args, VaultFor(env, w.log[k].step.args.inputToken);
    AcceptedTimes(e.before.state, e.now, args.quoteTimestamp, args.fillDeadline);
    TransferBalances(e.before.ledger, e.step.userToken, vault.key, vault.mint, e.step.signer, args.inputAmount);
  }
}
