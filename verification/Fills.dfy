/**
 What every run keeps about relays: for each relay hash the log shows one of a few short histories, unless
 two different relay data with that very hash were submitted, which is an explicit collision.
 */
module Fills {
  import opened Binary
  import opened Results
  import opened Leaves
  import opened Spoke
  import opened CallData

  // ---------- Reading the log ----------

  datatype Mark = Requested | FilledFast | FilledReplacing | FilledSlow | Closed

  /** A transaction on a relay's status account: what it did, with which relay data, and when. */
  datatype Visit = Visit(mark: Mark, rd: RelayData, now: u32)

  predicate OnRelay(step: Step)
  {
    step.Fill? || step.CloseFill? || step.RequestSlowFill? || step.ExecuteSlowFill?
  }

  function MarkOf(event: Event): Mark
  {
    match event
    case FilledV3Relay(_, _, _, _, fillType) =>
      (match fillType
       case FastFill => FilledFast
       case ReplacedSlowFill => FilledReplacing
       case SlowFill => FilledSlow)
    case RequestedV3SlowFill(_) => Requested
    case _ => Closed
  }

  function VisitOf(e: Entry): Visit
    requires OnRelay(e.step)
  {
    Visit(MarkOf(e.event), e.step.rd, e.now)
  }

  predicate Visited(e: Entry, relayHash: Hash)
  {
    OnRelay(e.step) && e.step.relayHash == relayHash
  }

  function Visits(log: seq<Entry>, relayHash: Hash): seq<Visit>
  {
    if log == [] then []
    else
      var earlier, e := Visits(log[..|log| - 1], relayHash), log[|log| - 1];
      if Visited(e, relayHash) then earlier + [VisitOf(e)] else earlier
  }

  /** Who last filled the relay fast, or requested a slow fill of it. */
  function RelayerIn(log: seq<Entry>, relayHash: Hash): Pubkey
  {
    if log == [] then DEFAULT_PUBKEY
    else
      var e := log[|log| - 1];
      if Visited(e, relayHash) && (e.step.Fill? || e.step.RequestSlowFill?) then e.step.signer
      else RelayerIn(log[..|log| - 1], relayHash)
  }

  /** The status a history leaves behind; None is a missing account. */
  function StatusAfter(vs: seq<Visit>): Option<FillStatus>
  {
    if vs == [] then None
    else
      match vs[|vs| - 1].mark
      case Requested => Some(RequestedSlowFill)
      case Closed => None
      case _ => Some(Filled)
  }

  predicate IsFill(mark: Mark)
  {
    mark == FilledFast || mark == FilledReplacing || mark == FilledSlow
  }

  /**
   The only histories of a relay: prefixes of request, slow or replacing fill, close; of request, close;
   and of fast fill, close.
   */
  predicate Legal(vs: seq<Visit>)
  {
    && |vs| <= 3
    && (|vs| >= 1 ==> vs[0].mark == Requested || vs[0].mark == FilledFast)
    && (|vs| >= 2 ==> if vs[0].mark == Requested then vs[1].mark in {FilledSlow, FilledReplacing, Closed}
                      else vs[1].mark == Closed)
    && (|vs| == 3 ==> vs[0].mark == Requested && vs[1].mark != Closed && vs[2].mark == Closed)
  }

  /** Requests come strictly after exclusivity, requests and fills by the deadline, closing strictly after it. */
  predicate Timely(v: Visit)
  {
    && (v.mark == Requested ==> v.rd.exclusivityDeadline < v.now)
    && (if v.mark == Closed then v.rd.fillDeadline < v.now else v.now <= v.rd.fillDeadline)
  }

  predicate OneRelay(vs: seq<Visit>)
  {
    forall i, j :: 0 <= i < |vs| && 0 <= j < |vs| ==> vs[i].rd == vs[j].rd
  }

  // ---------- One step ----------

  /** The status, or its absence, that a visit needs to find. */
  predicate Allowed(was: Option<FillStatus>, mark: Mark)
  {
    && (mark == Requested || mark == FilledFast ==> was == None || was == Some(Unfilled))
    && (mark == FilledReplacing ==> was == Some(RequestedSlowFill))
    && (mark == FilledSlow ==> was.Some? && was != Some(Filled))
    && (mark == Closed ==> was.Some?)
  }

  /** Slow fills leave the relayer on record; fast fills and requests record their signer. */
  function RelayerAfter(a: Accounts, step: Step): Pubkey
    requires OnRelay(step)
  {
    if step.ExecuteSlowFill? && step.relayHash in a.fills then a.fills[step.relayHash].relayer else step.signer
  }

  ghost predicate FillChange(env: Env, a: Accounts, t: Transaction, post: Post)
  {
    var b, e := post.accounts, Entry(t.now, t.step, a, post.event);
    && b.state.chainId == a.state.chainId
    && if !OnRelay(t.step) then b.fills == a.fills
       else
         var h, v := t.step.relayHash, VisitOf(e);
         var was := if h in a.fills then Some(a.fills[h].status) else None;
         && h == env.keccak(RelayPreimage(v.rd, a.state.chainId))
         && Timely(v)
         && Allowed(was, v.mark)
         && (v.mark == Closed ==> t.step.signer == a.fills[h].relayer)
         && t.step.ExecuteSlowFill? == (v.mark == FilledSlow) && t.step.CloseFill? == (v.mark == Closed)
         && match StatusAfter([v])
            case None => b.fills == a.fills - {h}
            case Some(status) => b.fills == a.fills[h := FillStatusAccount(status, RelayerAfter(a, t.step))]
  }

  lemma AdministerKeepsFills(env: Env, a: Accounts, signer: Pubkey, call: AdminCall, mint: Pubkey)
    requires Administer(env, a, signer, call, mint).Ok?
    ensures var b := Administer(env, a, signer, call, mint).value.accounts;
            b.state.chainId == a.state.chainId && b.fills == a.fills
  {
  }

  lemma FillStepChanges(env: Env, a: Accounts, t: Transaction)
    requires t.step.Fill? && Apply(env, a, t.now, t.step).Ok?
    ensures FillChange(env, a, t, Apply(env, a, t.now, t.step).value)
  {
    assert Apply(env, a, t.now, t.step).value.accounts.fills
        == a.fills[t.step.relayHash := FillStatusAccount(Filled, t.step.signer)];
  }

  lemma SlowFillStepChanges(env: Env, a: Accounts, t: Transaction)
    requires t.step.ExecuteSlowFill? && Apply(env, a, t.now, t.step).Ok?
    ensures FillChange(env, a, t, Apply(env, a, t.now, t.step).value)
  {
    var h := t.step.relayHash;
    assert Apply(env, a, t.now, t.step).value.accounts.fills
        == a.fills[h := FillStatusAccount(Filled, a.fills[h].relayer)];
  }

  lemma RequestStepChanges(env: Env, a: Accounts, t: Transaction)
    requires t.step.RequestSlowFill? && Apply(env, a, t.now, t.step).Ok?
    ensures FillChange(env, a, t, Apply(env, a, t.now, t.step).value)
  {
    assert Apply(env, a, t.now, t.step).value.accounts.fills
        == a.fills[t.step.relayHash := FillStatusAccount(RequestedSlowFill, t.step.signer)];
  }

  lemma CloseStepChanges(env: Env, a: Accounts, t: Transaction)
    requires t.step.CloseFill? && Apply(env, a, t.now, t.step).Ok?
    ensures FillChange(env, a, t, Apply(env, a, t.now, t.step).value)
  {
  }

  lemma OwnerStepsChangeNoFill(env: Env, a: Accounts, t: Transaction)
    requires t.step.Admin? || t.step.Receive?
    requires Apply(env, a, t.now, t.step).Ok?
    ensures FillChange(env, a, t, Apply(env, a, t.now, t.step).value)
  {
    if t.step.Admin? {
      AdministerKeepsFills(env, a, t.step.signer, t.step.call, t.step.mintAccount);
    } else {
      AdministerKeepsFills(env, a, env.selfAuthority, ReceivedCall(env, t.step.body).value, t.step.mintAccount);
    }
  }

  lemma OtherStepsChangeNoFill(env: Env, a: Accounts, t: Transaction)
    requires !OnRelay(t.step) && !t.step.Admin? && !t.step.Receive?
    requires Apply(env, a, t.now, t.step).Ok?
    ensures FillChange(env, a, t, Apply(env, a, t.now, t.step).value)
  {
  }

  lemma {:induction false} StepChangesFills(env: Env, a: Accounts, t: Transaction)
    requires Apply(env, a, t.now, t.step).Ok?
    ensures FillChange(env, a, t, Apply(env, a, t.now, t.step).value)
  {
    if t.step.Fill? {
      FillStepChanges(env, a, t);
    } else if t.step.ExecuteSlowFill? {
      SlowFillStepChanges(env, a, t);
    } else if t.step.RequestSlowFill? {
      RequestStepChanges(env, a, t);
    } else if t.step.CloseFill? {
      CloseStepChanges(env, a, t);
    } else if t.step.Admin? || t.step.Receive? {
      OwnerStepsChangeNoFill(env, a, t);
    } else {
      OtherStepsChangeNoFill(env, a, t);
    }
  }

  // ---------- The invariant ----------

  /** The status account of h is what the log says of it. */
  ghost predicate AccountAgrees(w: World, h: Hash)
  {
    var fills, status := w.accounts.fills, StatusAfter(Visits(w.log, h));
    && (h in fills <==> status.Some?)
    && (h in fills ==> fills[h] == FillStatusAccount(status.value, RelayerIn(w.log, h)))
  }

  /** The visits to h are timely, carry its preimages, and make a legal history if they are of one relay. */
  ghost predicate HistoryOk(env: Env, chainId: u64, clock: u32, h: Hash, vs: seq<Visit>)
  {
    && (forall i :: 0 <= i < |vs| ==>
          Timely(vs[i]) && vs[i].now <= clock && h == env.keccak(RelayPreimage(vs[i].rd, chainId)))
    && (OneRelay(vs) ==> Legal(vs))
  }

  ghost predicate FillOk(env: Env, w: World, h: Hash)
  {
    AccountAgrees(w, h) && HistoryOk(env, w.accounts.state.chainId, w.clock, h, Visits(w.log, h))
  }

  lemma Grown(log: seq<Entry>, e: Entry)
    ensures (log + [e])[..|log + [e]| - 1] == log
  {
  }

  /** One more timely visit, allowed by the status that the earlier ones leave, makes a legal history again. */
  lemma LegalGrows(before: seq<Visit>, v: Visit)
    requires Legal(before) && Timely(v) && Allowed(StatusAfter(before), v.mark)
    requires before != [] ==> var last := before[|before| - 1];
                              Timely(last) && last.rd == v.rd && last.now <= v.now
    ensures Legal(before + [v])
  {
  }

  lemma OneRelayBefore(before: seq<Visit>, v: Visit)
    requires OneRelay(before + [v])
    ensures OneRelay(before)
    ensures before != [] ==> before[|before| - 1].rd == v.rd
  {
    var after := before + [v];
    forall i, j | 0 <= i < |before| && 0 <= j < |before|
      ensures before[i].rd == before[j].rd
    {
      assert after[i].rd == after[j].rd;
    }
    if before != [] {
      assert after[|before| - 1].rd == after[|before|].rd;
    }
  }

  lemma HistoryGrows(env: Env, chainId: u64, clock: u32, h: Hash, vs: seq<Visit>, v: Visit)
    requires HistoryOk(env, chainId, clock, h, vs) && clock <= v.now && Timely(v)
    requires h == env.keccak(RelayPreimage(v.rd, chainId)) && Allowed(StatusAfter(vs), v.mark)
    ensures HistoryOk(env, chainId, v.now, h, vs + [v])
  {
    if OneRelay(vs + [v]) {
      OneRelayBefore(vs, v);
      LegalGrows(vs, v);
    }
  }

  lemma VisitKeepsFillOk(env: Env, w: World, t: Transaction, post: Post, h: Hash)
    requires FillOk(env, w, h) && w.clock <= t.now
    requires FillChange(env, w.accounts, t, post)
    requires OnRelay(t.step) && t.step.relayHash == h
    ensures FillOk(env, After(w, t, post), h)
  {
    var log := After(w, t, post).log;
    Grown(w.log, log[|w.log|]);
    var before, v := Visits(w.log, h), VisitOf(log[|w.log|]);
    assert Visits(log, h) == before + [v];
    assert StatusAfter(before + [v]) == StatusAfter([v]);
    HistoryGrows(env, w.accounts.state.chainId, w.clock, h, before, v);
  }

  lemma OtherStepsKeepFillOk(env: Env, w: World, t: Transaction, post: Post, h: Hash)
    requires FillOk(env, w, h) && w.clock <= t.now
    requires FillChange(env, w.accounts, t, post)
    requires !(OnRelay(t.step) && t.step.relayHash == h)
    ensures FillOk(env, After(w, t, post), h)
  {
    var log := After(w, t, post).log;
    Grown(w.log, log[|w.log|]);
    assert Visits(log, h) == Visits(w.log, h) && RelayerIn(log, h) == RelayerIn(w.log, h);
  }

  lemma StepKeepsFillOk(env: Env, w: World, t: Transaction, h: Hash)
    requires FillOk(env, w, h) && w.clock <= t.now
    ensures FillOk(env, Next(env, w, t), h)
  {
    var outcome := Apply(env, w.accounts, t.now, t.step);
    if outcome.Ok? {
      StepChangesFills(env, w.accounts, t);
      if OnRelay(t.step) && t.step.relayHash == h {
        VisitKeepsFillOk(env, w, t, outcome.value, h);
      } else {
        OtherStepsKeepFillOk(env, w, t, outcome.value, h);
      }
    }
  }

  lemma {:induction false} RunKeepsFillOk(env: Env, w: World, ts: seq<Transaction>, h: Hash)
    requires FillOk(env, w, h) && Chronological(w.clock, ts)
    ensures FillOk(env, Run(env, w, ts), h)
    decreases |ts|
  {
    if ts != [] {
      StepKeepsFillOk(env, w, ts[0], h);
      RunKeepsFillOk(env, Next(env, w, ts[0]), ts[1..], h);
    }
  }

  lemma ReachableFills(env: Env, w0: World, w: World, h: Hash)
    requires Reaches(env, w0, w)
    ensures FillOk(env, w, h)
  {
    var ts :| Chronological(w0.clock, ts) && w == Run(env, w0, ts);
    RunKeepsFillOk(env, w0, ts, h);
  }

  // ---------- Results ----------

  /** Two visits to one relay hash whose relay data are distinct preimages of it. */
  ghost predicate VisitsCollide(env: Env, chainId: u64, vs: seq<Visit>)
  {
    exists i, j :: 0 <= i < j < |vs|
      && Collision(env.keccak, RelayPreimage(vs[i].rd, chainId), RelayPreimage(vs[j].rd, chainId))
  }

  lemma TwoRelaysCollide(env: Env, chainId: u64, h: Hash, vs: seq<Visit>)
    requires forall i :: 0 <= i < |vs| ==> h == env.keccak(RelayPreimage(vs[i].rd, chainId))
    requires !OneRelay(vs)
    ensures VisitsCollide(env, chainId, vs)
  {
    var i, j :| 0 <= i < |vs| && 0 <= j < |vs| && vs[i].rd != vs[j].rd;
    var p, q := RelayPreimage(vs[i].rd, chainId), RelayPreimage(vs[j].rd, chainId);
    if p == q {
      RelayPreimageInjective(vs[i].rd, vs[j].rd, chainId, chainId);
    }
    assert Collision(env.keccak, p, q) && Collision(env.keccak, q, p);
  }

  /**
   In every reachable world the status account of every relay hash agrees with the log, is never Unfilled,
   and the log shows a legal, timely history of the hash or an explicit collision among its own visits.
   */
  lemma FillHistory(env: Env, w0: World, w: World, h: Hash)
    requires Reaches(env, w0, w)
    ensures var vs := Visits(w.log, h);
            && StatusAfter(vs) == (if h in w.accounts.fills then Some(w.accounts.fills[h].status) else None)
            && StatusAfter(vs) != Some(Unfilled)
            && (forall v :: v in vs ==> Timely(v))
            && (Legal(vs) || VisitsCollide(env, w.accounts.state.chainId, vs))
  {
    ReachableFills(env, w0, w, h);
    if !OneRelay(Visits(w.log, h)) {
      TwoRelaysCollide(env, w.accounts.state.chainId, h, Visits(w.log, h));
    }
  }

  lemma {:induction false} VisitsPrefix(log: seq<Entry>, k: nat, h: Hash)
    requires k <= |log|
    ensures Visits(log[..k], h) <= Visits(log, h)
  {
    if k < |log| {
      var init := log[..|log| - 1];
      VisitsPrefix(init, k, h);
      assert init[..k] == log[..k];
    } else {
      assert log[..k] == log;
    }
  }

  lemma VisitAt(log: seq<Entry>, k: nat, h: Hash)
    requires k < |log| && Visited(log[k], h)
    ensures var n := |Visits(log[..k], h)|;
            |Visits(log[..k + 1], h)| == n + 1 <= |Visits(log, h)| && Visits(log, h)[n] == VisitOf(log[k])
  {
    assert log[..k + 1] == log[..k] + [log[k]];
    Grown(log[..k], log[k]);
    VisitsPrefix(log, k + 1, h);
  }

  /** Two entries on one hash are two visits, in the same order. */
  lemma VisitsInOrder(log: seq<Entry>, i: nat, j: nat, h: Hash)
    requires i < j < |log| && Visited(log[i], h) && Visited(log[j], h)
    ensures var m, n := |Visits(log[..i], h)|, |Visits(log[..j], h)|;
            m < n < |Visits(log, h)| && Visits(log, h)[m] == VisitOf(log[i]) && Visits(log, h)[n] == VisitOf(log[j])
  {
    VisitAt(log, i, h);
    VisitAt(log, j, h);
    VisitsPrefix(log[..j], i + 1, h);
    assert log[..j][..i + 1] == log[..i + 1];
  }

  lemma LegalFillsOnce(vs: seq<Visit>, m: nat, n: nat)
    requires m < n < |vs| && IsFill(vs[m].mark) && IsFill(vs[n].mark)
    ensures !Legal(vs)
  {
  }

  /** No relay is filled twice, by whatever mix of fast and slow fills and closings, short of a collision. */
  lemma FilledAtMostOnce(env: Env, w0: World, w: World, i: nat, j: nat)
    requires Reaches(env, w0, w)
    requires i < j < |w.log|
    requires OnRelay(w.log[i].step) && IsFill(MarkOf(w.log[i].event))
    requires OnRelay(w.log[j].step) && IsFill(MarkOf(w.log[j].event))
    requires w.log[i].step.relayHash == w.log[j].step.relayHash
    ensures VisitsCollide(env, w.accounts.state.chainId, Visits(w.log, w.log[i].step.relayHash))
  {
    var h := w.log[i].step.relayHash;
    FillHistory(env, w0, w, h);
    VisitsInOrder(w.log, i, j, h);
    if Legal(Visits(w.log, h)) {
      LegalFillsOnce(Visits(w.log, h), |Visits(w.log[..i], h)|, |Visits(w.log[..j], h)|);
    }
  }

  /** The same relay data filled twice is a collision with other data, submitted in between to close the account. */
  lemma RelayDataFilledAtMostOnce(env: Env, w0: World, w: World, i: nat, j: nat)
    requires Reaches(env, w0, w)
    requires i < j < |w.log|
    requires OnRelay(w.log[i].step) && IsFill(MarkOf(w.log[i].event))
    requires OnRelay(w.log[j].step) && IsFill(MarkOf(w.log[j].event))
    requires w.log[i].step.rd == w.log[j].step.rd
    ensures VisitsCollide(env, w.accounts.state.chainId, Visits(w.log, w.log[i].step.relayHash))
  {
    var h, g := w.log[i].step.relayHash, w.log[j].step.relayHash;
    ReachableFills(env, w0, w, h);
    ReachableFills(env, w0, w, g);
    VisitAt(w.log, i, h);
    VisitAt(w.log, j, g);
    assert h == g;
    FilledAtMostOnce(env, w0, w, i, j);
  }

  /** A slow fill or a replacing fill is the second visit, right after the one request, short of a collision. */
  lemma SlowFollowsRequest(env: Env, w0: World, w: World, h: Hash, n: nat)
    requires Reaches(env, w0, w)
    requires n < |Visits(w.log, h)|
    requires Visits(w.log, h)[n].mark == FilledSlow || Visits(w.log, h)[n].mark == FilledReplacing
    ensures var vs := Visits(w.log, h);
            || VisitsCollide(env, w.accounts.state.chainId, vs)
            || (n == 1 && vs[0].mark == Requested && vs[0].rd.exclusivityDeadline < vs[0].now)
  {
    var vs := Visits(w.log, h);
    FillHistory(env, w0, w, h);
    assert vs[0] in vs;
    if Legal(vs) {
      LegalSlow(vs, n);
    }
  }

  lemma LegalSlow(vs: seq<Visit>, n: nat)
    requires Legal(vs) && n < |vs| && (vs[n].mark == FilledSlow || vs[n].mark == FilledReplacing)
    ensures n == 1 && vs[0].mark == Requested
  {
  }
}
