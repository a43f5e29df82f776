/** The fenced, throttled lease under which external-wallet activity is synchronized. */
module SyncLease {
  import opened Wrappers

  const SYNC_THROTTLE_MS := 60_000
  const SYNC_LEASE_MS := 120_000

  type LeaseId = nat
  type Time = int

  /** The state row, and the time at which each run that claimed it had started. */
  datatype State = State(
    leaseId: Option<LeaseId>,
    leaseExpiresAt: Option<Time>,
    lastStartedAt: Option<Time>,
    lastCompletedAt: Option<Time>,
    nextAllowedAt: Option<Time>,
    starts: map<LeaseId, Time>)

  function Idle(): State {
    State(None, None, None, None, None, map[])
  }

  datatype Event =
    | Claim(run: LeaseId, now: Time)
    | Finish(run: LeaseId, now: Time)
    | Fail(run: LeaseId, now: Time)

  predicate Due(at: Option<Time>, now: Time) {
    at.None? || at.value <= now
  }

  /** The claim's WHERE clause; a lease id is fresh. */
  predicate Claimable(s: State, run: LeaseId, now: Time) {
    run !in s.starts && Due(s.leaseExpiresAt, now) && Due(s.nextAllowedAt, now)
  }

  /** A holder releases only the lease it holds, and its clock has not gone back since its start. */
  predicate Releases(s: State, run: LeaseId, now: Time) {
    s.leaseId == Some(run) && run in s.starts && s.starts[run] <= now
  }

  function Claimed(s: State, run: LeaseId, now: Time): State {
    s.(leaseId := Some(run), leaseExpiresAt := Some(now + SYNC_LEASE_MS), lastStartedAt := Some(now),
       starts := s.starts[run := now])
  }

  function Released(s: State, now: Time): State {
    s.(leaseId := None, leaseExpiresAt := None, nextAllowedAt := Some(now + SYNC_THROTTLE_MS))
  }

  function Step(s: State, e: Event): State {
    match e
    case Claim(run, now) => if Claimable(s, run, now) then Claimed(s, run, now) else s
    case Finish(run, now) =>
      if Releases(s, run, now) then Released(s, now).(lastCompletedAt := Some(now)) else s
    case Fail(run, now) => if Releases(s, run, now) then Released(s, now) else s
  }

  function Run(es: seq<Event>): State {
    if es == [] then Idle() else Step(Run(es[..|es| - 1]), es[|es| - 1])
  }

  /** The start times of the claims that succeeded in a run, in order. */
  function Starts(es: seq<Event>): seq<Time> {
    if es == [] then []
    else
      var before := es[..|es| - 1];
      var e := es[|es| - 1];
      if e.Claim? && Claimable(Run(before), e.run, e.now) then Starts(before) + [e.now] else Starts(before)
  }

  ghost predicate Inv(s: State) {
    && (s.leaseId.Some? <==> s.leaseExpiresAt.Some?)
    && (s.leaseId.Some? ==>
          && s.leaseId.value in s.starts
          && s.lastStartedAt == Some(s.starts[s.leaseId.value])
          && s.leaseExpiresAt == Some(s.starts[s.leaseId.value] + SYNC_LEASE_MS))
    && (s.leaseId.None? && s.lastStartedAt.Some? ==>
          s.nextAllowedAt.Some? && s.lastStartedAt.value + SYNC_THROTTLE_MS <= s.nextAllowedAt.value)
  }

  lemma {:induction false} RunKeeps(es: seq<Event>)
    ensures Inv(Run(es))
  {
    if es != [] {
      RunKeeps(es[..|es| - 1]);
    }
  }

  /** The recorded start is the latest successful claim, and every earlier one lies a minute back. */
  lemma {:induction false} StartsAreSpaced(es: seq<Event>)
    ensures var starts := Starts(es);
            && (starts == [] <==> Run(es).lastStartedAt.None?)
            && (starts != [] ==> Run(es).lastStartedAt == Some(starts[|starts| - 1]))
            && (forall i, j | 0 <= i < j < |starts| :: starts[i] + 60_000 <= starts[j])
  {
    if es != [] {
      var before, e := es[..|es| - 1], es[|es| - 1];
      StartsAreSpaced(before);
      RunKeeps(before);
      var s := Run(before);
      if e.Claim? && Claimable(s, e.run, e.now) && s.lastStartedAt.Some? {
        assert s.lastStartedAt.value + SYNC_THROTTLE_MS <= e.now;
      }
    }
  }

  /** A lease runs out two minutes after its start. */
  lemma LeasesLastTwoMinutes(es: seq<Event>)
    ensures var s := Run(es);
            && (s.leaseId.Some? <==> s.leaseExpiresAt.Some?)
            && (s.leaseId.Some? ==> s.lastStartedAt.Some? && s.leaseExpiresAt == Some(s.lastStartedAt.value + 120_000))
  {
    RunKeeps(es);
  }

  /** A run gets the lease only by claiming it when no lease is running and no throttle either. */
  lemma LeaseIsTakenWhenDue(s: State, e: Event, run: LeaseId)
    requires s.leaseId != Some(run) && Step(s, e).leaseId == Some(run)
    ensures e.Claim? && e.run == run && Step(s, e).lastStartedAt == Some(e.now)
    ensures s.leaseExpiresAt.Some? ==> s.leaseExpiresAt.value <= e.now
    ensures s.nextAllowedAt.Some? ==> s.nextAllowedAt.value <= e.now
  {}

  /** What a run that no longer holds the lease does when it finishes or fails: nothing. */
  lemma LostLeaseIsFenced(s: State, run: LeaseId, now: Time)
    ensures s.leaseId != Some(run) ==> Step(s, Finish(run, now)) == s && Step(s, Fail(run, now)) == s
    ensures s.leaseId == Some(run) && Inv(s) && s.starts[run] <= now ==>
              && Step(s, Fail(run, now)).leaseId.None?
              && Step(s, Fail(run, now)).nextAllowedAt == Some(now + SYNC_THROTTLE_MS)
              && Step(s, Finish(run, now)).leaseId.None?
              && Step(s, Finish(run, now)).nextAllowedAt == Some(now + SYNC_THROTTLE_MS)
  {}

  /** A lease that was taken over, or given back, is never held again by the same run. */
  lemma {:induction false} LostLeaseStaysLost(es: seq<Event>, more: seq<Event>, run: LeaseId)
    requires run in Run(es).starts && Run(es).leaseId != Some(run)
    ensures run in Run(es + more).starts && Run(es + more).leaseId != Some(run)
  {
    if more == [] {
      assert es + more == es;
    } else {
      var n := |more| - 1;
      assert (es + more)[..|es + more| - 1] == es + more[..n];
      LostLeaseStaysLost(es, more[..n], run);
    }
  }

  /** However the rest of the run goes, a fenced holder's release leaves the row untouched. */
  lemma TakenOverHolderChangesNothing(es: seq<Event>, more: seq<Event>, run: LeaseId, now: Time)
    requires run in Run(es).starts && Run(es).leaseId != Some(run)
    ensures Run(es + more + [Finish(run, now)]) == Run(es + more)
    ensures Run(es + more + [Fail(run, now)]) == Run(es + more)
  {
    LostLeaseStaysLost(es, more, run);
    LostLeaseIsFenced(Run(es + more), run, now);
    var a, b := es + more + [Finish(run, now)], es + more + [Fail(run, now)];
    assert a[..|a| - 1] == es + more && b[..|b| - 1] == es + more;
  }

  // ---- One synchronization request --------------------------------------------------------

  datatype SyncStatus = Throttled | InFlight | Synced | FailedSync

  datatype Summary = Summary(status: SyncStatus, retryAfterMs: int)

  /** The row as one request sees it, with the writes other requests make before each of its own. */
  class ActivitySync {
    var state: State
    var others: seq<seq<Event>>
    ghost var log: seq<Event>

    ghost predicate Valid()
      reads this
    {
      state == Run(log)
    }

    constructor (others: seq<seq<Event>>)
      ensures Valid() && log == []
    {
      state := Idle();
      this.others := others;
      log := [];
    }

    method RoundTrip()
      requires Valid()
      modifies this
      ensures Valid() && old(log) <= log
      ensures others == if old(others) == [] then [] else old(others)[1..]
      ensures old(others) == [] ==> state == old(state) && log == old(log)
    {
      if others == [] {
        return;
      }
      var turn := others[0];
      others := others[1..];
      for k := 0 to |turn|
        invariant Valid() && old(log) <= log
        invariant others == old(others)[1..]
      {
        Write(turn[k]);
      }
    }

    method Write(e: Event)
      requires Valid()
      modifies this
      ensures Valid() && log == old(log) + [e] && state == Step(old(state), e) && others == old(others)
    {
      assert (log + [e])[..|log|] == log;
      state := Step(state, e);
      log := log + [e];
    }

    /** `run` is the random lease id; `now` and `later` are the two readings of this request's clock. */
    method RunSync(run: LeaseId, now: Time, later: Time, projectionFails: bool) returns (summary: Summary)
      requires Valid() && now <= later
      modifies this
      ensures Valid() && old(log) <= log
      ensures summary.status == Synced || summary.status == FailedSync ==>
                && run in state.starts && state.starts[run] == now
                && state.leaseId != Some(run)
                && summary.retryAfterMs == 60_000
      ensures summary.status == Synced ==> !projectionFails && log != [] && log[|log| - 1] == Finish(run, later)
      ensures summary.status == FailedSync ==> projectionFails && log != [] && log[|log| - 1] == Fail(run, later)
      ensures old(others) == [] && run !in old(state).starts ==>
                var throttled := old(state).nextAllowedAt.Some? && now < old(state).nextAllowedAt.value;
                var held := old(state).leaseExpiresAt.Some? && now < old(state).leaseExpiresAt.value;
                && summary.status == (if throttled then Throttled
                                      else if held then InFlight
                                      else if projectionFails then FailedSync
                                      else Synced)
                && (throttled ==> summary.retryAfterMs == old(state).nextAllowedAt.value - now)
                && (summary.status == InFlight ==>
                      summary.retryAfterMs == if old(state).leaseExpiresAt.value - now < 1_000 then 1_000
                                              else old(state).leaseExpiresAt.value - now)
                && (throttled || held ==> state == old(state))
                && (!throttled && !held ==>
                      && state.leaseId.None? && state.leaseExpiresAt.None?
                      && state.lastStartedAt == Some(now)
                      && state.lastCompletedAt == (if projectionFails then old(state).lastCompletedAt else Some(later))
                      && state.nextAllowedAt == Some(later + 60_000)
                      && state.starts == old(state).starts[run := now])
    {
      RoundTrip();
      if !Due(state.nextAllowedAt, now) {
        return Summary(Throttled, state.nextAllowedAt.value - now);
      }
      RoundTrip();
      var claimed := Claimable(state, run, now);
      Write(Claim(run, now));
      if claimed {
        Release(run, now, later, projectionFails);
        return Summary(if projectionFails then FailedSync else Synced, SYNC_THROTTLE_MS);
      }
      summary := Refuse(now);
    }

    /** The answer to a request whose claim found the row busy. */
    method Refuse(now: Time) returns (summary: Summary)
      requires Valid()
      modifies this
      ensures Valid() && old(log) <= log
      ensures summary.status == if Due(state.nextAllowedAt, now) then InFlight else Throttled
      ensures old(others) == [] ==>
                && state == old(state)
                && summary.retryAfterMs
                   == if !Due(state.nextAllowedAt, now) then state.nextAllowedAt.value - now
                      else if state.leaseExpiresAt.None? then SYNC_LEASE_MS
                      else if state.leaseExpiresAt.value - now < 1_000 then 1_000
                      else state.leaseExpiresAt.value - now
    {
      RoundTrip();
      if !Due(state.nextAllowedAt, now) {
        return Summary(Throttled, state.nextAllowedAt.value - now);
      }
      var until := if state.leaseExpiresAt.Some? then state.leaseExpiresAt.value else now + SYNC_LEASE_MS;
      return Summary(InFlight, if until - now < 1_000 then 1_000 else until - now);
    }

    /** The end of a synchronization that had claimed the row. */
    method Release(run: LeaseId, now: Time, later: Time, projectionFails: bool)
      requires Valid() && now <= later && run in state.starts && state.starts[run] == now
      modifies this
      ensures Valid() && old(log) <= log
      ensures run in state.starts && state.starts[run] == now && state.leaseId != Some(run)
      ensures log != [] && log[|log| - 1] == if projectionFails then Fail(run, later) else Finish(run, later)
      ensures old(others) == [] ==>
                state == Step(old(state), if projectionFails then Fail(run, later) else Finish(run, later))
    {
      ghost var mine := log;
      RoundTrip();
      StartIsKept(mine, log, run);
      Write(if projectionFails then Fail(run, later) else Finish(run, later));
    }
  }

  lemma {:induction false} StartIsKept(es: seq<Event>, fs: seq<Event>, run: LeaseId)
    requires es <= fs && run in Run(es).starts
    ensures run in Run(fs).starts && Run(fs).starts[run] == Run(es).starts[run]
    decreases |fs|
  {
    if |es| < |fs| {
      StartIsKept(es, fs[..|fs| - 1], run);
    } else {
      assert es == fs;
    }
  }
}
