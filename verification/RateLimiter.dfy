/** The limiter in front of public payment verification: a sliding window over a pruned map. */
module RateLimiter {

  const WINDOW_MS := 60_000
  const MAX_ACCEPTED := 12
  const MAX_KEYS := 5_000

  type Attempts = map<string, seq<int>>

  datatype Request = Request(key: string, now: int)

  predicate IsActive(timestamp: int, now: int) {
    now - timestamp < WINDOW_MS
  }

  function Active(timestamps: seq<int>, now: int): (r: seq<int>)
    ensures |r| <= |timestamps|
  {
    if timestamps == [] then []
    else
      var rest := Active(timestamps[..|timestamps| - 1], now);
      var last := timestamps[|timestamps| - 1];
      if IsActive(last, now) then rest + [last] else rest
  }

  predicate HasActive(timestamps: seq<int>, now: int) {
    exists i :: 0 <= i < |timestamps| && IsActive(timestamps[i], now)
  }

  function Recorded(attempts: Attempts, key: string): seq<int> {
    if key in attempts then attempts[key] else []
  }

  predicate Accepts(attempts: Attempts, q: Request) {
    |Active(Recorded(attempts, q.key), q.now)| < MAX_ACCEPTED
  }

  function Pruned(attempts: Attempts, now: int): Attempts {
    map key | key in attempts && HasActive(attempts[key], now) :: attempts[key]
  }

  /** The map without any pruning of other keys. */
  function Remember(attempts: Attempts, q: Request): Attempts {
    if Accepts(attempts, q)
    then attempts[q.key := Active(Recorded(attempts, q.key), q.now) + [q.now]]
    else attempts
  }

  function After(attempts: Attempts, q: Request): Attempts {
    var remembered := Remember(attempts, q);
    if Accepts(attempts, q) && |remembered| > MAX_KEYS then Pruned(remembered, q.now) else remembered
  }

  class PublicInvoiceController {
    var attempts: Attempts

    constructor ()
      ensures attempts == map[]
    {
      attempts := map[];
    }

    method EnforceRateLimit(q: Request) returns (accepted: bool)
      modifies this
      ensures accepted == Accepts(old(attempts), q)
      ensures attempts == After(old(attempts), q)
      ensures !accepted ==> attempts == old(attempts)
      ensures accepted ==> q.key in attempts && attempts[q.key] != [] && attempts[q.key][|attempts[q.key]| - 1] == q.now
      ensures forall key | key != q.key && key in attempts :: key in old(attempts) && attempts[key] == old(attempts)[key]
      ensures accepted && |old(attempts).Keys + {q.key}| > 5_000 ==>
                forall key | key in attempts ::
                  exists i :: 0 <= i < |attempts[key]| && q.now - attempts[key][i] < 60_000
      ensures accepted && |old(attempts).Keys + {q.key}| <= 5_000 ==> attempts.Keys == old(attempts).Keys + {q.key}
    {
      var active := Active(Recorded(attempts, q.key), q.now);
      if |active| >= MAX_ACCEPTED {
        return false;
      }
      attempts := attempts[q.key := active + [q.now]];
      assert attempts.Keys == old(attempts).Keys + {q.key};
      assert IsActive(attempts[q.key][|active|], q.now);
      if |attempts| > MAX_KEYS {
        Prune(q.now);
      }
      return true;
    }

    method Prune(now: int)
      modifies this
      ensures attempts == Pruned(old(attempts), now)
    {
      var unseen := attempts.Keys;
      while unseen != {}
        invariant unseen <= old(attempts).Keys
        invariant attempts.Keys <= old(attempts).Keys
        invariant forall key :: key in attempts ==> attempts[key] == old(attempts)[key]
        invariant forall key :: key in old(attempts) ==>
                                  (key in attempts <==> key in unseen || HasActive(old(attempts)[key], now))
        decreases unseen
      {
        var candidate :| candidate in unseen;
        unseen := unseen - {candidate};
        if !HasActive(attempts[candidate], now) {
          attempts := attempts - {candidate};
        }
      }
    }
  }

  // ---- Runs of the limiter ---------------------------------------------------------------

  predicate InOrder(qs: seq<Request>) {
    forall i, j | 0 <= i < j < |qs| :: qs[i].now <= qs[j].now
  }

  function Run(qs: seq<Request>): Attempts {
    if qs == [] then map[] else After(Run(qs[..|qs| - 1]), qs[|qs| - 1])
  }

  function RunUnpruned(qs: seq<Request>): Attempts {
    if qs == [] then map[] else Remember(RunUnpruned(qs[..|qs| - 1]), qs[|qs| - 1])
  }

  /** The decision on the last request of a run. */
  predicate Decision(qs: seq<Request>)
    requires qs != []
  {
    Accepts(Run(qs[..|qs| - 1]), qs[|qs| - 1])
  }

  predicate DecisionUnpruned(qs: seq<Request>)
    requires qs != []
  {
    Accepts(RunUnpruned(qs[..|qs| - 1]), qs[|qs| - 1])
  }

  /** The times at which a run accepted a key. */
  function AcceptedTimes(qs: seq<Request>, key: string): seq<int> {
    if qs == [] then []
    else
      var before := AcceptedTimes(qs[..|qs| - 1], key);
      if qs[|qs| - 1].key == key && Decision(qs) then before + [qs[|qs| - 1].now] else before
  }

  /** Two records of a key that no decision at or after `now` can tell apart. */
  ghost predicate SameFrom(a: seq<int>, b: seq<int>, now: int) {
    forall later :: later >= now ==> Active(a, later) == Active(b, later)
  }

  lemma {:induction false} ActiveConcat(a: seq<int>, b: seq<int>, now: int)
    ensures Active(a + b, now) == Active(a, now) + Active(b, now)
  {
    if b == [] {
      assert a + b == a;
    } else {
      assert (a + b)[..|a + b| - 1] == a + b[..|b| - 1];
      ActiveConcat(a, b[..|b| - 1], now);
    }
  }

  /** Dropping what has left the window now does not matter later. */
  lemma {:induction false} ActiveTwice(a: seq<int>, now: int, later: int)
    requires now <= later
    ensures Active(Active(a, now), later) == Active(a, later)
  {
    if a != [] {
      var n := |a| - 1;
      ActiveTwice(a[..n], now, later);
      if IsActive(a[n], now) {
        ActiveConcat(Active(a[..n], now), [a[n]], later);
      }
    }
  }

  lemma {:induction false} NoneActive(a: seq<int>, now: int, later: int)
    requires now <= later && !HasActive(a, now)
    ensures Active(a, later) == []
  {
    if a != [] {
      var n := |a| - 1;
      assert !IsActive(a[n], now);
      assert forall i | 0 <= i < n :: a[..n][i] == a[i];
      NoneActive(a[..n], now, later);
    }
  }

  lemma PrunedSame(attempts: Attempts, key: string, now: int)
    ensures SameFrom(Recorded(attempts, key), Recorded(Pruned(attempts, now), key), now)
  {
    forall later | later >= now
      ensures Active(Recorded(attempts, key), later) == Active(Recorded(Pruned(attempts, now), key), later)
    {
      if key in attempts && !HasActive(attempts[key], now) {
        NoneActive(attempts[key], now, later);
      }
    }
  }

  lemma RememberSame(a: Attempts, b: Attempts, q: Request, key: string)
    requires forall k :: SameFrom(Recorded(a, k), Recorded(b, k), q.now)
    ensures Accepts(a, q) == Accepts(b, q)
    ensures SameFrom(Recorded(Remember(a, q), key), Recorded(Remember(b, q), key), q.now)
  {
    assert SameFrom(Recorded(a, q.key), Recorded(b, q.key), q.now);
    assert SameFrom(Recorded(a, key), Recorded(b, key), q.now);
  }

  /** The stored record of a key, pruned or not, stands for all its accepted requests. */
  lemma {:induction false} RecordsStandForHistory(qs: seq<Request>, key: string, now: int)
    requires InOrder(qs) && (qs != [] ==> qs[|qs| - 1].now <= now)
    ensures SameFrom(Recorded(Run(qs), key), AcceptedTimes(qs, key), now)
  {
    if qs != [] {
      var n := |qs| - 1;
      var before, q := qs[..n], qs[n];
      assert forall i, j | 0 <= i < j < n :: before[i].now == qs[i].now && before[j].now == qs[j].now;
      RecordsStandForHistory(before, key, q.now);
      var s := Run(before);
      RememberedHistory(s, q, key, AcceptedTimes(before, key), now);
      if Accepts(s, q) && |Remember(s, q)| > MAX_KEYS {
        PrunedSame(Remember(s, q), key, q.now);
      }
    }
  }

  lemma RememberedHistory(s: Attempts, q: Request, key: string, times: seq<int>, now: int)
    requires q.now <= now && SameFrom(Recorded(s, key), times, q.now)
    ensures SameFrom(Recorded(Remember(s, q), key),
                     if q.key == key && Accepts(s, q) then times + [q.now] else times, now)
  {
    if q.key == key && Accepts(s, q) {
      forall later | later >= now
        ensures Active(Recorded(Remember(s, q), key), later) == Active(times + [q.now], later)
      {
        ActiveConcat(Active(Recorded(s, key), q.now), [q.now], later);
        ActiveConcat(times, [q.now], later);
        ActiveTwice(Recorded(s, key), q.now, later);
      }
    }
  }

  /** Pruning never changes a decision: the limiter behaves as if it never forgot a key. */
  lemma {:induction false} PruningIsInvisible(qs: seq<Request>, now: int)
    requires InOrder(qs) && (qs != [] ==> qs[|qs| - 1].now <= now)
    ensures forall key :: SameFrom(Recorded(Run(qs), key), Recorded(RunUnpruned(qs), key), now)
    ensures qs != [] ==> Decision(qs) == DecisionUnpruned(qs)
  {
    if qs != [] {
      var n := |qs| - 1;
      var before, q := qs[..n], qs[n];
      assert forall i, j | 0 <= i < j < n :: before[i].now == qs[i].now && before[j].now == qs[j].now;
      PruningIsInvisible(before, q.now);
      RememberSame(Run(before), RunUnpruned(before), q, q.key);
      forall key
        ensures SameFrom(Recorded(Run(qs), key), Recorded(RunUnpruned(qs), key), now)
      {
        RememberSame(Run(before), RunUnpruned(before), q, key);
        PrunedSame(Remember(Run(before), q), key, q.now);
      }
    }
  }

  // ---- The promise ---------------------------------------------------------------------

  /** How many of these times fall into the half-open window that starts at `from`. */
  function InWindow(times: seq<int>, from: int): (n: nat)
    ensures n <= |times|
  {
    if times == [] then 0
    else
      var last := times[|times| - 1];
      InWindow(times[..|times| - 1], from) + if from <= last < from + WINDOW_MS then 1 else 0
  }

  /** Request i of a run is one of the key's and was accepted. */
  ghost predicate IsAccepted(qs: seq<Request>, key: string, i: nat) {
    i < |qs| && qs[i].key == key && Decision(qs[..i + 1])
  }

  lemma AcceptedEarlier(qs: seq<Request>, key: string, i: nat)
    requires qs != []
    ensures IsAccepted(qs, key, i)
       <==> if i == |qs| - 1 then qs[i].key == key && Decision(qs) else IsAccepted(qs[..|qs| - 1], key, i)
  {
    if i < |qs| - 1 {
      assert qs[..|qs| - 1][..i + 1] == qs[..i + 1];
    } else if i == |qs| - 1 {
      assert qs[..i + 1] == qs;
    }
  }

  /** The accepted requests of a key in the half-open window that starts at `from`. */
  ghost function AcceptedIn(qs: seq<Request>, key: string, from: int): set<nat> {
    set i: nat | i < |qs| && IsAccepted(qs, key, i) && from <= qs[i].now < from + WINDOW_MS
  }

  /** Those of the last minute. */
  ghost function AcceptedSince(qs: seq<Request>, key: string, now: int): set<nat> {
    set i: nat | i < |qs| && IsAccepted(qs, key, i) && now - qs[i].now < WINDOW_MS
  }

  lemma {:induction false} AcceptedSinceIsActive(qs: seq<Request>, key: string, now: int)
    ensures |AcceptedSince(qs, key, now)| == |Active(AcceptedTimes(qs, key), now)|
  {
    hide IsAccepted, Active, Decision;
    if qs != [] {
      var n := |qs| - 1;
      AcceptedSinceIsActive(qs[..n], key, now);
      SinceStep(qs, key, now);
      ActiveStep(AcceptedTimes(qs[..n], key), qs[n].now, now);
    } else {
      ActiveOfNone(now);
      assert AcceptedSince(qs, key, now) == {};
    }
  }

  lemma ActiveOfNone(now: int)
    ensures Active([], now) == []
  {}

  lemma SinceStep(qs: seq<Request>, key: string, now: int)
    requires qs != []
    ensures var n := |qs| - 1;
            var added := if qs[n].key == key && Decision(qs) && now - qs[n].now < WINDOW_MS then {n} else {};
            AcceptedSince(qs, key, now) == AcceptedSince(qs[..n], key, now) + added
            && n !in AcceptedSince(qs[..n], key, now)
  {
    hide IsAccepted, Decision;
    forall i: nat
      ensures IsAccepted(qs, key, i)
         <==> if i == |qs| - 1 then qs[i].key == key && Decision(qs) else IsAccepted(qs[..|qs| - 1], key, i)
    {
      AcceptedEarlier(qs, key, i);
    }
  }

  lemma ActiveStep(times: seq<int>, last: int, now: int)
    ensures Active(times + [last], now) == if now - last < WINDOW_MS then Active(times, now) + [last] else Active(times, now)
  {
    assert (times + [last])[..|times|] == times;
  }

  lemma {:induction false} AcceptedInIsWindow(qs: seq<Request>, key: string, from: int)
    ensures |AcceptedIn(qs, key, from)| == InWindow(AcceptedTimes(qs, key), from)
  {
    hide IsAccepted, InWindow, Decision;
    if qs != [] {
      var n := |qs| - 1;
      AcceptedInIsWindow(qs[..n], key, from);
      InStep(qs, key, from);
      WindowAfter(AcceptedTimes(qs[..n], key), qs[n].now, from);
    } else {
      NoneInWindow(from);
      assert AcceptedIn(qs, key, from) == {};
    }
  }

  lemma NoneInWindow(from: int)
    ensures InWindow([], from) == 0
  {}

  lemma InStep(qs: seq<Request>, key: string, from: int)
    requires qs != []
    ensures var n := |qs| - 1;
            var added := if qs[n].key == key && Decision(qs) && from <= qs[n].now < from + WINDOW_MS then {n} else {};
            AcceptedIn(qs, key, from) == AcceptedIn(qs[..n], key, from) + added
            && n !in AcceptedIn(qs[..n], key, from)
  {
    hide IsAccepted, Decision;
    forall i: nat
      ensures IsAccepted(qs, key, i)
         <==> if i == |qs| - 1 then qs[i].key == key && Decision(qs) else IsAccepted(qs[..|qs| - 1], key, i)
    {
      AcceptedEarlier(qs, key, i);
    }
  }

  lemma {:induction false} WindowIsActive(times: seq<int>, from: int, now: int)
    requires from <= now < from + WINDOW_MS
    ensures InWindow(times, from) <= |Active(times, now)|
  {
    if times != [] {
      WindowIsActive(times[..|times| - 1], from, now);
    }
  }

  /** A request passes exactly when fewer than twelve of its key passed in the last minute. */
  lemma DecisionIsSlidingWindow(qs: seq<Request>)
    requires InOrder(qs) && qs != []
    ensures var before, q := qs[..|qs| - 1], qs[|qs| - 1];
            (Decision(qs)
             <==> |set i: nat | i < |before| && before[i].key == q.key && Decision(before[..i + 1])
                                && q.now - before[i].now < 60_000| < 12)
  {
    var n := |qs| - 1;
    var before, q := qs[..n], qs[n];
    assert forall i, j | 0 <= i < j < n :: before[i].now == qs[i].now && before[j].now == qs[j].now;
    RecordsStandForHistory(before, q.key, q.now);
    assert Active(Recorded(Run(before), q.key), q.now) == Active(AcceptedTimes(before, q.key), q.now);
    AcceptedSinceIsActive(before, q.key, q.now);
    assert AcceptedSince(before, q.key, q.now)
        == set i: nat | i < |before| && before[i].key == q.key && Decision(before[..i + 1])
                        && q.now - before[i].now < 60_000;
  }

  lemma WindowAfter(times: seq<int>, now: int, from: int)
    ensures InWindow(times + [now], from) == InWindow(times, from) + if from <= now < from + WINDOW_MS then 1 else 0
  {
    assert (times + [now])[..|times|] == times;
  }

  lemma {:induction false} WindowsHoldTwelve(qs: seq<Request>, key: string, from: int)
    requires InOrder(qs)
    ensures InWindow(AcceptedTimes(qs, key), from) <= MAX_ACCEPTED
  {
    if qs != [] {
      var n := |qs| - 1;
      var before, q := qs[..n], qs[n];
      assert forall i, j | 0 <= i < j < n :: before[i].now == qs[i].now && before[j].now == qs[j].now;
      WindowsHoldTwelve(before, key, from);
      if q.key == key && Decision(qs) {
        var times := AcceptedTimes(before, key);
        DecisionIsSlidingWindow(qs);
        AcceptedSinceIsActive(before, key, q.now);
        assert AcceptedSince(before, key, q.now)
            == set i: nat | i < |before| && before[i].key == key && Decision(before[..i + 1])
                            && q.now - before[i].now < 60_000;
        WindowAfter(times, q.now, from);
        if from <= q.now < from + WINDOW_MS {
          WindowIsActive(times, from, q.now);
        }
      }
    }
  }

  /** At most twelve requests of a key are accepted in any window of a minute. */
  lemma AtMostTwelvePerWindow(qs: seq<Request>, key: string, from: int)
    requires InOrder(qs)
    ensures |set i: nat | i < |qs| && qs[i].key == key && Decision(qs[..i + 1]) && from <= qs[i].now < from + 60_000| <= 12
  {
    WindowsHoldTwelve(qs, key, from);
    AcceptedInIsWindow(qs, key, from);
    assert AcceptedIn(qs, key, from)
        == set i: nat | i < |qs| && qs[i].key == key && Decision(qs[..i + 1]) && from <= qs[i].now < from + 60_000;
  }
}
