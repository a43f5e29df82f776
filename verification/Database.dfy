/**
 The database as one request sees it. Before each of the request's round trips, other
 requests may have written anything they are entitled to write; `others` holds those
 writes, and nothing else is known about them. A request is entitled to what `Justified` asks
 for, and to complete a payroll intent only on a receipt of the payroll receipt verifier.
 */
module Databases {
  import opened Rows
  import opened Steps
  import opened Invariants

  /** A write that completes a payroll intent rests on a receipt of the payroll verifier. */
  predicate IsEntitled(verified: Receipt -> bool, s: Store, e: Event) {
    e.Complete? && e.id in s.intents && s.intents[e.id].request.operation == Payroll ==> verified(e.receipt)
  }

  ghost predicate OnlyVerified(verified: Receipt -> bool, es: seq<Event>) {
    es == []
    || (OnlyVerified(verified, es[..|es| - 1]) && IsEntitled(verified, Run(es[..|es| - 1]), es[|es| - 1]))
  }

  lemma LogAppend(verified: Receipt -> bool, es: seq<Event>, e: Event)
    requires OnlyVerified(verified, es) && IsEntitled(verified, Run(es), e)
    ensures Run(es + [e]) == Step(Run(es), e) && OnlyVerified(verified, es + [e])
  {
    assert (es + [e])[..|es + [e]| - 1] == es;
  }

  class Database {
    /** The receipts that the payroll receipt verifier reports. */
    const verified: Receipt -> bool

    var store: Store
    var others: seq<seq<Event>>
    ghost var log: seq<Event>

    /** The store is what the logged run produces, and no payroll intent was completed without the verifier. */
    ghost predicate Valid()
      reads this
    {
      store == Run(log) && OnlyVerified(verified, log)
    }

    constructor (verified: Receipt -> bool, others: seq<seq<Event>>)
      ensures Valid() && log == [] && store == EmptyStore() && this.verified == verified && this.others == others
    {
      this.verified := verified;
      store := EmptyStore();
      this.others := others;
      log := [];
    }

    /** Other requests get their turn. */
    method RoundTrip()
      requires Valid()
      modifies this
      ensures Valid() && old(log) <= log
      ensures others == if old(others) == [] then [] else old(others)[1..]
      ensures old(others) == [] ==> store == old(store) && log == old(log)
    {
      if others == [] {
        return;
      }
      var turn := others[0];
      others := others[1..];
      for k := 0 to |turn|
        invariant Valid() && old(log) <= log
        invariant others == old(others)[1..]
      {
        if IsEntitled(verified, store, turn[k]) {
          LogAppend(verified, log, turn[k]);
          store := Step(store, turn[k]);
          log := log + [turn[k]];
        }
      }
    }

    /** One guarded write; `written` is whether the database found a row to change. */
    method Write(e: Event) returns (written: bool)
      requires Valid() && Justified(store, e) && IsEntitled(verified, store, e)
      modifies this
      ensures Valid() && log == old(log) + [e] && others == old(others)
      ensures written == RowsMatch(old(store), e)
      ensures store == Step(old(store), e)
    {
      written := RowsMatch(store, e);
      LogAppend(verified, log, e);
      store := Step(store, e);
      log := log + [e];
    }
  }

  /** Everything a request read at an earlier moment has only moved forward since. */
  lemma Since(db: Database, mark: seq<Event>)
    requires db.Valid() && mark <= db.log
    ensures Later(Run(mark), db.store) && Inv(db.store) && Inv(Run(mark))
  {
    PrefixLater(mark, db.log);
    RunKeeps(db.log);
    RunKeeps(mark);
  }
}
