/** How a verified payroll output is divided among its recipients in proportion to their source amounts. */
module Allocation {
  import opened Wrappers
  import opened Arithmetic

  datatype Recipient = Recipient(id: string, sourceAmount: int)

  datatype AllocationError = NotPositive | NoRecipients | BelowDistributable | Inconsistent

  // ---- The shares --------------------------------------------------------------------------

  lemma {:induction false} SumAtLeastElement(values: seq<int>, i: nat)
    requires AllPositive(values) && i < |values|
    ensures 0 < values[i] <= Sum(values)
    ensures |values| > 1 ==> values[i] < Sum(values)
  {
    var n := |values| - 1;
    assert AllPositive(values[..n]);
    if i < n {
      SumAtLeastElement(values[..n], i);
    } else if n > 0 {
      SumAtLeastElement(values[..n], 0);
    } else {
      assert values[..0] == [];
    }
  }

  function ProRata(total: int, weight: int, totalWeight: int): int
    requires totalWeight > 0
  {
    total * weight / totalWeight
  }

  /** What the first n recipients get when each gets the floor of its pro-rata share. */
  function FloorsTo(total: int, weights: seq<int>, n: nat): int
    requires n <= |weights| && Sum(weights) > 0
  {
    if n == 0 then 0 else FloorsTo(total, weights, n - 1) + ProRata(total, weights[n - 1], Sum(weights))
  }

  function Share(total: int, weights: seq<int>, i: nat): int
    requires i < |weights| && Sum(weights) > 0
  {
    if i == |weights| - 1 then total - FloorsTo(total, weights, i) else ProRata(total, weights[i], Sum(weights))
  }

  function Shares(total: int, weights: seq<int>): (r: seq<int>)
    requires Sum(weights) > 0
    ensures |r| == |weights|
  {
    seq(|weights|, i requires 0 <= i < |weights| => Share(total, weights, i))
  }

  /** The shares add up to the whole output. */
  lemma {:induction false} SharesConserve(total: int, weights: seq<int>)
    requires weights != [] && Sum(weights) > 0
    ensures Sum(Shares(total, weights)) == total
  {
    var shares, n := Shares(total, weights), |weights| - 1;
    FloorsAreShares(total, weights, n);
    assert shares[..n] == Shares(total, weights)[..n];
  }

  lemma {:induction false} FloorsAreShares(total: int, weights: seq<int>, n: nat)
    requires Sum(weights) > 0 && n < |weights|
    ensures Sum(Shares(total, weights)[..n]) == FloorsTo(total, weights, n)
  {
    if n > 0 {
      FloorsAreShares(total, weights, n - 1);
      var shares := Shares(total, weights);
      assert shares[..n][..n - 1] == shares[..n - 1];
    }
  }

  lemma LossStep(floors: int, q: int, total: int, before: int, last: int, w: int, n: nat)
    requires w > 0 && floors * w <= total * before <= floors * w + n * (w - 1)
    requires q * w <= total * last < q * w + w
    ensures (floors + q) * w <= total * (before + last) <= (floors + q) * w + (n + 1) * (w - 1)
  {
    assert (floors + q) * w == floors * w + q * w;
    assert total * (before + last) == total * before + total * last;
    assert (n + 1) * (w - 1) == n * (w - 1) + (w - 1);
  }

  /** The floors of the first n shares together lose less than one unit each. */
  lemma {:induction false} FloorsLoss(total: int, weights: seq<int>, n: nat)
    requires n <= |weights| && Sum(weights) > 0 && total >= 0
    ensures var w := Sum(weights);
            FloorsTo(total, weights, n) * w <= total * Sum(weights[..n])
            <= FloorsTo(total, weights, n) * w + n * (w - 1)
  {
    if n > 0 {
      FloorsLoss(total, weights, n - 1);
      var w, last := Sum(weights), weights[n - 1];
      assert weights[..n][..n - 1] == weights[..n - 1];
      QuotientIsFloor(total * last, w);
      LossStep(FloorsTo(total, weights, n - 1), ProRata(total, last, w), total, Sum(weights[..n - 1]), last, w, n - 1);
    } else {
      assert weights[..0] == [];
    }
  }

  /** The last share is at least its own floor, and exceeds it by at most one unit for each other recipient. */
  lemma LastShareBounds(total: int, weights: seq<int>)
    requires weights != [] && Sum(weights) > 0 && total >= 0
    ensures var n := |weights| - 1;
            var floor := ProRata(total, weights[n], Sum(weights));
            floor <= Share(total, weights, n) <= floor + n
  {
    var n, w := |weights| - 1, Sum(weights);
    FloorsLoss(total, weights, n);
    QuotientIsFloor(total * weights[n], w);
    LastShareGap(total, FloorsTo(total, weights, n), ProRata(total, weights[n], w), Sum(weights[..n]), weights[n], w, n);
  }

  lemma LastShareGap(total: int, floors: int, floor: int, before: int, last: int, w: int, n: nat)
    requires w > 0 && w == before + last
    requires floors * w <= total * before <= floors * w + n * (w - 1)
    requires floor * w <= total * last < floor * w + w
    ensures floor <= total - floors <= floor + n
  {
    LossStep(floors, floor, total, before, last, w, n);
    var gap := total - floors - floor;
    assert gap * w == total * w - (floors + floor) * w;
    BoundedQuotient(gap, n, w);
  }

  lemma BoundedQuotient(gap: int, n: nat, w: int)
    requires w > 0 && 0 <= gap * w <= (n + 1) * (w - 1)
    ensures 0 <= gap <= n
  {
    FactorKeepsOrder(gap + 1, 0, w);
    FactorKeepsOrder(n + 1, gap, w);
    assert (gap + 1) * w == gap * w + w;
    assert (n + 1) * (w - 1) == (n + 1) * w - (n + 1);
  }

  // ---- The map -----------------------------------------------------------------------------

  function Weights(recipients: seq<Recipient>): (w: seq<int>)
    ensures |w| == |recipients|
  {
    seq(|recipients|, i requires 0 <= i < |recipients| => recipients[i].sourceAmount)
  }

  /** No later recipient among the first n has the id of recipient i, so its entry is not overwritten. */
  ghost predicate Stands(recipients: seq<Recipient>, i: nat, n: nat)
    requires i < n <= |recipients|
  {
    forall j | i < j < n :: recipients[j].id != recipients[i].id
  }

  ghost predicate DistinctIds(recipients: seq<Recipient>) {
    forall i, j | 0 <= i < j < |recipients| :: recipients[i].id != recipients[j].id
  }

  /** The map after the first n recipients have been entered, one after the other. */
  function Entered(recipients: seq<Recipient>, shares: seq<int>, n: nat): map<string, int>
    requires n <= |recipients| == |shares|
  {
    if n == 0 then map[] else Entered(recipients, shares, n - 1)[recipients[n - 1].id := shares[n - 1]]
  }

  lemma {:induction false} EntryStands(recipients: seq<Recipient>, shares: seq<int>, n: nat, i: nat)
    requires i < n <= |recipients| == |shares| && Stands(recipients, i, n)
    ensures recipients[i].id in Entered(recipients, shares, n)
    ensures Entered(recipients, shares, n)[recipients[i].id] == shares[i]
  {
    if i < n - 1 {
      assert recipients[n - 1].id != recipients[i].id;
      EntryStands(recipients, shares, n - 1, i);
    }
  }

  /** The map has an entry for each recipient's id and for nothing else; each is the share of its last recipient. */
  lemma {:induction false} EntriesAre(recipients: seq<Recipient>, shares: seq<int>, n: nat, id: string)
    requires n <= |recipients| == |shares|
    ensures id in Entered(recipients, shares, n)
        <==> exists i :: 0 <= i < n && recipients[i].id == id && Stands(recipients, i, n)
  {
    if n > 0 {
      EntriesAre(recipients, shares, n - 1, id);
      if recipients[n - 1].id == id {
        assert Stands(recipients, n - 1, n);
      } else if i :| 0 <= i < n - 1 && recipients[i].id == id && Stands(recipients, i, n - 1) {
        assert Stands(recipients, i, n);
      }
    }
  }

  /** The sum of the values of a map. */
  ghost function MapSum(m: map<string, int>): int
    decreases |m|
  {
    if m == map[] then 0
    else
      var id :| id in m;
      m[id] + MapSum(m - {id})
  }

  /** It does not matter which key is taken out first. */
  lemma {:induction false} MapSumWithout(m: map<string, int>, id: string)
    requires id in m
    ensures MapSum(m) == m[id] + MapSum(m - {id})
    decreases |m|
  {
    var first :| first in m && MapSum(m) == m[first] + MapSum(m - {first});
    if first != id {
      MapSumWithout(m - {first}, id);
      MapSumWithout(m - {id}, first);
      assert m - {first} - {id} == m - {id} - {first};
    }
  }

  lemma MapSumAfterEntry(m: map<string, int>, id: string, value: int)
    ensures MapSum(m[id := value]) == MapSum(m) + value - (if id in m then m[id] else 0)
  {
    var entered := m[id := value];
    MapSumWithout(entered, id);
    assert entered - {id} == m - {id};
    if id in m {
      MapSumWithout(m, id);
    } else {
      assert m - {id} == m;
    }
  }

  lemma {:induction false} EntriesArePositive(recipients: seq<Recipient>, shares: seq<int>, n: nat, id: string)
    requires n <= |recipients| == |shares| && AllPositive(shares) && id in Entered(recipients, shares, n)
    ensures Entered(recipients, shares, n)[id] > 0
  {
    if recipients[n - 1].id != id {
      EntriesArePositive(recipients, shares, n - 1, id);
    }
  }

  /** An overwritten entry is lost from the map, so the map keeps the whole sum exactly if every id was new. */
  lemma {:induction false} EntriesLoss(recipients: seq<Recipient>, shares: seq<int>, n: nat)
    requires n <= |recipients| == |shares| && AllPositive(shares)
    ensures MapSum(Entered(recipients, shares, n)) <= Sum(shares[..n])
    ensures MapSum(Entered(recipients, shares, n)) == Sum(shares[..n]) <==> DistinctIds(recipients[..n])
  {
    if n > 0 {
      var before, id := Entered(recipients, shares, n - 1), recipients[n - 1].id;
      EntriesLoss(recipients, shares, n - 1);
      MapSumAfterEntry(before, id, shares[n - 1]);
      assert shares[..n][..n - 1] == shares[..n - 1];
      EntriesAre(recipients, shares, n - 1, id);
      NewIdExactly(recipients, n);
      if id in before {
        EntriesArePositive(recipients, shares, n - 1, id);
      }
    }
  }

  lemma NewIdExactly(recipients: seq<Recipient>, n: nat)
    requires 0 < n <= |recipients|
    ensures DistinctIds(recipients[..n])
        <==> DistinctIds(recipients[..n - 1])
             && forall i | 0 <= i < n - 1 :: recipients[i].id != recipients[n - 1].id
  {
    var all, before := recipients[..n], recipients[..n - 1];
    assert forall i | 0 <= i < n - 1 :: before[i] == all[i] == recipients[i];
    assert all[n - 1] == recipients[n - 1];
  }

  /** The values of the map add up to the whole output exactly when no two recipients have the same id. */
  lemma MapSumsToTotal(total: int, recipients: seq<Recipient>)
    requires recipients != [] && Sum(Weights(recipients)) > 0
    requires AllPositive(Shares(total, Weights(recipients)))
    ensures MapSum(Entered(recipients, Shares(total, Weights(recipients)), |recipients|)) == total
        <==> DistinctIds(recipients)
  {
    hide Sum, MapSum, Entered;
    var shares := Shares(total, Weights(recipients));
    SharesConserve(total, Weights(recipients));
    EntriesLoss(recipients, shares, |recipients|);
    assert shares[..|recipients|] == shares && recipients[..|recipients|] == recipients;
  }

  method AllocateVerifiedPayrollOutput(total: int, recipients: seq<Recipient>)
    returns (r: Result<map<string, int>, AllocationError>)
    ensures r == Failure(NoRecipients) <==> total > 0 && recipients == []
    ensures r == Failure(NotPositive) <==> total <= 0 || (recipients != [] && !AllPositive(Weights(recipients)))
    ensures r != Failure(Inconsistent)
    ensures r.Success? || r == Failure(BelowDistributable) ==>
              && Sum(Weights(recipients)) > 0
              && (r.Success? <==> AllPositive(Shares(total, Weights(recipients))))
    ensures r.Success? ==>
              && r.value == Entered(recipients, Shares(total, Weights(recipients)), |recipients|)
              && (MapSum(r.value) == total <==> DistinctIds(recipients))
  {
    if total <= 0 {
      return Failure(NotPositive);
    }
    if recipients == [] {
      return Failure(NoRecipients);
    }
    var weights := Weights(recipients);
    if !AllPositive(weights) {
      return Failure(NotPositive);
    }
    SumAtLeastElement(weights, 0);
    var totalWeight := Sum(weights);
    ghost var shares := Shares(total, weights);
    var handedOut, result := 0, map[];
    for index := 0 to |recipients|
      invariant handedOut == if index == |recipients| then total else FloorsTo(total, weights, index)
      invariant forall i | 0 <= i < index :: shares[i] > 0
      invariant result == Entered(recipients, shares, index)
    {
      var amount :=
        if index == |recipients| - 1 then total - handedOut else total * weights[index] / totalWeight;
      assert amount == shares[index];
      if amount <= 0 {
        return Failure(BelowDistributable);
      }
      handedOut := handedOut + amount;
      result := result[recipients[index].id := amount];
    }
    if handedOut != total {
      return Failure(Inconsistent);
    }
    MapSumsToTotal(total, recipients);
    return Success(result);
  }
}
