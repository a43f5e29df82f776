/** Payroll rows grouped by output token, and the fee-inclusive amount each group has to be funded with. */
module PayrollFunding {
  import opened Wrappers
  import opened Text
  import opened Arithmetic
  import opened Sequences

  const BPS := 10_000

  datatype Recipient = Recipient(address: string, amount: int, tokenOut: string)

  datatype Group = Group(sameToken: bool, tokenOut: string, rows: seq<Recipient>, referenceId: string)

  // ---- Fee-inclusive funding ---------------------------------------------------------------

  function FundingOf(amount: int, feeBps: nat): int {
    amount + amount * feeBps / BPS
  }

  function Funding(amounts: seq<int>, feeBps: nat): int {
    if amounts == [] then 0
    else Funding(amounts[..|amounts| - 1], feeBps) + FundingOf(amounts[|amounts| - 1], feeBps)
  }

  /** The frontend's reduce, which throws on an amount that is not positive. */
  function SameTokenFunding(amounts: seq<int>, feeBps: nat): Option<int> {
    if AllPositive(amounts) then Some(Funding(amounts, feeBps)) else None
  }

  lemma {:induction false} FundingOfConcat(a: seq<int>, b: seq<int>, feeBps: nat)
    ensures Funding(a + b, feeBps) == Funding(a, feeBps) + Funding(b, feeBps)
  {
    if b == [] {
      assert a + b == a;
    } else {
      var c := b[..|b| - 1];
      assert (a + b)[..|a + b| - 1] == a + c;
      FundingOfConcat(a, c, feeBps);
    }
  }

  lemma MultisetWithout<T>(s: seq<T>, i: nat)
    requires i < |s|
    ensures multiset(s) == multiset(s[..i] + s[i + 1..]) + multiset{s[i]}
  {
    assert s == s[..i] + [s[i]] + s[i + 1..];
  }

  lemma FundingWithout(amounts: seq<int>, i: nat, feeBps: nat)
    requires i < |amounts|
    ensures Funding(amounts, feeBps) == Funding(amounts[..i] + amounts[i + 1..], feeBps) + FundingOf(amounts[i], feeBps)
  {
    var left, right := amounts[..i], amounts[i + 1..];
    assert amounts == left + [amounts[i]] + right;
    FundingOfConcat(left + [amounts[i]], right, feeBps);
    assert (left + [amounts[i]])[..|left|] == left;
    FundingOfConcat(left, right, feeBps);
  }

  /** The order of the rows does not matter. */
  lemma {:induction false} FundingIgnoresOrder(a: seq<int>, b: seq<int>, feeBps: nat)
    requires multiset(a) == multiset(b)
    ensures Funding(a, feeBps) == Funding(b, feeBps)
    decreases |a|
  {
    if a == [] {
      assert |multiset(b)| == 0;
    } else {
      hide Funding, FundingOf;
      var n := |a| - 1;
      assert a[n] in multiset(b);
      var i :| 0 <= i < |b| && b[i] == a[n];
      var shorter := b[..i] + b[i + 1..];
      SameWithout(a, b, i);
      FundingIgnoresOrder(a[..n], shorter, feeBps);
      FundingWithout(a, n, feeBps);
      assert a[..n] + a[n + 1..] == a[..n];
      FundingWithout(b, i, feeBps);
    }
  }

  lemma SameWithout(a: seq<int>, b: seq<int>, i: nat)
    requires a != [] && i < |b| && b[i] == a[|a| - 1] && multiset(a) == multiset(b)
    ensures multiset(a[..|a| - 1]) == multiset(b[..i] + b[i + 1..])
  {
    var n := |a| - 1;
    MultisetWithout(a, n);
    MultisetWithout(b, i);
    assert a[..n] + a[n + 1..] == a[..n];
    assert multiset(a[..n]) == multiset(a) - multiset{a[n]};
    assert multiset(b[..i] + b[i + 1..]) == multiset(b) - multiset{b[i]};
  }

  /** Row-by-row fees fall short of one fee on the total by less than a unit for each row after the first. */
  lemma {:induction false} FundingNearTotal(amounts: seq<int>, feeBps: nat)
    requires amounts != []
    ensures var whole := Sum(amounts) + Sum(amounts) * feeBps / 10_000;
            whole - (|amounts| - 1) <= Funding(amounts, feeBps) <= whole
  {
    var n := |amounts| - 1;
    var last := amounts[n];
    if n > 0 {
      FundingNearTotal(amounts[..n], feeBps);
      FloorsOfSum(Sum(amounts[..n]), last, feeBps);
    } else {
      assert amounts[..0] == [];
    }
  }

  lemma FloorsOfSum(a: int, b: int, feeBps: nat)
    ensures FundingOf(a, feeBps) + FundingOf(b, feeBps) <= FundingOf(a + b, feeBps)
         <= FundingOf(a, feeBps) + FundingOf(b, feeBps) + 1
  {
    assert (a + b) * feeBps == a * feeBps + b * feeBps;
  }

  // ---- The backend's approval amount ---------------------------------------------------------

  datatype ApprovalRow = ApprovalRow(targetToken: string, amountUnits: int)

  predicate Counts(row: ApprovalRow, sourceToken: string) {
    row.targetToken == sourceToken && row.amountUnits > 0
  }

  /** The amounts of the rows the approval covers, in order. */
  function CountedAmounts(rows: seq<ApprovalRow>, sourceToken: string): (r: seq<int>)
    ensures AllPositive(r)
  {
    if rows == [] then []
    else
      var before := CountedAmounts(rows[..|rows| - 1], sourceToken);
      var last := rows[|rows| - 1];
      if Counts(last, sourceToken) then before + [last.amountUnits] else before
  }

  /** A row counts when it is paid in the payer's token and has an amount. */
  lemma CountedOfNext(rows: seq<ApprovalRow>, row: ApprovalRow, sourceToken: string)
    ensures CountedAmounts(rows + [row], sourceToken)
         == CountedAmounts(rows, sourceToken)
            + if row.targetToken == sourceToken && row.amountUnits > 0 then [row.amountUnits] else []
  {
    assert (rows + [row])[..|rows|] == rows;
  }

  /** The backend's loop computes what the frontend's reduce computes on the same rows. */
  method PayrollSameTokenApprovalAmountWithFee(rows: seq<ApprovalRow>, sourceToken: string, feeBps: nat)
    returns (total: int)
    ensures SameTokenFunding(CountedAmounts(rows, sourceToken), feeBps) == Some(total)
    ensures (forall i | 0 <= i < |rows| :: Counts(rows[i], sourceToken)) ==>
              total == Funding(seq(|rows|, i requires 0 <= i < |rows| => rows[i].amountUnits), feeBps)
  {
    total := 0;
    for k := 0 to |rows|
      invariant total == Funding(CountedAmounts(rows[..k], sourceToken), feeBps)
    {
      var row := rows[k];
      assert rows[..k + 1][..k] == rows[..k];
      if row.targetToken != sourceToken {
        continue;
      }
      if row.amountUnits <= 0 {
        continue;
      }
      var before := CountedAmounts(rows[..k], sourceToken);
      assert (before + [row.amountUnits])[..|before|] == before;
      total := total + row.amountUnits + row.amountUnits * feeBps / BPS;
    }
    assert rows[..|rows|] == rows;
    AllCounted(rows, sourceToken);
  }

  lemma {:induction false} AllCounted(rows: seq<ApprovalRow>, sourceToken: string)
    ensures (forall i | 0 <= i < |rows| :: Counts(rows[i], sourceToken)) ==>
              CountedAmounts(rows, sourceToken)
              == seq(|rows|, i requires 0 <= i < |rows| => rows[i].amountUnits)
  {
    if rows != [] {
      AllCounted(rows[..|rows| - 1], sourceToken);
    }
  }

  // ---- Grouping ----------------------------------------------------------------------------

  function Key(row: Recipient): string {
    Lower(row.tokenOut)
  }

  /** The rows with a token, in their original order. */
  function RowsOf(rows: seq<Recipient>, key: string): (r: seq<Recipient>)
    ensures forall i | 0 <= i < |r| :: Key(r[i]) == key
    ensures r != [] <==> exists i :: 0 <= i < |rows| && Key(rows[i]) == key
  {
    if rows == [] then []
    else
      var before := RowsOf(rows[..|rows| - 1], key);
      var last := rows[|rows| - 1];
      if Key(last) == key then before + [last] else before
  }

  /** The comparator of the sort: the payer's own token first, then character order, which is how lower-case addresses compare. */
  predicate Before(a: string, b: string, tokenIn: string) {
    if a == tokenIn then b != tokenIn else b != tokenIn && Precedes(a, b)
  }

  function Order(tokenIn: string): (string, string) -> bool {
    (a, b) => Before(a, b, tokenIn)
  }

  lemma OrderIsTransitive(tokenIn: string)
    ensures IsTransitive(Order(tokenIn))
  {
    forall a, b, c | Before(a, b, tokenIn) && Before(b, c, tokenIn)
      ensures Before(a, c, tokenIn)
    {
      if a != tokenIn {
        PrecedesTransitive(a, b, c);
      }
    }
  }

  ghost predicate Distinct(keys: seq<string>) {
    forall i, j | 0 <= i < j < |keys| :: keys[i] != keys[j]
  }

  lemma KeysAreSorted(keys: seq<string>, tokenIn: string)
    requires Distinct(keys)
    ensures IsSorted(Order(tokenIn), Sorted(Order(tokenIn), keys))
    ensures multiset(Sorted(Order(tokenIn), keys)) == multiset(keys)
  {
    OrderIsTransitive(tokenIn);
    forall i, j | 0 <= i < j < |keys|
      ensures Compares(Order(tokenIn), keys[i], keys[j])
    {
      PrecedesTotal(keys[i], keys[j]);
    }
    SortedIsSorted(Order(tokenIn), keys);
  }

  function ReferenceOf(referenceId: string, key: string, multiple: bool): string {
    if multiple then referenceId + ":" + (if |key| <= 10 then key else key[..10]) else referenceId
  }

  ghost predicate IsGroup(group: Group, key: string, multiple: bool, rows: seq<Recipient>, tokenIn: string, referenceId: string) {
    && group.rows == RowsOf(rows, key) != []
    && group.tokenOut == group.rows[0].tokenOut
    && group.sameToken == (key == tokenIn)
    && group.referenceId == ReferenceOf(referenceId, key, multiple)
  }

  /** The groups are the rows of each token, each group whole and in order, the payer's own token first. */
  ghost predicate IsGrouping(groups: seq<Group>, keys: seq<string>, rows: seq<Recipient>, tokenIn: string, referenceId: string) {
    && |keys| == |groups| && IsSorted(Order(tokenIn), keys)
    && (forall i | 0 <= i < |rows| :: Key(rows[i]) in keys)
    && forall k | 0 <= k < |groups| :: IsGroup(groups[k], keys[k], |keys| > 1, rows, tokenIn, referenceId)
  }

  /** The map of lists under construction: its keys in order of first insertion. */
  ghost predicate IsPartial(grouped: map<string, seq<Recipient>>, keys: seq<string>, rows: seq<Recipient>) {
    && Distinct(keys)
    && (forall key :: key in grouped <==> key in keys)
    && (forall key :: key in keys <==> RowsOf(rows, key) != [])
    && forall key | key in grouped :: grouped[key] == RowsOf(rows, key)
  }

  lemma RowsOfNext(rows: seq<Recipient>, k: nat, key: string)
    requires k < |rows|
    ensures RowsOf(rows[..k + 1], key)
         == if Key(rows[k]) == key then RowsOf(rows[..k], key) + [rows[k]] else RowsOf(rows[..k], key)
  {
    assert rows[..k + 1][..k] == rows[..k];
  }

  lemma KeyAdded(keys: seq<string>, key: string)
    requires Distinct(keys) && key !in keys
    ensures Distinct(keys + [key]) && forall other :: other in keys + [key] <==> other in keys || other == key
  {}

  lemma PartialNext(grouped: map<string, seq<Recipient>>, keys: seq<string>, rows: seq<Recipient>, k: nat)
    requires k < |rows| && IsPartial(grouped, keys, rows[..k])
    ensures var key := Key(rows[k]);
            IsPartial(grouped[key := (if key in grouped then grouped[key] else []) + [rows[k]]],
                      if key in grouped then keys else keys + [key],
                      rows[..k + 1])
  {
    hide RowsOf, Key, Distinct;
    var key := Key(rows[k]);
    if key !in grouped {
      KeyAdded(keys, key);
    }
    forall other
      ensures RowsOf(rows[..k + 1], other)
           == if key == other then RowsOf(rows[..k], other) + [rows[k]] else RowsOf(rows[..k], other)
    {
      RowsOfNext(rows, k, other);
    }
  }

  /** The loop that fills the map of lists. */
  method GroupByToken(recipients: seq<Recipient>)
    returns (grouped: map<string, seq<Recipient>>, order: seq<string>)
    ensures IsPartial(grouped, order, recipients)
  {
    grouped, order := map[], [];
    for k := 0 to |recipients|
      invariant IsPartial(grouped, order, recipients[..k])
    {
      PartialNext(grouped, order, recipients, k);
      var key := Key(recipients[k]);
      var list := if key in grouped then grouped[key] else [];
      if key !in grouped {
        order := order + [key];
      }
      grouped := grouped[key := list + [recipients[k]]];
    }
    assert recipients[..|recipients|] == recipients;
  }

  lemma PartialCovers(grouped: map<string, seq<Recipient>>, order: seq<string>, rows: seq<Recipient>, tokenIn: string)
    requires IsPartial(grouped, order, rows)
    ensures var keys := Sorted(Order(tokenIn), order);
            && IsSorted(Order(tokenIn), keys)
            && (forall key :: key in keys <==> key in order)
            && (forall i | 0 <= i < |rows| :: Key(rows[i]) in keys)
  {
    KeysAreSorted(order, tokenIn);
    var keys := Sorted(Order(tokenIn), order);
    assert forall key :: key in keys <==> key in multiset(order);
    forall i | 0 <= i < |rows|
      ensures Key(rows[i]) in keys
    {
      assert RowsOf(rows, Key(rows[i])) != [];
    }
  }

  function Built(ordered: seq<string>, grouped: map<string, seq<Recipient>>, tokenIn: string, referenceId: string)
    : (r: seq<Group>)
    requires forall key | key in ordered :: key in grouped && grouped[key] != []
    ensures |r| == |ordered|
  {
    seq(|ordered|, k requires 0 <= k < |ordered| =>
      var rows := grouped[ordered[k]];
      Group(ordered[k] == tokenIn, rows[0].tokenOut, rows, ReferenceOf(referenceId, ordered[k], |ordered| > 1)))
  }

  method SplitHomogeneousPayrollGroups(tokenIn: string, referenceId: string, recipients: seq<Recipient>)
    returns (r: Option<seq<Group>>, ghost keys: seq<string>)
    ensures r.None? <==> recipients == []
    ensures r.Some? ==> IsGrouping(r.value, keys, recipients, Lower(tokenIn), referenceId)
    ensures r.Some? ==>
              forall k | 0 <= k < |r.value| ::
                var group := r.value[k];
                var token := Lower(group.tokenOut);
                && group.rows != [] && group.tokenOut == group.rows[0].tokenOut
                && (forall i | 0 <= i < |group.rows| :: Lower(group.rows[i].tokenOut) == token)
                && group.sameToken == (token == Lower(tokenIn))
                && group.referenceId
                   == if |r.value| > 1 then referenceId + ":" + (if |token| <= 10 then token else token[..10])
                      else referenceId
    ensures r.Some? ==> forall k | 0 < k < |r.value| :: Lower(r.value[k].tokenOut) != Lower(tokenIn)
    ensures r.Some? ==>
              forall j, k | 0 <= j < k < |r.value| ::
                || Lower(r.value[j].tokenOut) == Lower(tokenIn)
                || Precedes(Lower(r.value[j].tokenOut), Lower(r.value[k].tokenOut))
  {
    keys := [];
    if recipients == [] {
      return None, keys;
    }
    var grouped, order := GroupByToken(recipients);
    PartialCovers(grouped, order, recipients, Lower(tokenIn));
    hide IsGrouping, IsGroup, Lower, Built, IsPartial, IsTokenGroup, ComesBefore;
    var ordered := Sorted(Order(Lower(tokenIn)), order);
    keys := ordered;
    forall key | key in ordered
      ensures key in grouped && grouped[key] == RowsOf(recipients, key) != []
    {
      assert key in order;
    }
    r := Some(Built(ordered, grouped, Lower(tokenIn), referenceId));
    BuiltIsGrouping(ordered, grouped, recipients, Lower(tokenIn), referenceId);
    GroupsAre(r.value, keys, recipients, Lower(tokenIn), referenceId);
    GroupsSay(r.value, Lower(tokenIn), referenceId);
  }

  lemma BuiltIsGrouping(ordered: seq<string>, grouped: map<string, seq<Recipient>>, rows: seq<Recipient>,
                        tokenIn: string, referenceId: string)
    requires forall key | key in ordered :: key in grouped && grouped[key] == RowsOf(rows, key) != []
    requires IsSorted(Order(tokenIn), ordered) && forall i | 0 <= i < |rows| :: Key(rows[i]) in ordered
    ensures IsGrouping(Built(ordered, grouped, tokenIn, referenceId), ordered, rows, tokenIn, referenceId)
  {}

  /** A group holds rows of one token and says whether it is the payer's. */
  lemma GroupIs(group: Group, key: string, multiple: bool, rows: seq<Recipient>, tokenIn: string, referenceId: string)
    requires IsGroup(group, key, multiple, rows, tokenIn, referenceId)
    ensures group.rows != [] && group.tokenOut == group.rows[0].tokenOut && Lower(group.tokenOut) == key
    ensures forall i | 0 <= i < |group.rows| :: Lower(group.rows[i].tokenOut) == key
    ensures group.sameToken == (key == tokenIn)
    ensures group.referenceId == if multiple then referenceId + ":" + (if |key| <= 10 then key else key[..10])
                                 else referenceId
  {
    forall i | 0 <= i < |group.rows|
      ensures Lower(group.rows[i].tokenOut) == key
    {
      assert Key(group.rows[i]) == key;
    }
  }

  lemma KeysAscend(keys: seq<string>, tokenIn: string, j: nat, k: nat)
    requires IsSorted(Order(tokenIn), keys) && j < k < |keys|
    ensures keys[k] != tokenIn && (keys[j] == tokenIn || Precedes(keys[j], keys[k]))
  {
    assert Order(tokenIn)(keys[j], keys[k]);
  }

  /** A group says of its own token all there is to say. */
  ghost predicate IsTokenGroup(group: Group, multiple: bool, tokenIn: string, referenceId: string) {
    var token := Lower(group.tokenOut);
    && group.rows != [] && group.tokenOut == group.rows[0].tokenOut
    && (forall i | 0 <= i < |group.rows| :: Lower(group.rows[i].tokenOut) == token)
    && group.sameToken == (token == tokenIn)
    && group.referenceId == if multiple then referenceId + ":" + (if |token| <= 10 then token else token[..10])
                            else referenceId
  }

  ghost predicate ComesBefore(first: Group, second: Group, tokenIn: string) {
    && Lower(second.tokenOut) != tokenIn
    && (Lower(first.tokenOut) == tokenIn || Precedes(Lower(first.tokenOut), Lower(second.tokenOut)))
  }

  /** The groups hold one token each and come in the order of their tokens. */
  lemma GroupsAre(groups: seq<Group>, keys: seq<string>, rows: seq<Recipient>, tokenIn: string, referenceId: string)
    requires IsGrouping(groups, keys, rows, tokenIn, referenceId)
    ensures forall k | 0 <= k < |groups| :: IsTokenGroup(groups[k], |groups| > 1, tokenIn, referenceId)
    ensures forall j, k | 0 <= j < k < |groups| :: ComesBefore(groups[j], groups[k], tokenIn)
  {
    hide IsGroup, Lower;
    forall k | 0 <= k < |groups|
      ensures IsTokenGroup(groups[k], |groups| > 1, tokenIn, referenceId) && Lower(groups[k].tokenOut) == keys[k]
    {
      GroupIs(groups[k], keys[k], |keys| > 1, rows, tokenIn, referenceId);
    }
    forall j, k | 0 <= j < k < |groups|
      ensures ComesBefore(groups[j], groups[k], tokenIn)
    {
      KeysAscend(keys, tokenIn, j, k);
    }
  }

  /** The same, spelled out. */
  lemma GroupsSay(groups: seq<Group>, tokenIn: string, referenceId: string)
    requires forall k | 0 <= k < |groups| :: IsTokenGroup(groups[k], |groups| > 1, tokenIn, referenceId)
    requires forall j, k | 0 <= j < k < |groups| :: ComesBefore(groups[j], groups[k], tokenIn)
    ensures forall k | 0 <= k < |groups| ::
              var group := groups[k];
              var token := Lower(group.tokenOut);
              && group.rows != [] && group.tokenOut == group.rows[0].tokenOut
              && (forall i | 0 <= i < |group.rows| :: Lower(group.rows[i].tokenOut) == token)
              && group.sameToken == (token == tokenIn)
              && group.referenceId
                 == if |groups| > 1 then referenceId + ":" + (if |token| <= 10 then token else token[..10])
                    else referenceId
    ensures forall k | 0 < k < |groups| :: Lower(groups[k].tokenOut) != tokenIn
    ensures forall j, k | 0 <= j < k < |groups| ::
              || Lower(groups[j].tokenOut) == tokenIn
              || Precedes(Lower(groups[j].tokenOut), Lower(groups[k].tokenOut))
  {
    hide Lower;
    forall k | 0 < k < |groups|
      ensures Lower(groups[k].tokenOut) != tokenIn
    {
      assert ComesBefore(groups[0], groups[k], tokenIn);
    }
    forall j, k | 0 <= j < k < |groups|
      ensures Lower(groups[j].tokenOut) == tokenIn || Precedes(Lower(groups[j].tokenOut), Lower(groups[k].tokenOut))
    {
      assert ComesBefore(groups[j], groups[k], tokenIn);
    }
  }

  /** The places of a token's rows among all rows. */
  function PlacesOf(rows: seq<Recipient>, key: string): (at: seq<nat>)
    ensures forall i | 0 <= i < |at| :: at[i] < |rows|
  {
    if rows == [] then []
    else
      var before := PlacesOf(rows[..|rows| - 1], key);
      if Lower(rows[|rows| - 1].tokenOut) == key then before + [|rows| - 1] else before
  }

  lemma {:induction false} PlaceIsListed(rows: seq<Recipient>, key: string, k: nat)
    ensures k in PlacesOf(rows, key) <==> k < |rows| && Lower(rows[k].tokenOut) == key
  {
    hide Lower;
    if rows != [] {
      PlaceIsListed(rows[..|rows| - 1], key, k);
    }
  }

  lemma {:induction false} PlacesAscend(rows: seq<Recipient>, key: string)
    ensures forall i, j | 0 <= i < j < |PlacesOf(rows, key)| :: PlacesOf(rows, key)[i] < PlacesOf(rows, key)[j]
  {
    hide Lower;
    if rows != [] {
      PlacesAscend(rows[..|rows| - 1], key);
    }
  }

  /** The rows of a token are all rows with it, in their original order. */
  lemma {:induction false} RowsKeepTheirOrder(rows: seq<Recipient>, key: string)
    ensures |RowsOf(rows, key)| == |PlacesOf(rows, key)|
    ensures forall i | 0 <= i < |PlacesOf(rows, key)| :: RowsOf(rows, key)[i] == rows[PlacesOf(rows, key)[i]]
    ensures forall i, j | 0 <= i < j < |PlacesOf(rows, key)| :: PlacesOf(rows, key)[i] < PlacesOf(rows, key)[j]
    ensures forall k: nat :: k in PlacesOf(rows, key) <==> k < |rows| && Lower(rows[k].tokenOut) == key
  {
    hide Lower;
    if rows != [] {
      RowsKeepTheirOrder(rows[..|rows| - 1], key);
    }
    PlacesAscend(rows, key);
    forall k: nat
      ensures k in PlacesOf(rows, key) <==> k < |rows| && Lower(rows[k].tokenOut) == key
    {
      PlaceIsListed(rows, key, k);
    }
  }

  // ---- What a grouping keeps ---------------------------------------------------------------

  function Amounts(rows: seq<Recipient>): (r: seq<int>)
    ensures |r| == |rows|
  {
    seq(|rows|, i requires 0 <= i < |rows| => rows[i].amount)
  }

  function RowsIn(rows: seq<Recipient>, keys: seq<string>): seq<Recipient> {
    if rows == [] then []
    else
      var before := RowsIn(rows[..|rows| - 1], keys);
      var last := rows[|rows| - 1];
      if Key(last) in keys then before + [last] else before
  }

  function Joined(groups: seq<Group>): seq<Recipient> {
    if groups == [] then [] else Joined(groups[..|groups| - 1]) + groups[|groups| - 1].rows
  }

  function GroupsFunding(groups: seq<Group>, feeBps: nat): int {
    if groups == [] then 0
    else GroupsFunding(groups[..|groups| - 1], feeBps) + Funding(Amounts(groups[|groups| - 1].rows), feeBps)
  }

  lemma AmountsNext(rows: seq<Recipient>, row: Recipient, feeBps: nat)
    ensures Funding(Amounts(rows + [row]), feeBps) == Funding(Amounts(rows), feeBps) + FundingOf(row.amount, feeBps)
  {
    assert Amounts(rows + [row])[..|rows|] == Amounts(rows);
  }

  /** Taking one more token in takes in exactly its rows, and their funding. */
  lemma {:induction false} OneMoreToken(rows: seq<Recipient>, keys: seq<string>, key: string, feeBps: nat)
    requires key !in keys
    ensures multiset(RowsIn(rows, keys + [key])) == multiset(RowsIn(rows, keys)) + multiset(RowsOf(rows, key))
    ensures Funding(Amounts(RowsIn(rows, keys + [key])), feeBps)
         == Funding(Amounts(RowsIn(rows, keys)), feeBps) + Funding(Amounts(RowsOf(rows, key)), feeBps)
  {
    if rows != [] {
      var before, last := rows[..|rows| - 1], rows[|rows| - 1];
      OneMoreToken(before, keys, key, feeBps);
      AmountsNext(RowsIn(before, keys + [key]), last, feeBps);
      AmountsNext(RowsIn(before, keys), last, feeBps);
      AmountsNext(RowsOf(before, key), last, feeBps);
    }
  }

  lemma {:induction false} AllIn(rows: seq<Recipient>, keys: seq<string>)
    requires forall i | 0 <= i < |rows| :: Key(rows[i]) in keys
    ensures RowsIn(rows, keys) == rows
  {
    if rows != [] {
      AllIn(rows[..|rows| - 1], keys);
    }
  }

  lemma {:induction false} GroupsJoin(groups: seq<Group>, keys: seq<string>, rows: seq<Recipient>, feeBps: nat)
    requires |groups| == |keys| && Distinct(keys)
    requires forall k | 0 <= k < |groups| :: groups[k].rows == RowsOf(rows, keys[k])
    ensures multiset(Joined(groups)) == multiset(RowsIn(rows, keys))
    ensures GroupsFunding(groups, feeBps) == Funding(Amounts(RowsIn(rows, keys)), feeBps)
  {
    if groups == [] {
      NoneIn(rows);
    } else {
      var n := |groups| - 1;
      GroupsJoin(groups[..n], keys[..n], rows, feeBps);
      assert keys == keys[..n] + [keys[n]];
      OneMoreToken(rows, keys[..n], keys[n], feeBps);
    }
  }

  lemma {:induction false} NoneIn(rows: seq<Recipient>)
    ensures RowsIn(rows, []) == []
  {
    if rows != [] {
      NoneIn(rows[..|rows| - 1]);
    }
  }

  lemma SortedIsDistinct(keys: seq<string>, tokenIn: string)
    requires IsSorted(Order(tokenIn), keys)
    ensures Distinct(keys)
  {
    forall i, j | 0 <= i < j < |keys|
      ensures keys[i] != keys[j]
    {
      assert Before(keys[i], keys[j], tokenIn);
      PrecedesTotal(keys[i], keys[j]);
    }
  }

  /** A grouping is a partition of the rows, and costs what the ungrouped rows cost. */
  lemma GroupingConserves(groups: seq<Group>, keys: seq<string>, rows: seq<Recipient>, tokenIn: string,
                          referenceId: string, feeBps: nat)
    requires IsGrouping(groups, keys, rows, tokenIn, referenceId)
    ensures multiset(Joined(groups)) == multiset(rows)
    ensures GroupsFunding(groups, feeBps) == Funding(Amounts(rows), feeBps)
    ensures forall k | 0 < k < |groups| :: !groups[k].sameToken
  {
    SortedIsDistinct(keys, tokenIn);
    forall k | 0 <= k < |groups|
      ensures groups[k].rows == RowsOf(rows, keys[k]) && groups[k].sameToken == (keys[k] == tokenIn)
    {
      assert IsGroup(groups[k], keys[k], |keys| > 1, rows, tokenIn, referenceId);
    }
    GroupsJoin(groups, keys, rows, feeBps);
    AllIn(rows, keys);
    forall k | 0 < k < |groups|
      ensures !groups[k].sameToken
    {
      assert Before(keys[0], keys[k], tokenIn);
    }
  }

  /** Each row stands in the group of its token and in no other. */
  lemma EachRowInOneGroup(groups: seq<Group>, keys: seq<string>, rows: seq<Recipient>, tokenIn: string,
                          referenceId: string, i: nat)
    requires IsGrouping(groups, keys, rows, tokenIn, referenceId) && i < |rows|
    ensures exists k :: 0 <= k < |groups| && rows[i] in groups[k].rows
    ensures forall j, k | 0 <= j < |groups| && 0 <= k < |groups|
                          && rows[i] in groups[j].rows && rows[i] in groups[k].rows :: j == k
  {
    SortedIsDistinct(keys, tokenIn);
    forall k | 0 <= k < |groups|
      ensures rows[i] in groups[k].rows <==> keys[k] == Key(rows[i])
    {
      assert IsGroup(groups[k], keys[k], |keys| > 1, rows, tokenIn, referenceId);
      RowIsListed(rows, i, keys[k]);
    }
    var k :| 0 <= k < |keys| && keys[k] == Key(rows[i]);
    assert rows[i] in groups[k].rows;
  }

  lemma {:induction false} RowIsListed(rows: seq<Recipient>, i: nat, key: string)
    requires i < |rows|
    ensures rows[i] in RowsOf(rows, key) <==> Key(rows[i]) == key
  {
    if i < |rows| - 1 {
      RowIsListed(rows[..|rows| - 1], i, key);
    }
  }

  /** The groups of one run have different reference ids exactly when their tokens differ in the first ten characters. */
  lemma ReferencesDiffer(groups: seq<Group>, keys: seq<string>, rows: seq<Recipient>, tokenIn: string,
                         referenceId: string, j: nat, k: nat)
    requires IsGrouping(groups, keys, rows, tokenIn, referenceId) && j < k < |groups|
    requires |keys[j]| >= 10 && |keys[k]| >= 10
    ensures groups[j].referenceId != groups[k].referenceId <==> keys[j][..10] != keys[k][..10]
  {
    assert IsGroup(groups[j], keys[j], |keys| > 1, rows, tokenIn, referenceId);
    assert IsGroup(groups[k], keys[k], |keys| > 1, rows, tokenIn, referenceId);
    var stem := referenceId + ":";
    assert groups[j].referenceId[|stem|..] == keys[j][..10];
    assert groups[k].referenceId[|stem|..] == keys[k][..10];
  }
}
