/**
 The activity list: pages in descending (createdAt, id) order, each continuing after the last row
 of the one before, which travels in the cursor text.
 */
module ActivityPages {
  import opened Wrappers
  import opened Sequences
  import opened CursorTexts

  datatype Row = Row(id: string, createdAt: Time, owner: string, wallet: string, kind: string, status: string)

  datatype Filter = Filter(owner: string, wallet: string, kind: Option<string>, status: Option<string>)

  // ---- The order ---------------------------------------------------------------------------

  function CursorOf(row: Row): Cursor {
    Cursor(row.createdAt, row.id)
  }

  /** The cursor's WHERE clause: strictly later in the list than the cursor. */
  predicate After(row: Row, c: Cursor) {
    row.createdAt < c.createdAt || (row.createdAt == c.createdAt && Precedes(row.id, c.id))
  }

  ghost predicate IsDescending(rows: seq<Row>) {
    forall i, j | 0 <= i < j < |rows| :: After(rows[j], CursorOf(rows[i]))
  }

  lemma AfterTransitive(a: Row, b: Row, c: Row)
    requires After(b, CursorOf(a)) && After(c, CursorOf(b))
    ensures After(c, CursorOf(a))
  {
    if a.createdAt == b.createdAt == c.createdAt {
      PrecedesTransitive(c.id, b.id, a.id);
    }
  }

  lemma AfterTotal(a: Row, b: Row)
    requires a.id != b.id
    ensures After(a, CursorOf(b)) || After(b, CursorOf(a))
    ensures !(After(a, CursorOf(b)) && After(b, CursorOf(a)))
    ensures !After(a, CursorOf(a))
  {
    PrecedesTotal(a.id, b.id);
    PrecedesTotal(a.id, a.id);
  }

  /** `a` stands before `b` in the list. */
  predicate Above(a: Row, b: Row) {
    After(b, CursorOf(a))
  }

  /** The table in list order. */
  function Ordered(table: seq<Row>): seq<Row> {
    Sorted(Above, table)
  }

  /** The primary key. */
  ghost predicate IsTable(table: seq<Row>) {
    forall i, j | 0 <= i < j < |table| :: table[i].id != table[j].id
  }

  lemma AboveIsTransitive()
    ensures IsTransitive(Above)
  {
    forall a, b, c | Above(a, b) && Above(b, c)
      ensures Above(a, c)
    {
      AfterTransitive(a, b, c);
    }
  }

  /** List order is a permutation of the table, strictly descending: equal times are told apart by id. */
  lemma OrderedIsDescending(table: seq<Row>)
    requires IsTable(table)
    ensures IsDescending(Ordered(table)) && multiset(Ordered(table)) == multiset(table)
  {
    AboveIsTransitive();
    forall i, j | 0 <= i < j < |table|
      ensures Compares(Above, table[i], table[j])
    {
      AfterTotal(table[i], table[j]);
    }
    SortedIsSorted(Above, table);
    var rows := Ordered(table);
    forall i, j | 0 <= i < j < |rows|
      ensures After(rows[j], CursorOf(rows[i]))
    {
      assert Above(rows[i], rows[j]);
    }
  }

  // ---- One query ---------------------------------------------------------------------------

  predicate Selects(filter: Filter, row: Row) {
    && row.owner == filter.owner && row.wallet == filter.wallet
    && (filter.kind.Some? ==> row.kind == filter.kind.value)
    && (filter.status.Some? ==> row.status == filter.status.value)
  }

  /** The rows a query finds, in order. */
  function Where(rows: seq<Row>, filter: Filter, cursor: Option<Cursor>): seq<Row> {
    if rows == [] then []
    else
      var before := Where(rows[..|rows| - 1], filter, cursor);
      var last := rows[|rows| - 1];
      if Selects(filter, last) && (cursor.Some? ==> After(last, cursor.value)) then before + [last] else before
  }

  lemma {:induction false} WhereDescends(rows: seq<Row>, filter: Filter, cursor: Option<Cursor>)
    requires IsDescending(rows)
    ensures IsDescending(Where(rows, filter, cursor))
    ensures forall k | 0 <= k < |Where(rows, filter, cursor)| :: Where(rows, filter, cursor)[k] in rows
  {
    if rows != [] {
      var n := |rows| - 1;
      WhereDescends(rows[..n], filter, cursor);
      var before := Where(rows[..n], filter, cursor);
      forall k | 0 <= k < |before|
        ensures before[k] in rows && After(rows[n], CursorOf(before[k]))
      {
        var i :| 0 <= i < n && rows[i] == before[k];
      }
    }
  }

  /** The rows that follow a cursor. */
  function Following(rows: seq<Row>, c: Cursor): seq<Row> {
    if rows == [] then []
    else
      var before := Following(rows[..|rows| - 1], c);
      if After(rows[|rows| - 1], c) then before + [rows[|rows| - 1]] else before
  }

  lemma {:induction false} WhereIsFollowing(rows: seq<Row>, filter: Filter, c: Cursor)
    ensures Where(rows, filter, Some(c)) == Following(Where(rows, filter, None), c)
  {
    if rows != [] {
      WhereIsFollowing(rows[..|rows| - 1], filter, c);
    }
  }

  /** In list order, what follows row k is exactly the rest of the list. */
  lemma {:induction false} FollowingIsRest(rows: seq<Row>, k: nat)
    requires IsDescending(rows) && k < |rows|
    ensures Following(rows, CursorOf(rows[k])) == rows[k + 1..]
  {
    var n := |rows| - 1;
    if k < n {
      FollowingIsRest(rows[..n], k);
      assert rows[k + 1..] == rows[..n][k + 1..] + [rows[n]];
    } else {
      NothingFollows(rows, n, rows[n]);
      PrecedesTotal(rows[n].id, rows[n].id);
    }
  }

  lemma {:induction false} NothingFollows(rows: seq<Row>, n: nat, last: Row)
    requires n <= |rows| && forall i | 0 <= i < n :: After(last, CursorOf(rows[i]))
    ensures Following(rows[..n], CursorOf(last)) == []
  {
    if n > 0 {
      assert rows[..n][..n - 1] == rows[..n - 1];
      NothingFollows(rows, n - 1, last);
      PrecedesTotal(last.id, rows[n - 1].id);
      assert After(last, CursorOf(rows[n - 1]));
    }
  }

  // ---- The list ----------------------------------------------------------------------------

  const DEFAULT_LIMIT := 20
  const MAX_LIMIT := 50

  datatype ListError = InvalidPageSize | InvalidCursor

  datatype Page = Page(items: seq<Row>, nextCursor: Option<string>)

  function Clamped(limit: Option<int>): int {
    var wanted := if limit.Some? then limit.value else DEFAULT_LIMIT;
    var atLeastOne := if wanted < 1 then 1 else wanted;
    if atLeastOne > MAX_LIMIT then MAX_LIMIT else atLeastOne
  }

  function Take(rows: seq<Row>, n: nat): seq<Row> {
    if |rows| <= n then rows else rows[..n]
  }

  /** Times are dates, and ids are never empty and need no escaping. */
  ghost predicate HasCursors(table: seq<Row>) {
    forall i | 0 <= i < |table| :: IsCursor(CursorOf(table[i]))
  }

  /** An empty cursor text is no cursor. */
  function List(codec: CursorCodec, table: seq<Row>, filter: Filter, limit: Option<int>, text: string): Result<Page, ListError>
  {
    if limit.Some? && limit.value < 1 then Failure(InvalidPageSize)
    else if text != "" && codec.read(text).None? then Failure(InvalidCursor)
    else
      var size := Clamped(limit);
      var cursor := if text != "" then codec.read(text) else None;
      var rows := Take(Where(Ordered(table), filter, cursor), size + 1);
      var items := Take(rows, size);
      if |rows| > size then Success(Page(items, Some(codec.write(CursorOf(items[|items| - 1])))))
      else Success(Page(items, None))
  }

  /** All rows the filter selects, in list order. */
  function Listing(table: seq<Row>, filter: Filter): seq<Row> {
    Where(Ordered(table), filter, None)
  }

  /** A cursor text that stands after the first k rows of the listing. */
  ghost predicate StandsAt(codec: CursorCodec, table: seq<Row>, filter: Filter, text: string, k: nat) {
    && k <= |Listing(table, filter)|
    && (if k == 0 then text == ""
        else text != "" && codec.read(text) == Some(CursorOf(Listing(table, filter)[k - 1])))
  }

  lemma ListingDescends(table: seq<Row>, filter: Filter)
    requires IsTable(table) && HasCursors(table)
    ensures IsDescending(Listing(table, filter)) && HasCursors(Listing(table, filter))
  {
    OrderedIsDescending(table);
    WhereDescends(Ordered(table), filter, None);
    var rows := Listing(table, filter);
    forall i | 0 <= i < |rows|
      ensures IsCursor(CursorOf(rows[i]))
    {
      assert rows[i] in multiset(Ordered(table));
      assert rows[i] in multiset(table);
    }
  }

  lemma RestAt(codec: CursorCodec, table: seq<Row>, filter: Filter, text: string, k: nat)
    requires IsTable(table) && HasCursors(table) && StandsAt(codec, table, filter, text, k)
    ensures Where(Ordered(table), filter, if text != "" then codec.read(text) else None)
         == Listing(table, filter)[k..]
  {
    if k > 0 {
      ListingDescends(table, filter);
      WhereIsFollowing(Ordered(table), filter, CursorOf(Listing(table, filter)[k - 1]));
      FollowingIsRest(Listing(table, filter), k - 1);
    }
  }

  lemma TakenRows(rest: seq<Row>, size: nat)
    ensures var rows := Take(rest, size + 1);
            && (|rows| > size <==> |rest| > size)
            && Take(rows, size) == rest[..|Take(rows, size)|]
            && |Take(rows, size)| == if |rest| > size then size else |rest|
  {}

  /** The rows of the page that starts after row k of the listing. */
  function PageSize(table: seq<Row>, filter: Filter, limit: Option<int>, k: nat): (n: nat)
    requires k <= |Listing(table, filter)|
    ensures k + n <= |Listing(table, filter)| && n <= MAX_LIMIT
    ensures k < |Listing(table, filter)| ==> n > 0
  {
    if k + Clamped(limit) < |Listing(table, filter)| then Clamped(limit) else |Listing(table, filter)| - k
  }

  lemma ItemsAt(codec: CursorCodec, table: seq<Row>, filter: Filter, limit: Option<int>, text: string, k: nat)
    requires IsTable(table) && HasCursors(table)
    requires limit.Some? ==> limit.value >= 1
    requires StandsAt(codec, table, filter, text, k)
    ensures List(codec, table, filter, limit, text).Success?
    ensures var page := List(codec, table, filter, limit, text).value;
            var next := k + PageSize(table, filter, limit, k);
            && page.items == Listing(table, filter)[k..next]
            && (page.nextCursor.None? <==> next == |Listing(table, filter)|)
            && (page.nextCursor.Some? ==>
                  && next > k
                  && page.nextCursor.value == codec.write(CursorOf(page.items[next - k - 1])))
  {
    var listing, size := Listing(table, filter), Clamped(limit);
    RestAt(codec, table, filter, text, k);
    TakenRows(listing[k..], size);
    var next := k + PageSize(table, filter, limit, k);
    assert listing[k..][..next - k] == listing[k..next];
  }

  /** A page size below one, or a cursor text that cannot be read, is refused; nothing else is. */
  lemma RefusedExactly(codec: CursorCodec, table: seq<Row>, filter: Filter, limit: Option<int>, text: string)
    ensures List(codec, table, filter, limit, text)
         == if limit.Some? && limit.value <= 0 then Failure(InvalidPageSize)
            else if text != "" && codec.read(text).None? then Failure(InvalidCursor)
            else List(codec, table, filter, if limit.None? then Some(20) else if limit.value > 50 then Some(50) else limit,
                      text)
    ensures List(codec, table, filter, limit, text).Success? ==>
              |List(codec, table, filter, limit, text).value.items|
              <= if limit.None? then 20 else if limit.value > 50 then 50 else limit.value
  {}

  /** One page: the next rows of the listing, and a cursor exactly when more remain. */
  lemma PageAt(codec: CursorCodec, table: seq<Row>, filter: Filter, limit: Option<int>, text: string, k: nat)
    requires IsFaithful(codec) && IsTable(table) && HasCursors(table)
    requires limit.Some? ==> limit.value >= 1
    requires StandsAt(codec, table, filter, text, k)
    ensures List(codec, table, filter, limit, text).Success?
    ensures var page := List(codec, table, filter, limit, text).value;
            var next := k + PageSize(table, filter, limit, k);
            && page.items == Listing(table, filter)[k..next]
            && next == (var wanted := k + if limit.None? then 20 else if limit.value > 50 then 50 else limit.value;
                        if wanted < |Listing(table, filter)| then wanted else |Listing(table, filter)|)
            && (page.nextCursor.None? <==> next == |Listing(table, filter)|)
            && (page.nextCursor.Some? ==> StandsAt(codec, table, filter, page.nextCursor.value, next))
  {
    ItemsAt(codec, table, filter, limit, text, k);
    ListingDescends(table, filter);
    var next := k + PageSize(table, filter, limit, k);
    if k < next {
      CursorStands(codec, table, filter, next);
      assert Listing(table, filter)[k..next][next - k - 1] == Listing(table, filter)[next - 1];
    }
  }

  lemma CursorStands(codec: CursorCodec, table: seq<Row>, filter: Filter, k: nat)
    requires IsFaithful(codec) && HasCursors(Listing(table, filter)) && 0 < k <= |Listing(table, filter)|
    ensures StandsAt(codec, table, filter, codec.write(CursorOf(Listing(table, filter)[k - 1])), k)
  {
    var row := Listing(table, filter)[k - 1];
    assert IsCursor(CursorOf(row));
    assert codec.read(codec.write(CursorOf(row))) == Some(CursorOf(row));
  }

  /** What a client collects that asks again with each cursor until there is none. */
  ghost function Collected(codec: CursorCodec, table: seq<Row>, filter: Filter, limit: Option<int>, text: string, k: nat)
    : seq<Row>
    requires IsFaithful(codec) && IsTable(table) && HasCursors(table)
    requires limit.Some? ==> limit.value >= 1
    requires StandsAt(codec, table, filter, text, k)
    decreases |Listing(table, filter)| - k
  {
    PageAt(codec, table, filter, limit, text, k);
    var page := List(codec, table, filter, limit, text).value;
    if page.nextCursor.None? then page.items
    else
      page.items
      + Collected(codec, table, filter, limit, page.nextCursor.value, k + PageSize(table, filter, limit, k))
  }

  lemma Resumed(rows: seq<Row>, k: nat, next: nat)
    requires k <= next <= |rows|
    ensures rows[k..next] + rows[next..] == rows[k..]
  {}

  lemma {:induction false} CollectsTheRest(codec: CursorCodec, table: seq<Row>, filter: Filter, limit: Option<int>,
                                           text: string, k: nat)
    requires IsFaithful(codec) && IsTable(table) && HasCursors(table)
    requires limit.Some? ==> limit.value >= 1
    requires StandsAt(codec, table, filter, text, k)
    ensures Collected(codec, table, filter, limit, text, k) == Listing(table, filter)[k..]
    decreases |Listing(table, filter)| - k
  {
    hide List, Listing, StandsAt;
    PageAt(codec, table, filter, limit, text, k);
    var page := List(codec, table, filter, limit, text).value;
    var next := k + PageSize(table, filter, limit, k);
    if page.nextCursor.Some? {
      CollectsTheRest(codec, table, filter, limit, page.nextCursor.value, next);
      Resumed(Listing(table, filter), k, next);
    }
  }

  lemma {:induction false} WhereHoldsSelected(rows: seq<Row>, filter: Filter, row: Row)
    ensures row in Where(rows, filter, None) <==> row in rows && Selects(filter, row)
  {
    if rows != [] {
      WhereHoldsSelected(rows[..|rows| - 1], filter, row);
    }
  }

  /** Following the cursors from the start ends with exactly the selected rows, newest first, each once. */
  lemma FollowingCursorsListsAll(codec: CursorCodec, table: seq<Row>, filter: Filter, limit: Option<int>)
    requires IsFaithful(codec) && IsTable(table) && HasCursors(table)
    requires limit.Some? ==> limit.value >= 1
    ensures StandsAt(codec, table, filter, "", 0)
    ensures var collected := Collected(codec, table, filter, limit, "", 0);
            && (forall i, j | 0 <= i < j < |collected| ::
                  || collected[j].createdAt < collected[i].createdAt
                  || (collected[j].createdAt == collected[i].createdAt && Precedes(collected[j].id, collected[i].id)))
            && (forall row :: row in collected
                         <==> && row in table && row.owner == filter.owner && row.wallet == filter.wallet
                              && (filter.kind.None? || filter.kind == Some(row.kind))
                              && (filter.status.None? || filter.status == Some(row.status)))
            && (forall i, j | 0 <= i < j < |collected| :: collected[i].id != collected[j].id)
  {
    CollectsTheRest(codec, table, filter, limit, "", 0);
    ListingDescends(table, filter);
    OrderedIsDescending(table);
    var collected := Collected(codec, table, filter, limit, "", 0);
    assert collected == Listing(table, filter);
    forall row
      ensures row in collected <==> row in table && Selects(filter, row)
    {
      WhereHoldsSelected(Ordered(table), filter, row);
      assert row in Ordered(table) <==> row in multiset(Ordered(table));
      assert row in table <==> row in multiset(table);
    }
    forall i, j | 0 <= i < j < |collected|
      ensures collected[i].id != collected[j].id
    {
      DistinctIds(table, collected, i, j);
    }
  }

  /** Rows of one table that are told apart by the order have different ids. */
  lemma DistinctIds(table: seq<Row>, rows: seq<Row>, i: nat, j: nat)
    requires IsTable(table) && IsDescending(rows) && i < j < |rows|
    requires rows[i] in table && rows[j] in table
    ensures rows[i].id != rows[j].id
  {
    var a :| 0 <= a < |table| && table[a] == rows[i];
    var b :| 0 <= b < |table| && table[b] == rows[j];
    assert After(rows[j], CursorOf(rows[i]));
    PrecedesTotal(rows[i].id, rows[i].id);
    assert a != b;
  }

  /** The same for the service's own cursor texts. */
  lemma ServiceListsAll(table: seq<Row>, filter: Filter, limit: Option<int>)
    requires IsTable(table) && HasCursors(table)
    requires limit.Some? ==> limit.value >= 1
    ensures IsFaithful(JsonCodec()) && StandsAt(JsonCodec(), table, filter, "", 0)
    ensures Collected(JsonCodec(), table, filter, limit, "", 0) == Listing(table, filter)
  {
    JsonCodecIsFaithful();
    CollectsTheRest(JsonCodec(), table, filter, limit, "", 0);
  }
}
