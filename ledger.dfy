/**
 * The `income` and `expense` tables (app.py:24-39), modelled once: a row
 * type, the queries the handlers run against a table (owner filter, month
 * filter, `COALESCE(SUM(amount), 0)`, `ORDER BY date DESC`) as functions on
 * a map from row id to row, and a `Table` class whose methods are the
 * INSERT, UPDATE and DELETE statements, with the AUTOINCREMENT counter.
 */
module Ledger {
  import opened Wrappers
  import opened Calendar
  import opened MonthText

  /** The two structurally identical tables. */
  datatype Kind = Income | Expense

  type UserId = int
  type RowId = int

  /** A row `(user_id, amount, category, date, note)`; its `id` is the key of the map that holds it. */
  datatype Row = Row(owner: UserId, amount: real, category: string, date: CalDate, note: string)

  type Rows = map<RowId, Row>

  /**
   * The WHERE clause of the aggregation queries: `user_id=?` (app.py:99, 101)
   * and, for a bucket, also `strftime('%Y-%m', date)=?` (app.py:112, 114).
   */
  predicate Matches(row: Row, owner: UserId, month: Option<CalDate>) {
    row.owner == owner && (month.None? || MonthKey(row.date) == MonthKey(month.value))
  }

  /** The rows a query with that WHERE clause reads. */
  function Selected(rows: Rows, owner: UserId, month: Option<CalDate>): (r: Rows)
    ensures forall id :: id in r <==> id in rows && Matches(rows[id], owner, month)
    ensures forall id :: id in r ==> r[id] == rows[id]
  {
    map id | id in rows && Matches(rows[id], owner, month) :: rows[id]
  }

  /** The rows of one owner (`WHERE user_id=?`, app.py:124, 126). */
  function Owned(rows: Rows, owner: UserId): Rows {
    Selected(rows, owner, None)
  }

  /** A month bucket holds exactly the owner's rows dated in that year and month. */
  lemma InMonthExactly(rows: Rows, owner: UserId, month: CalDate, id: RowId)
    ensures id in Selected(rows, owner, Some(month)) <==>
      id in rows && rows[id].owner == owner &&
      rows[id].date.year == month.year && rows[id].date.month == month.month
  {
    if id in rows {
      MonthKeyInjective(rows[id].date, month);
    }
  }

  /** The owner's rows dated in year `y`, month `m`, chosen by their fields rather than by the month key. */
  function InMonth(rows: Rows, owner: UserId, y: int, m: int): (r: Rows)
    ensures forall id :: id in r <==> id in rows && rows[id].owner == owner && rows[id].date.year == y && rows[id].date.month == m
    ensures forall id :: id in r ==> r[id] == rows[id]
  {
    map id | id in rows && rows[id].owner == owner && rows[id].date.year == y && rows[id].date.month == m :: rows[id]
  }

  /** The key comparison of a month bucket selects those rows and no others. */
  lemma BucketSelectsMonth(rows: Rows, owner: UserId, month: CalDate)
    ensures Selected(rows, owner, Some(month)) == InMonth(rows, owner, month.year, month.month)
  {
    var byKey, byFields := Selected(rows, owner, Some(month)), InMonth(rows, owner, month.year, month.month);
    forall id | id in rows
      ensures id in byKey <==> id in byFields
    {
      InMonthExactly(rows, owner, month, id);
    }
    assert forall id :: id in byKey <==> id in byFields;
  }

  /** Sort key of a date: (year, month, day) order. The stored `YYYY-MM-DD` text itself is not modelled. */
  function DateKey(d: Date): int {
    d.year * 10000 + d.month * 100 + d.day
  }

  /** The sort key compares year, then month, then day. */
  lemma DateKeyLexicographic(a: CalDate, b: CalDate)
    ensures DateKey(a) < DateKey(b) <==>
      MonthIndex(a) < MonthIndex(b) || (MonthIndex(a) == MonthIndex(b) && a.day < b.day)
  {
  }

  /** The sort key orders valid dates as the calendar does. */
  lemma DateKeyChronological(a: CalDate, b: CalDate)
    ensures DateKey(a) < DateKey(b) <==> Ordinal(a) < Ordinal(b)
  {
    DateKeyLexicographic(a, b);
    if Ordinal(b) <= Ordinal(a) {
      MonthIndexMonotone(b, a);
    }
    if Ordinal(a) <= Ordinal(b) {
      MonthIndexMonotone(a, b);
    }
  }

  /**
   * Row `a` comes no later than row `b` in `ORDER BY date DESC`. SQL leaves
   * the order of equal dates open; the model puts the higher id first.
   */
  predicate Precedes(a: RowId, ra: Row, b: RowId, rb: Row) {
    DateKey(ra.date) > DateKey(rb.date) || (DateKey(ra.date) == DateKey(rb.date) && a >= b)
  }

  /** Row `k` comes first: no row precedes it. */
  predicate IsFirst(rows: Rows, k: RowId) {
    k in rows && forall j :: j in rows ==> Precedes(k, rows[k], j, rows[j])
  }

  /** A non-empty table has a row. */
  lemma SomeRow(rows: Rows) returns (x: RowId)
    requires rows != map[]
    ensures x in rows
  {
    if forall y: RowId :: y !in rows {
      assert false;
    }
    x :| x in rows;
  }

  lemma {:induction false} FirstExists(rows: Rows)
    requires rows != map[]
    ensures exists k :: IsFirst(rows, k)
    decreases |rows|
  {
    var x := SomeRow(rows);
    var rest := rows - {x};
    assert rest.Keys == rows.Keys - {x};
    if rest == map[] {
      assert rows.Keys - {x} == {};
      assert forall j :: j in rows ==> j in rows.Keys - {x} || j == x;
      assert IsFirst(rows, x);
    } else {
      FirstExists(rest);
      var k :| IsFirst(rest, k);
      if Precedes(x, rows[x], k, rows[k]) {
        forall j | j in rows
          ensures Precedes(x, rows[x], j, rows[j])
        {
          if j != x {
            assert j in rest && Precedes(k, rows[k], j, rows[j]);
          }
        }
        assert IsFirst(rows, x);
      } else {
        forall j | j in rows
          ensures Precedes(k, rows[k], j, rows[j])
        {
          if j != x {
            assert j in rest;
          }
        }
        assert IsFirst(rows, k);
      }
    }
  }

  /** The id of the row that `ORDER BY date DESC` puts first. */
  function First(rows: Rows): (k: RowId)
    requires rows != map[]
    ensures IsFirst(rows, k)
  {
    FirstExists(rows);
    var k :| IsFirst(rows, k);
    k
  }

  lemma RemoveShrinks(rows: Rows, k: RowId)
    requires k in rows
    ensures |rows - {k}| == |rows| - 1
  {
    assert (rows - {k}).Keys == rows.Keys - {k};
  }

  /** `COALESCE(SUM(amount), 0)` over the given rows. */
  function Sum(rows: Rows): real
    decreases |rows|
  {
    if rows == map[] then 0.0
    else
      var k := First(rows);
      RemoveShrinks(rows, k);
      rows[k].amount + Sum(rows - {k})
  }

  /** The sum does not depend on the order rows are added in: any row can be taken out first. */
  lemma {:induction false} SumRemove(rows: Rows, k: RowId)
    requires k in rows
    ensures Sum(rows) == rows[k].amount + Sum(rows - {k})
    decreases |rows|
  {
    var f := First(rows);
    if f != k {
      var rest := rows - {f};
      RemoveShrinks(rows, f);
      SumRemove(rest, k);
      assert rest - {k} == (rows - {k}) - {f};
      RemoveShrinks(rows, k);
      SumRemove(rows - {k}, f);
    }
  }

  /** Inserting a row under a fresh id adds its amount to the sum. */
  lemma SumInsert(rows: Rows, k: RowId, row: Row)
    requires k !in rows
    ensures Sum(rows[k := row]) == Sum(rows) + row.amount
  {
    SumRemove(rows[k := row], k);
    assert rows[k := row] - {k} == rows;
  }

  /** Replacing a row changes the sum by the difference of the two amounts. */
  lemma SumReplace(rows: Rows, k: RowId, row: Row)
    requires k in rows
    ensures Sum(rows[k := row]) == Sum(rows) - rows[k].amount + row.amount
  {
    SumRemove(rows, k);
    SumRemove(rows[k := row], k);
    assert rows[k := row] - {k} == rows - {k};
  }

  /** The total of a query: the sum of the amounts it selects, 0 when it selects nothing. */
  function Total(rows: Rows, owner: UserId, month: Option<CalDate>): (t: real)
    ensures Selected(rows, owner, month) == map[] ==> t == 0.0
  {
    Sum(Selected(rows, owner, month))
  }

  /** An INSERT adds the new amount to every query that selects the new row and changes no other. */
  lemma TotalAfterInsert(rows: Rows, id: RowId, row: Row, owner: UserId, month: Option<CalDate>)
    requires id !in rows
    ensures Total(rows[id := row], owner, month) ==
      Total(rows, owner, month) + (if Matches(row, owner, month) then row.amount else 0.0)
  {
    var before := Selected(rows, owner, month);
    if Matches(row, owner, month) {
      assert Selected(rows[id := row], owner, month) == before[id := row];
      SumInsert(before, id, row);
    } else {
      assert Selected(rows[id := row], owner, month) == before;
    }
  }

  /** A DELETE takes the removed amount off every query that selected the row and changes no other. */
  lemma TotalAfterDelete(rows: Rows, id: RowId, owner: UserId, month: Option<CalDate>)
    requires id in rows
    ensures Total(rows - {id}, owner, month) ==
      Total(rows, owner, month) - (if Matches(rows[id], owner, month) then rows[id].amount else 0.0)
  {
    var before := Selected(rows, owner, month);
    if Matches(rows[id], owner, month) {
      assert Selected(rows - {id}, owner, month) == before - {id};
      SumRemove(before, id);
    } else {
      assert Selected(rows - {id}, owner, month) == before;
    }
  }

  /** Rows of other owners never affect an owner's totals: only the owner's own rows count. */
  lemma TotalIsolated(rows: Rows, others: Rows, owner: UserId, month: Option<CalDate>)
    requires rows.Keys !! others.Keys
    requires forall id :: id in others ==> others[id].owner != owner
    ensures Total(rows + others, owner, month) == Total(rows, owner, month)
  {
    var mixed, own := Selected(rows + others, owner, month), Selected(rows, owner, month);
    assert forall id :: id in mixed <==> id in own;
    assert mixed == own;
  }

  /** Latest date first. */
  predicate SortedByDateDesc(s: seq<(RowId, Row)>) {
    forall j, k :: 0 <= j < k < |s| ==> DateKey(s[k].1.date) <= DateKey(s[j].1.date)
  }

  /** No row twice. */
  predicate DistinctIds(s: seq<(RowId, Row)>) {
    forall j, k :: 0 <= j < k < |s| ==> s[j].0 != s[k].0
  }

  /** `r` lists every row of `rows` exactly once, each with its id. */
  predicate Enumerates(r: seq<(RowId, Row)>, rows: Rows) {
    && |r| == |rows|
    && (forall j :: 0 <= j < |r| ==> r[j].0 in rows && rows[r[j].0] == r[j].1)
    && (forall id :: id in rows ==> exists j :: 0 <= j < |r| && r[j].0 == id)
    && DistinctIds(r)
  }

  /** The first row, put in front of a sorted listing of the others, keeps it sorted. */
  lemma ConsSorted(rows: Rows, k: RowId, rest: seq<(RowId, Row)>)
    requires IsFirst(rows, k)
    requires forall j :: 0 <= j < |rest| ==> rest[j].0 in rows && rows[rest[j].0] == rest[j].1
    requires SortedByDateDesc(rest)
    ensures SortedByDateDesc([(k, rows[k])] + rest)
  {
    var r := [(k, rows[k])] + rest;
    forall j, i | 0 <= j < i < |r|
      ensures DateKey(r[i].1.date) <= DateKey(r[j].1.date)
    {
      if j > 0 {
        assert r[j] == rest[j - 1] && r[i] == rest[i - 1];
      } else {
        assert r[i] == rest[i - 1];
        assert Precedes(k, rows[k], rest[i - 1].0, rows[rest[i - 1].0]);
      }
    }
  }

  /** The first row, put in front of a listing of the others, gives a listing of all rows. */
  lemma ConsEnumerates(rows: Rows, k: RowId, rest: seq<(RowId, Row)>)
    requires k in rows
    requires Enumerates(rest, rows - {k})
    ensures Enumerates([(k, rows[k])] + rest, rows)
  {
    var r := [(k, rows[k])] + rest;
    RemoveShrinks(rows, k);
    forall j | 0 <= j < |r|
      ensures r[j].0 in rows && rows[r[j].0] == r[j].1
    {
      if j > 0 {
        assert r[j] == rest[j - 1];
      }
    }
    forall j, i | 0 <= j < i < |r|
      ensures r[j].0 != r[i].0
    {
      assert r[i] == rest[i - 1];
      if j > 0 {
        assert r[j] == rest[j - 1];
      } else {
        assert rest[i - 1].0 in rows - {k};
      }
    }
    forall id | id in rows
      ensures exists j :: 0 <= j < |r| && r[j].0 == id
    {
      if id == k {
        assert r[0].0 == id;
      } else {
        assert id in rows - {k};
        var j :| 0 <= j < |rest| && rest[j].0 == id;
        assert r[j + 1] == rest[j];
      }
    }
  }

  /**
   * The rows in the order `ORDER BY date DESC` returns them (app.py:124-127):
   * every row exactly once, latest date first.
   */
  function Listing(rows: Rows): (r: seq<(RowId, Row)>)
    ensures Enumerates(r, rows) && SortedByDateDesc(r)
    decreases |rows|
  {
    if rows == map[] then []
    else
      var k := First(rows);
      RemoveShrinks(rows, k);
      var rest := Listing(rows - {k});
      ConsEnumerates(rows, k, rest);
      ConsSorted(rows, k, rest);
      [(k, rows[k])] + rest
  }

  /** The rows of every owner but `owner`: what a request made by `owner` must not touch. */
  function Foreign(rows: Rows, owner: UserId): (r: Rows)
    ensures forall id :: id in r <==> id in rows && rows[id].owner != owner
    ensures forall id :: id in r ==> r[id] == rows[id]
  {
    map id | id in rows && rows[id].owner != owner :: rows[id]
  }

  /** Inserting a row of `owner` leaves everybody else's rows as they were. */
  lemma InsertKeepsForeign(rows: Rows, id: RowId, row: Row, owner: UserId)
    requires id !in rows && row.owner == owner
    ensures Foreign(rows[id := row], owner) == Foreign(rows, owner)
  {
    var after, before := Foreign(rows[id := row], owner), Foreign(rows, owner);
    assert forall j :: j in after <==> j in before;
  }

  /** Replacing a row of `owner` by another row of `owner` leaves everybody else's rows as they were. */
  lemma ReplaceKeepsForeign(rows: Rows, id: RowId, row: Row, owner: UserId)
    requires id in rows && rows[id].owner == owner && row.owner == owner
    ensures Foreign(rows[id := row], owner) == Foreign(rows, owner)
  {
    var after, before := Foreign(rows[id := row], owner), Foreign(rows, owner);
    assert forall j :: j in after <==> j in before;
  }

  /** Removing a row of `owner` leaves everybody else's rows as they were. */
  lemma RemoveKeepsForeign(rows: Rows, id: RowId, owner: UserId)
    requires id in rows && rows[id].owner == owner
    ensures Foreign(rows - {id}, owner) == Foreign(rows, owner)
  {
    var after, before := Foreign(rows - {id}, owner), Foreign(rows, owner);
    assert forall j :: j in after <==> j in before;
  }

  /** `SELECT * FROM t WHERE id=? AND user_id=?` (app.py:157, 196): the row, if it is there and the owner's. */
  function Fetch(rows: Rows, id: RowId, owner: UserId): (r: Option<Row>)
    ensures r.Some? <==> id in rows && rows[id].owner == owner
    ensures r.Some? ==> r.value == rows[id]
  {
    if id in rows && rows[id].owner == owner then Some(rows[id]) else None
  }

  /** The lookup sees only the owner's rows: a row of someone else looks the same as a missing one. */
  lemma FetchSeesOwnedOnly(rows: Rows, id: RowId, owner: UserId)
    ensures Fetch(rows, id, owner) == Fetch(Owned(rows, owner), id, owner)
    ensures id in rows && rows[id].owner != owner ==> Fetch(rows, id, owner) == Fetch(rows - {id}, id, owner) == None
  {
  }

  /**
   * Rows of other owners never change what the lookup returns: added beside
   * the table they change nothing, and put over its rows they hide them.
   */
  lemma FetchIsolated(rows: Rows, others: Rows, id: RowId, owner: UserId)
    requires forall j :: j in others ==> others[j].owner != owner
    ensures rows.Keys !! others.Keys ==> Fetch(rows + others, id, owner) == Fetch(rows, id, owner)
    ensures Fetch(rows + others, id, owner) == Fetch(rows - others.Keys, id, owner)
  {
  }

  /**
   * One table with its AUTOINCREMENT counter (`sqlite_sequence`). `issued`
   * are the ids ever handed out, deleted ones included.
   */
  class Table {
    var rows: Rows
    var lastId: RowId
    ghost var issued: set<RowId>

    ghost predicate Valid()
      reads this
    {
      && rows.Keys <= issued
      && (forall id :: id in issued ==> 1 <= id <= lastId)
      && lastId >= 0
    }

    /** `CREATE TABLE`: empty, no id used yet. */
    constructor ()
      ensures Valid() && rows == map[] && issued == {} && lastId == 0
    {
      rows := map[];
      lastId := 0;
      issued := {};
    }

    /** The lookup `Fetch` on this table (app.py:157, 196). */
    function Find(id: RowId, owner: UserId): (r: Option<Row>)
      reads this
      ensures r.Some? <==> id in rows && rows[id].owner == owner
      ensures r.Some? ==> r.value == rows[id]
    {
      Fetch(rows, id, owner)
    }

    /** `INSERT INTO t (...) VALUES (...)`: a fresh id, never used before, the row under it. */
    method Insert(row: Row) returns (id: RowId)
      requires Valid()
      modifies this
      ensures Valid()
      ensures id !in old(issued) && id == old(lastId) + 1
      ensures rows == old(rows)[id := row]
      ensures issued == old(issued) + {id} && lastId == id
    {
      id := lastId + 1;
      rows := rows[id := row];
      lastId := id;
      issued := issued + {id};
    }

    /** `UPDATE t SET amount=?, category=?, date=?, note=? WHERE id=?` (app.py:163, 202). */
    method Update(id: RowId, amount: real, category: string, date: CalDate, note: string)
      requires Valid()
      modifies this
      ensures Valid() && lastId == old(lastId) && issued == old(issued)
      ensures rows == if id in old(rows)
        then old(rows)[id := old(rows)[id].(amount := amount, category := category, date := date, note := note)]
        else old(rows)
    {
      if id in rows {
        rows := rows[id := rows[id].(amount := amount, category := category, date := date, note := note)];
      }
    }

    /** `DELETE FROM t WHERE id=? AND user_id=?` (app.py:172, 211). */
    method Delete(id: RowId, owner: UserId) returns (removed: bool)
      requires Valid()
      modifies this
      ensures Valid() && lastId == old(lastId) && issued == old(issued)
      ensures removed <==> old(Find(id, owner)).Some?
      ensures rows == if removed then old(rows) - {id} else old(rows)
    {
      removed := Find(id, owner).Some?;
      if removed {
        rows := rows - {id};
      }
    }
  }
}
