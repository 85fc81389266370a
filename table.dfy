/** The part of SQL the repository uses, over `your_table` held as the
    sequence of its rows in insertion order. Because the clock moves
    forward on every INSERT and UPDATE, insertion order is `created_at` order, and
    `ORDER BY created_at DESC` is that sequence read backwards. */
module Table {
  import opened Records

  /** Rows strictly ascending by `created_at`, and no id twice: the table
      is then a map from id to row. */
  ghost predicate WellFormed(rows: seq<Row>)
  {
    && (forall i, j :: 0 <= i < j < |rows| ==> rows[i].createdAt < rows[j].createdAt)
    && (forall i, j :: 0 <= i < j < |rows| ==> rows[i].id != rows[j].id)
  }

  /** Strictly descending by `created_at`: the order of `ORDER BY created_at DESC`. */
  ghost predicate NewestFirstOrder(rows: seq<Row>)
  {
    forall i, j :: 0 <= i < j < |rows| ==> rows[i].createdAt > rows[j].createdAt
  }

  /** `SELECT * ... WHERE id = $1`, first row or null. */
  function Lookup(rows: seq<Row>, id: string): (r: Option<Row>)
    ensures r.Some? ==> r.value in rows && r.value.id == id
    ensures r.None? <==> forall i :: 0 <= i < |rows| ==> rows[i].id != id
  {
    if rows == [] then None
    else if rows[0].id == id then Some(rows[0])
    else Lookup(rows[1..], id)
  }

  /** `ORDER BY created_at DESC`. */
  function NewestFirst(rows: seq<Row>): (r: seq<Row>)
    ensures |r| == |rows|
    ensures forall i :: 0 <= i < |rows| ==> r[i] == rows[|rows| - 1 - i]
  {
    if rows == [] then [] else NewestFirst(rows[1..]) + [rows[0]]
  }

  /** `LIMIT limit OFFSET offset`: skip `offset` rows, keep at most `limit`. */
  function Window(s: seq<Row>, limit: nat, offset: nat): (r: seq<Row>)
    ensures |r| <= limit
    ensures offset >= |s| ==> r == []
    ensures offset < |s| ==> |r| == if offset + limit <= |s| then limit else |s| - offset
    ensures forall i :: 0 <= i < |r| ==> r[i] == s[offset + i]
  {
    if offset >= |s| then []
    else if offset + limit <= |s| then s[offset..offset + limit]
    else s[offset..]
  }

  /** `UPDATE ... SET column1 = $1, column2 = $2, updated_at = NOW() WHERE id = $3`. */
  function Rewritten(rows: seq<Row>, id: string, data: Fields, now: nat): (r: seq<Row>)
    ensures |r| == |rows|
    ensures forall i :: 0 <= i < |rows| && rows[i].id != id ==> r[i] == rows[i]
    ensures forall i :: 0 <= i < |rows| && rows[i].id == id ==>
      r[i] == Row(id, data.column1, data.column2, rows[i].createdAt, Some(now))
  {
    if rows == [] then []
    else
      var head := if rows[0].id == id then Row(id, data.column1, data.column2, rows[0].createdAt, Some(now)) else rows[0];
      [head] + Rewritten(rows[1..], id, data, now)
  }

  /** `DELETE ... WHERE id = $1`: the rows with another id, in their
      order; a table without that id is left as it is. */
  function Removed(rows: seq<Row>, id: string): (r: seq<Row>)
    ensures |r| <= |rows|
    ensures forall x :: x in r <==> x in rows && x.id != id
    ensures (forall i :: 0 <= i < |rows| ==> rows[i].id != id) ==> r == rows
    ensures (exists i :: 0 <= i < |rows| && rows[i].id == id) ==> |r| < |rows|
  {
    if rows == [] then []
    else if rows[0].id == id then Removed(rows[1..], id)
    else [rows[0]] + Removed(rows[1..], id)
  }

  /** The rows that `findAll(limit, offset)` returns. */
  function Page(rows: seq<Row>, limit: nat, offset: nat): seq<Row>
  {
    Window(NewestFirst(rows), limit, offset)
  }

  /** `ORDER BY created_at DESC` of a well-formed table really is sorted
      newest first, and it is a permutation of the table. */
  lemma NewestFirstIsSortedPermutation(rows: seq<Row>)
    requires WellFormed(rows)
    ensures NewestFirstOrder(NewestFirst(rows))
    ensures multiset(NewestFirst(rows)) == multiset(rows)
  {
    NewestFirstSorted(rows);
    NewestFirstPermutes(rows);
  }

  lemma NewestFirstSorted(rows: seq<Row>)
    requires WellFormed(rows)
    ensures NewestFirstOrder(NewestFirst(rows))
  {
    var r, n := NewestFirst(rows), |rows|;
    forall i, j | 0 <= i < j < n
      ensures r[i].createdAt > r[j].createdAt
    {
      assert r[i] == rows[n - 1 - i] && r[j] == rows[n - 1 - j];
    }
  }

  lemma {:induction false} NewestFirstPermutes(rows: seq<Row>)
    ensures multiset(NewestFirst(rows)) == multiset(rows)
  {
    if rows != [] {
      NewestFirstPermutes(rows[1..]);
      assert NewestFirst(rows) == NewestFirst(rows[1..]) + [rows[0]];
      assert rows == [rows[0]] + rows[1..];
    }
  }

  /** What a page of `findAll` holds: at most `limit` rows of the table,
      newest first, the `k`-th being the row ranked `offset + k` from the
      newest. */
  lemma PageContents(rows: seq<Row>, limit: nat, offset: nat)
    requires WellFormed(rows)
    ensures |Page(rows, limit, offset)| <= limit
    ensures offset >= |rows| ==> Page(rows, limit, offset) == []
    ensures NewestFirstOrder(Page(rows, limit, offset))
    ensures forall k :: 0 <= k < |Page(rows, limit, offset)| ==>
      Page(rows, limit, offset)[k] == rows[|rows| - 1 - (offset + k)]
  {
    NewestFirstIsSortedPermutation(rows);
  }

  /** Round trip of `create`: inserting a row with a fresh id and then
      looking that id up finds the row. */
  lemma {:induction false} LookupAfterInsert(rows: seq<Row>, row: Row)
    requires forall i :: 0 <= i < |rows| ==> rows[i].id != row.id
    ensures Lookup(rows + [row], row.id) == Some(row)
  {
    if rows != [] {
      assert (rows + [row])[1..] == rows[1..] + [row];
      LookupAfterInsert(rows[1..], row);
    }
  }

  /** Inserting a row leaves every other id's lookup as it was. */
  lemma {:induction false} LookupAfterInsertOther(rows: seq<Row>, row: Row, id: string)
    requires id != row.id
    ensures Lookup(rows + [row], id) == Lookup(rows, id)
  {
    if rows != [] {
      assert (rows + [row])[1..] == rows[1..] + [row];
      LookupAfterInsertOther(rows[1..], row, id);
    }
  }

  /** After `UPDATE`, the id finds the row with both columns overwritten,
      or nothing if it found nothing before. */
  lemma {:induction false} LookupAfterRewrite(rows: seq<Row>, id: string, data: Fields, now: nat)
    ensures Lookup(Rewritten(rows, id, data, now), id)
         == match Lookup(rows, id)
            case None => None
            case Some(x) => Some(Row(id, data.column1, data.column2, x.createdAt, Some(now)))
  {
    if rows != [] && rows[0].id != id {
      LookupAfterRewrite(rows[1..], id, data, now);
    }
  }

  /** After `DELETE`, the id finds nothing. */
  lemma LookupAfterRemove(rows: seq<Row>, id: string)
    ensures Lookup(Removed(rows, id), id) == None
  {
  }

  /** `DELETE` keeps the surviving rows in their order: in a well-formed
      table, of two rows that survive, the older comes first. With an id
      present exactly one row goes. */
  lemma RemovedKeepsOrder(rows: seq<Row>, id: string)
    requires WellFormed(rows)
    ensures forall i, j :: 0 <= i < j < |Removed(rows, id)| ==>
      Removed(rows, id)[i].createdAt < Removed(rows, id)[j].createdAt
    ensures Lookup(rows, id).Some? ==> |Removed(rows, id)| == |rows| - 1
  {
    RemovedWellFormed(rows, id);
    if Lookup(rows, id).Some? {
      RemovedOne(rows, id);
    }
  }

  lemma {:induction false} RemovedOne(rows: seq<Row>, id: string)
    requires WellFormed(rows) && Lookup(rows, id).Some?
    ensures |Removed(rows, id)| == |rows| - 1
  {
    TailWellFormed(rows);
    if rows[0].id == id {
      assert forall i :: 0 <= i < |rows| - 1 ==> rows[1..][i].id != id by {
        forall i | 0 <= i < |rows| - 1 ensures rows[1..][i].id != id {
          assert rows[1..][i] == rows[i + 1];
        }
      }
    } else {
      RemovedOne(rows[1..], id);
    }
  }

  /** `UPDATE` keeps the table well-formed: it changes neither ids nor
      creation times. */
  lemma RewrittenWellFormed(rows: seq<Row>, id: string, data: Fields, now: nat)
    requires WellFormed(rows)
    ensures WellFormed(Rewritten(rows, id, data, now))
  {
    var r := Rewritten(rows, id, data, now);
    assert forall i :: 0 <= i < |rows| ==> r[i].id == rows[i].id && r[i].createdAt == rows[i].createdAt;
  }

  /** `DELETE` keeps the table well-formed: it keeps the other rows in
      their order. */
  lemma {:induction false} RemovedWellFormed(rows: seq<Row>, id: string)
    requires WellFormed(rows)
    ensures WellFormed(Removed(rows, id))
  {
    if rows != [] {
      TailWellFormed(rows);
      RemovedWellFormed(rows[1..], id);
      if rows[0].id != id {
        forall y | y in Removed(rows[1..], id)
          ensures rows[0].createdAt < y.createdAt && rows[0].id != y.id
        {
          FirstPrecedes(rows, y);
        }
        PrependWellFormed(rows[0], Removed(rows[1..], id));
      }
    }
  }

  lemma TailWellFormed(rows: seq<Row>)
    requires rows != [] && WellFormed(rows)
    ensures WellFormed(rows[1..])
  {
    forall i, j | 0 <= i < j < |rows| - 1
      ensures rows[1..][i].createdAt < rows[1..][j].createdAt && rows[1..][i].id != rows[1..][j].id
    {
      assert rows[1..][i] == rows[i + 1] && rows[1..][j] == rows[j + 1];
    }
  }

  lemma FirstPrecedes(rows: seq<Row>, y: Row)
    requires rows != [] && WellFormed(rows) && y in rows[1..]
    ensures rows[0].createdAt < y.createdAt && rows[0].id != y.id
  {
    var k :| 0 <= k < |rows| - 1 && rows[1..][k] == y;
    assert rows[k + 1] == y;
  }

  lemma PrependWellFormed(x: Row, s: seq<Row>)
    requires WellFormed(s)
    requires forall y :: y in s ==> x.createdAt < y.createdAt && x.id != y.id
    ensures WellFormed([x] + s)
  {
    var r := [x] + s;
    forall i, j | 0 <= i < j < |r|
      ensures r[i].createdAt < r[j].createdAt && r[i].id != r[j].id
    {
      assert r[j] == s[j - 1];
      if i > 0 {
        assert r[i] == s[i - 1];
      }
    }
  }

  /** Appending a row that is newer than every row and has an id no row
      has keeps the table well-formed. */
  lemma InsertWellFormed(rows: seq<Row>, row: Row)
    requires WellFormed(rows)
    requires forall i :: 0 <= i < |rows| ==> rows[i].createdAt < row.createdAt && rows[i].id != row.id
    ensures WellFormed(rows + [row])
  {
  }
}
