/** The data layer: `ExampleRepository`, whose every operation checks a
    client out of the connection pool, runs its statement on it, and
    checks the client back in whatever the statement did. The database is
    the in-memory table of module Table; what the database and the pool
    do on each call (answer, break, refuse a client) is a parameter. */
module Repository {
  import opened Records
  import opened Table

  /** The pool's `max` setting. */
  const MAX_CLIENTS := 10
  /** What the pool throws when no client could be handed out in time. */
  const POOL_TIMEOUT := "timeout exceeded when trying to connect"

  /** How the database behaves for one operation: it answers, the
      connection breaks and the statement throws `message`, or the pool
      refuses to hand out a client with `message`. */
  datatype Link = Healthy | Broken(message: string) | Refused(message: string)

  datatype PoolEvent = Checkout | Checkin

  /** The pool hands out a client unless it is refused or all clients are out. */
  predicate Grants(link: Link, leased: nat)
  {
    !link.Refused? && leased < MAX_CLIENTS
  }

  /** The statement runs on a client and answers. */
  predicate Succeeds(link: Link, leased: nat)
  {
    Grants(link, leased) && link.Healthy?
  }

  /** The error an operation throws when it does not succeed. */
  function Trouble(link: Link, leased: nat): Failure
  {
    if link.Refused? then DatabaseError(link.message)
    else if leased >= MAX_CLIENTS then DatabaseError(POOL_TIMEOUT)
    else if link.Broken? then DatabaseError(link.message)
    else DatabaseError("")
  }

  /** The checkouts and checkins of one scoped operation: none if no client
      was handed out, else one of each, checkout first. */
  function Leases(granted: bool): seq<PoolEvent>
  {
    if granted then [Checkout, Checkin] else []
  }

  /** Checkouts not yet matched by a checkin in a history of the pool. */
  ghost function Outstanding(log: seq<PoolEvent>): int
  {
    if log == [] then 0
    else Outstanding(log[..|log| - 1]) + (if log[|log| - 1] == Checkout then 1 else -1)
  }

  /** One event changes the outstanding count by one. */
  lemma OutstandingAppend(log: seq<PoolEvent>, e: PoolEvent)
    ensures Outstanding(log + [e]) == Outstanding(log) + (if e == Checkout then 1 else -1)
  {
    assert (log + [e])[..|log|] == log;
  }

  /** A scoped operation, a checkout followed by its checkin or nothing at
      all, leaves the outstanding count where it was. */
  lemma OutstandingOfLeases(log: seq<PoolEvent>, granted: bool)
    ensures Outstanding(log + Leases(granted)) == Outstanding(log)
  {
    if granted {
      OutstandingAppend(log, Checkout);
      OutstandingAppend(log + [Checkout], Checkin);
      assert log + [Checkout] + [Checkin] == log + Leases(granted);
    } else {
      assert log + Leases(granted) == log;
    }
  }

  /** The one connection pool of the process, seen through how many clients
      are checked out and the history of checkouts and checkins. */
  class Pool {
    var leased: nat
    ghost var log: seq<PoolEvent>

    /** The count of checked-out clients is the number of checkouts in the
        history that no checkin has matched. */
    ghost predicate Valid()
      reads this
    {
      leased == Outstanding(log)
    }

    constructor ()
      ensures Valid()
      ensures leased == 0 && log == []
    {
      leased := 0;
      log := [];
    }

    /** `pool.connect()`: `None` when a client was handed out. */
    method Connect(link: Link) returns (refusal: Option<Failure>)
      modifies this
      ensures refusal.None? <==> Grants(link, old(leased))
      ensures refusal.Some? ==> refusal.value == Trouble(link, old(leased))
      ensures leased == old(leased) + (if refusal.None? then 1 else 0)
      ensures log == old(log) + (if refusal.None? then [Checkout] else [])
      ensures old(Valid()) ==> Valid()
    {
      OutstandingAppend(log, Checkout);
      if Grants(link, leased) {
        leased := leased + 1;
        log := log + [Checkout];
        refusal := None;
      } else {
        refusal := Some(Trouble(link, leased));
      }
    }

    /** `client.release()`. */
    method Release()
      requires leased > 0
      modifies this
      ensures leased == old(leased) - 1
      ensures log == old(log) + [Checkin]
      ensures old(Valid()) ==> Valid()
    {
      OutstandingAppend(log, Checkin);
      leased := leased - 1;
      log := log + [Checkin];
    }
  }

  /** A row of `table1` or `table2`, the tables of the transactional example. */
  datatype Entry = Entry(id: string, data: Option<string>)

  /** The two values that `createWithTransaction` inserts. */
  datatype Pair = Pair(value1: Option<string>, value2: Option<string>)

  /** The statements of `createWithTransaction`, in the order they run. */
  datatype Step = Begin | Insert1 | Insert2 | Commit

  function Rank(s: Step): nat
  {
    match s
    case Begin => 0
    case Insert1 => 1
    case Insert2 => 2
    case Commit => 3
  }

  /** Statement `s` of the transaction runs to completion: the connection
      is healthy, or it breaks only at a later statement. */
  predicate Completes(link: Link, failAt: Step, s: Step)
  {
    link.Healthy? || Rank(s) < Rank(failAt)
  }

  /** No id at or after serial `next` is already in use. */
  ghost predicate Unissued(id: string, next: nat)
  {
    forall n :: next <= n ==> id != Decimal(n)
  }

  /** `DELETE` keeps what `Valid` asks of the table: it stays well-formed,
      older than the clock, and clear of the ids still to be handed out. */
  lemma RemovedStaysValid(rows: seq<Row>, id: string, clock: nat, next: nat)
    requires WellFormed(rows)
    requires forall i :: 0 <= i < |rows| ==> rows[i].createdAt < clock
    requires forall i :: 0 <= i < |rows| ==> Unissued(rows[i].id, next)
    ensures WellFormed(Removed(rows, id))
    ensures forall i :: 0 <= i < |Removed(rows, id)| ==> Removed(rows, id)[i].createdAt < clock
    ensures forall i :: 0 <= i < |Removed(rows, id)| ==> Unissued(Removed(rows, id)[i].id, next)
  {
    RemovedWellFormed(rows, id);
    var r := Removed(rows, id);
    forall i | 0 <= i < |r|
      ensures r[i].createdAt < clock && Unissued(r[i].id, next)
    {
      assert r[i] in r;
      var j :| 0 <= j < |rows| && rows[j] == r[i];
    }
  }

  class ExampleRepository {
    const pool: Pool
    /** `your_table`, in insertion order. */
    var rows: seq<Row>
    /** The id sequence of `your_table`: the serial the next insert gets. */
    var nextId: nat
    /** The database clock read by `NOW()`; every INSERT and UPDATE of
        `your_table` moves it forward. */
    var clock: nat
    var table1: seq<Entry>
    var table2: seq<Entry>
    var nextId1: nat
    var nextId2: nat

    /** The table is well-formed, older than the clock, and shares no id
        with what the id sequence will still hand out. */
    ghost predicate Valid()
      reads this
    {
      && WellFormed(rows)
      && (forall i :: 0 <= i < |rows| ==> rows[i].createdAt < clock)
      && (forall i :: 0 <= i < |rows| ==> Unissued(rows[i].id, nextId))
    }

    constructor (pool: Pool)
      ensures Valid() && this.pool == pool
      ensures rows == [] && table1 == [] && table2 == []
      ensures nextId == 1 && nextId1 == 1 && nextId2 == 1
    {
      this.pool := pool;
      rows, table1, table2 := [], [], [];
      nextId, nextId1, nextId2 := 1, 1, 1;
      clock := 0;
    }

    /** `findAll(limit, offset)`: a page of the table, newest first. A
        negative LIMIT or OFFSET is refused by the database, which checks
        OFFSET first. */
    method FindAll(limit: int, offset: int, link: Link) returns (r: Result<seq<Row>>)
      requires Valid()
      modifies pool
      ensures pool.leased == old(pool.leased)
      ensures pool.log == old(pool.log) + Leases(Grants(link, old(pool.leased)))
      ensures old(pool.Valid()) ==> pool.Valid()
      ensures !Succeeds(link, old(pool.leased)) ==> r == Err(Trouble(link, old(pool.leased)))
      ensures Succeeds(link, old(pool.leased)) ==>
        r == (if offset < 0 then Err(DatabaseError("OFFSET must not be negative"))
              else if limit < 0 then Err(DatabaseError("LIMIT must not be negative"))
              else Ok(Page(rows, limit, offset)))
    {
      var refusal := pool.Connect(link);
      if refusal.Some? {
        return Err(refusal.value);
      }
      if link.Broken? {
        r := Err(DatabaseError(link.message));
      } else if offset < 0 {
        r := Err(DatabaseError("OFFSET must not be negative"));
      } else if limit < 0 {
        r := Err(DatabaseError("LIMIT must not be negative"));
      } else {
        r := Ok(Page(rows, limit, offset));
      }
      pool.Release();
    }

    /** `findById(id)`: the row with that id, or null. */
    method FindById(id: string, link: Link) returns (r: Result<Option<Row>>)
      requires Valid()
      modifies pool
      ensures pool.leased == old(pool.leased)
      ensures pool.log == old(pool.log) + Leases(Grants(link, old(pool.leased)))
      ensures old(pool.Valid()) ==> pool.Valid()
      ensures !Succeeds(link, old(pool.leased)) ==> r == Err(Trouble(link, old(pool.leased)))
      ensures Succeeds(link, old(pool.leased)) ==> r == Ok(Lookup(rows, id))
    {
      var refusal := pool.Connect(link);
      if refusal.Some? {
        return Err(refusal.value);
      }
      if link.Broken? {
        r := Err(DatabaseError(link.message));
      } else {
        r := Ok(Lookup(rows, id));
      }
      pool.Release();
    }

    /** `create(data)`: inserts a row with the next serial id and the
        current time, and returns it. */
    method Create(data: Fields, link: Link) returns (r: Result<Row>)
      requires Valid()
      modifies this`rows, this`nextId, this`clock, pool
      ensures Valid()
      ensures pool.leased == old(pool.leased)
      ensures pool.log == old(pool.log) + Leases(Grants(link, old(pool.leased)))
      ensures old(pool.Valid()) ==> pool.Valid()
      ensures !Succeeds(link, old(pool.leased)) ==>
        r == Err(Trouble(link, old(pool.leased))) && rows == old(rows) && nextId == old(nextId) && clock == old(clock)
      ensures Succeeds(link, old(pool.leased)) ==>
        && r == Ok(Row(Decimal(old(nextId)), data.column1, data.column2, old(clock), None))
        && rows == old(rows) + [r.value]
        && nextId == old(nextId) + 1 && clock == old(clock) + 1
    {
      var refusal := pool.Connect(link);
      if refusal.Some? {
        return Err(refusal.value);
      }
      if link.Broken? {
        r := Err(DatabaseError(link.message));
      } else {
        var row := Row(Decimal(nextId), data.column1, data.column2, clock, None);
        forall i | 0 <= i < |rows|
          ensures rows[i].createdAt < row.createdAt && rows[i].id != row.id
          ensures Unissued(rows[i].id, nextId + 1)
        {
          assert Unissued(rows[i].id, nextId);
        }
        forall n | nextId + 1 <= n
          ensures row.id != Decimal(n)
        {
          if row.id == Decimal(n) {
            DecimalInjective(nextId, n);
          }
        }
        InsertWellFormed(rows, row);
        rows := rows + [row];
        nextId := nextId + 1;
        clock := clock + 1;
        r := Ok(row);
      }
      pool.Release();
    }

    /** `update(id, data)`: overwrites BOTH columns with what `data` holds
        (an absent value becomes NULL), stamps `updated_at`, and returns the
        new row, or null when no row has that id. */
    method Update(id: string, data: Fields, link: Link) returns (r: Result<Option<Row>>)
      requires Valid()
      modifies this`rows, this`clock, pool
      ensures Valid()
      ensures pool.leased == old(pool.leased)
      ensures pool.log == old(pool.log) + Leases(Grants(link, old(pool.leased)))
      ensures old(pool.Valid()) ==> pool.Valid()
      ensures !Succeeds(link, old(pool.leased)) ==>
        r == Err(Trouble(link, old(pool.leased))) && rows == old(rows) && clock == old(clock)
      ensures Succeeds(link, old(pool.leased)) ==>
        && rows == Rewritten(old(rows), id, data, old(clock))
        && r == Ok(Lookup(rows, id))
        && clock == old(clock) + 1
    {
      var refusal := pool.Connect(link);
      if refusal.Some? {
        return Err(refusal.value);
      }
      if link.Broken? {
        r := Err(DatabaseError(link.message));
      } else {
        RewrittenWellFormed(rows, id, data, clock);
        var updated := Rewritten(rows, id, data, clock);
        assert forall i :: 0 <= i < |rows| ==> updated[i].id == rows[i].id && updated[i].createdAt == rows[i].createdAt;
        rows := updated;
        clock := clock + 1;
        r := Ok(Lookup(rows, id));
      }
      pool.Release();
    }

    /** `delete(id)`: removes the row with that id and returns it, or
        returns null and removes nothing. */
    method Delete(id: string, link: Link) returns (r: Result<Option<Row>>)
      requires Valid()
      modifies this`rows, pool
      ensures Valid()
      ensures pool.leased == old(pool.leased)
      ensures pool.log == old(pool.log) + Leases(Grants(link, old(pool.leased)))
      ensures old(pool.Valid()) ==> pool.Valid()
      ensures !Succeeds(link, old(pool.leased)) ==>
        r == Err(Trouble(link, old(pool.leased))) && rows == old(rows)
      ensures Succeeds(link, old(pool.leased)) ==>
        r == Ok(Lookup(old(rows), id)) && rows == Removed(old(rows), id)
      ensures Succeeds(link, old(pool.leased)) && Lookup(old(rows), id).None? ==>
        rows == old(rows)
      ensures Succeeds(link, old(pool.leased)) && Lookup(old(rows), id).Some? ==>
        |rows| == |old(rows)| - 1
    {
      var refusal := pool.Connect(link);
      if refusal.Some? {
        return Err(refusal.value);
      }
      if link.Broken? {
        r := Err(DatabaseError(link.message));
      } else {
        r := Ok(Lookup(rows, id));
        RemovedKeepsOrder(rows, id);
        RemovedStaysValid(rows, id, clock, nextId);
        rows := Removed(rows, id);
      }
      pool.Release();
    }

    /** `createWithTransaction(data)`: BEGIN, one insert into each of
        `table1` and `table2`, COMMIT. When a statement throws, ROLLBACK
        undoes the inserts and the error is rethrown; if the ROLLBACK itself
        throws (`rollbackFault`), that error replaces the original. The id
        sequences are not transactional: a serial handed out by an insert
        that was rolled back is not handed out again. */
    method CreateWithTransaction(data: Pair, link: Link, failAt: Step, rollbackFault: Option<string>)
      returns (r: Result<(Entry, Entry)>)
      requires Valid()
      modifies this`table1, this`table2, this`nextId1, this`nextId2, pool
      ensures Valid()
      ensures pool.leased == old(pool.leased)
      ensures pool.log == old(pool.log) + Leases(Grants(link, old(pool.leased)))
      ensures old(pool.Valid()) ==> pool.Valid()
      ensures Succeeds(link, old(pool.leased)) ==>
        && r == Ok((Entry(Decimal(old(nextId1)), data.value1), Entry(Decimal(old(nextId2)), data.value2)))
        && table1 == old(table1) + [r.value.0]
        && table2 == old(table2) + [r.value.1]
      ensures !Succeeds(link, old(pool.leased)) ==> r.Err? && table1 == old(table1) && table2 == old(table2)
      ensures !Grants(link, old(pool.leased)) ==> r == Err(Trouble(link, old(pool.leased)))
      ensures Grants(link, old(pool.leased)) && link.Broken? ==>
        r == Err(DatabaseError(if rollbackFault.Some? then rollbackFault.value else link.message))
      ensures nextId1 == old(nextId1) + (if Grants(link, old(pool.leased)) && Completes(link, failAt, Insert1) then 1 else 0)
      ensures nextId2 == old(nextId2) + (if Grants(link, old(pool.leased)) && Completes(link, failAt, Insert2) then 1 else 0)
    {
      var refusal := pool.Connect(link);
      if refusal.Some? {
        return Err(refusal.value);
      }
      var failure: Option<Failure> := None;
      var e1, e2 := Entry("", None), Entry("", None);
      // BEGIN: remember what a ROLLBACK returns to.
      var saved1, saved2 := table1, table2;
      if !Completes(link, failAt, Begin) {
        failure := Some(DatabaseError(link.message));
      }
      if failure.None? {
        if Completes(link, failAt, Insert1) {
          e1 := Entry(Decimal(nextId1), data.value1);
          table1 := table1 + [e1];
          nextId1 := nextId1 + 1;
        } else {
          failure := Some(DatabaseError(link.message));
        }
      }
      if failure.None? {
        if Completes(link, failAt, Insert2) {
          e2 := Entry(Decimal(nextId2), data.value2);
          table2 := table2 + [e2];
          nextId2 := nextId2 + 1;
        } else {
          failure := Some(DatabaseError(link.message));
        }
      }
      if failure.None? && !Completes(link, failAt, Commit) {
        failure := Some(DatabaseError(link.message));
      }
      if failure.Some? {
        // ROLLBACK: uncommitted inserts never become visible.
        table1, table2 := saved1, saved2;
        r := Err(if rollbackFault.Some? then DatabaseError(rollbackFault.value) else failure.value);
      } else {
        r := Ok((e1, e2));
      }
      pool.Release();
    }
  }
}
