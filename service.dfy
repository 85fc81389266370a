/** The business layer: `ExampleService`. Its pure rules (pagination
    clamping, the offset, `displayName`, the id guard and the two body
    schemas) are functions; its operations are methods that run those rules
    and then call the repository. */
module Service {
  import opened Records
  import opened Table
  import opened Repository
  import opened ErrorHandling

  const DEFAULT_PAGE := 1
  const DEFAULT_LIMIT := 10
  const MAX_LIMIT := 100
  const COLUMN1_MAX := 255
  const INVALID_ID := "Invalid ID format"
  const NOT_FOUND := "Record not found"

  // ---------------------------------------------------------------- pagination

  /** A page below 1 becomes 1; any other page is kept. */
  function ClampPage(page: int): (p: int)
    ensures p >= 1
    ensures page >= 1 ==> p == page
    ensures page < 1 ==> p == DEFAULT_PAGE
  {
    if page < 1 then DEFAULT_PAGE else page
  }

  /** A limit outside 1..100 becomes 10; any other limit is kept. */
  function ClampLimit(limit: int): (l: int)
    ensures 1 <= l <= MAX_LIMIT
    ensures 1 <= limit <= MAX_LIMIT ==> l == limit
    ensures !(1 <= limit <= MAX_LIMIT) ==> l == DEFAULT_LIMIT
  {
    if limit < 1 || limit > MAX_LIMIT then DEFAULT_LIMIT else limit
  }

  /** The rows to skip: all those of the earlier pages. */
  function Offset(page: int, limit: int): (offset: nat)
    requires page >= 1 && limit >= 1
    ensures offset % limit == 0 && offset / limit == page - 1
  {
    MultipleOf(page - 1, limit);
    (page - 1) * limit
  }

  lemma MultipleOf(k: nat, l: nat)
    requires l >= 1
    ensures k * l >= 0 && (k * l) % l == 0 && (k * l) / l == k
  {
    DivModUnique(k * l, l, k, 0);
  }

  lemma DivModUnique(y: int, l: int, q: int, r: int)
    requires l >= 1 && y == l * q + r && 0 <= r < l
    ensures y / l == q && y % l == r
  {
    var q', r' := y / l, y % l;
    assert y == l * q' + r' && 0 <= r' < l;
    assert l * (q - q') == r' - r;
    ProductMagnitude(l, q - q');
  }
  
  lemma ProductMagnitude(l: int, d: int)
    requires l >= 1
    ensures d >= 1 ==> l * d >= l
    ensures d <= -1 ==> l * d <= -l
  {
    if d >= 1 {
      assert l * d == l * (d - 1) + l;
      assert l * (d - 1) >= 0;
    } else if d <= -1 {
      assert l * d == l * (d + 1) - l;
      assert l * (d + 1) <= 0;
    }
  }

  /** Clamping is idempotent: clamped values are left alone by a second
      clamp, so the pagination echoed back is a fixed point. */
  lemma ClampIdempotent(page: int, limit: int)
    ensures ClampPage(ClampPage(page)) == ClampPage(page)
    ensures ClampLimit(ClampLimit(limit)) == ClampLimit(limit)
  {
  }

  // ---------------------------------------------------------------- displayName

  /** A column as a template literal shows it: NULL becomes "null". */
  function Show(column: Option<string>): string
  {
    match column
    case None => "null"
    case Some(s) => s
  }

  function DisplayName(row: Row): string
  {
    Show(row.column1) + " - " + Show(row.column2)
  }

  /** A row with all its columns, plus the derived `displayName`. */
  datatype Enriched = Enriched(record: Row, displayName: string)

  /** `records.map(record => ({...record, displayName}))`. */
  function EnrichAll(rows: seq<Row>): (r: seq<Enriched>)
    ensures |r| == |rows|
    ensures forall i :: 0 <= i < |rows| ==> r[i].record == rows[i] && r[i].displayName == DisplayName(rows[i])
  {
    if rows == [] then [] else [Enriched(rows[0], DisplayName(rows[0]))] + EnrichAll(rows[1..])
  }

  /** The display name of a row whose columns are set joins them with
      " - "; its first and last parts are the two columns. */
  lemma DisplayNameParts(row: Row, a: string, b: string)
    requires row.column1 == Some(a) && row.column2 == Some(b)
    ensures DisplayName(row) == a + " - " + b
    ensures DisplayName(row)[..|a|] == a && DisplayName(row)[|a| + 3..] == b
  {
  }

  datatype Pagination = Pagination(page: int, limit: int, total: nat)
  datatype Listing = Listing(data: seq<Enriched>, pagination: Pagination)

  // ---------------------------------------------------------------- id guard

  /** `!id || typeof id !== 'string'` rejects the id. */
  function CheckId(id: Value): (r: Result<string>)
    ensures r.Ok? <==> id.Str? && id.s != ""
    ensures r.Ok? ==> r.value == id.s
    ensures r.Err? ==> r.failure == PlainError(INVALID_ID)
  {
    if id.Str? && id.s != "" then Ok(id.s) else Err(PlainError(INVALID_ID))
  }

  // ---------------------------------------------------------------- schemas

  /** A string of at least one character, and at most `maximum` if given. */
  predicate TextOk(v: Value, maximum: Option<nat>)
  {
    v.Str? && 1 <= |v.s| && (maximum.Some? ==> |v.s| <= maximum.value)
  }

  /** What an optional key accepts: nothing, or an acceptable string. */
  predicate Permitted(v: Value, maximum: Option<nat>)
  {
    v.Undefined? || TextOk(v, maximum)
  }

  /** The value an optional key contributes to the parsed data. */
  function Given(v: Value): Option<string>
  {
    if v.Str? then Some(v.s) else None
  }

  /** The issues `z.string().min(1)[.max(m)][.optional()]` reports for one key. */
  function TextIssues(path: string, v: Value, optional: bool, maximum: Option<nat>): (issues: seq<Issue>)
    ensures issues == [] <==> (if optional then Permitted(v, maximum) else TextOk(v, maximum))
    ensures forall k :: 0 <= k < |issues| ==> issues[k].path == path
  {
    match v
    case Undefined => if optional then [] else [Issue(path, Required)]
    case Other => [Issue(path, NotAString)]
    case Str(s) =>
      (if |s| < 1 then [Issue(path, TooSmall(1))] else [])
      + (if maximum.Some? && |s| > maximum.value then [Issue(path, TooBig(maximum.value))] else [])
  }

  /** The keys an error reports. */
  function Paths(issues: seq<Issue>): set<string>
  {
    set k | 0 <= k < |issues| :: issues[k].path
  }

  lemma PathsOfConcat(a: seq<Issue>, b: seq<Issue>)
    ensures Paths(a + b) == Paths(a) + Paths(b)
  {
    var c := a + b;
    forall p | p in Paths(c) ensures p in Paths(a) + Paths(b) {
      var k :| 0 <= k < |c| && c[k].path == p;
      if k >= |a| {
        assert b[k - |a|].path == p;
      }
    }
    forall p | p in Paths(a) + Paths(b) ensures p in Paths(c) {
      if p in Paths(a) {
        var k :| 0 <= k < |a| && a[k].path == p;
        assert c[k].path == p;
      } else {
        var k :| 0 <= k < |b| && b[k].path == p;
        assert c[|a| + k].path == p;
      }
    }
  }

  lemma PathsOfOneKey(path: string, issues: seq<Issue>)
    requires forall k :: 0 <= k < |issues| ==> issues[k].path == path
    ensures Paths(issues) == if issues == [] then {} else {path}
  {
    if issues != [] {
      assert issues[0].path == path;
    }
  }

  /** `createSchema.parse(data)`: both keys required, `column1` of 1 to 255
      characters, `column2` of at least 1. A valid body passes unchanged;
      an invalid one throws a ZodError naming exactly the bad keys. */
  function ValidateCreate(body: Body): (r: Result<Fields>)
    ensures r.Ok? <==> body.Object? && TextOk(body.column1, Some(COLUMN1_MAX)) && TextOk(body.column2, None)
    ensures r.Ok? ==> r.value == Fields(Some(body.column1.s), Some(body.column2.s))
    ensures r.Err? ==> r.failure.ZodError? && r.failure.issues != []
    ensures r.Err? && body.NotObject? ==> r.failure.issues == [Issue("", NotAnObject)]
    ensures r.Err? && body.Object? ==>
      Paths(r.failure.issues)
      == (if TextOk(body.column1, Some(COLUMN1_MAX)) then {} else {"column1"})
       + (if TextOk(body.column2, None) then {} else {"column2"})
  {
    match body
    case NotObject => Err(ZodError([Issue("", NotAnObject)]))
    case Object(c1, c2) =>
      var i1 := TextIssues("column1", c1, false, Some(COLUMN1_MAX));
      var i2 := TextIssues("column2", c2, false, None);
      PathsOfOneKey("column1", i1);
      PathsOfOneKey("column2", i2);
      PathsOfConcat(i1, i2);
      if i1 + i2 == [] then Ok(Fields(Some(c1.s), Some(c2.s))) else Err(ZodError(i1 + i2))
  }

  /** `updateSchema.parse(data)`: each key may be left out, and a key that
      is present obeys the create rule. Left-out keys are absent from the
      parsed data. */
  function ValidateUpdate(body: Body): (r: Result<Fields>)
    ensures r.Ok? <==> body.Object? && Permitted(body.column1, Some(COLUMN1_MAX)) && Permitted(body.column2, None)
    ensures r.Ok? ==> r.value == Fields(Given(body.column1), Given(body.column2))
    ensures r.Err? ==> r.failure.ZodError? && r.failure.issues != []
    ensures r.Err? && body.NotObject? ==> r.failure.issues == [Issue("", NotAnObject)]
    ensures r.Err? && body.Object? ==>
      Paths(r.failure.issues)
      == (if Permitted(body.column1, Some(COLUMN1_MAX)) then {} else {"column1"})
       + (if Permitted(body.column2, None) then {} else {"column2"})
  {
    match body
    case NotObject => Err(ZodError([Issue("", NotAnObject)]))
    case Object(c1, c2) =>
      var i1 := TextIssues("column1", c1, true, Some(COLUMN1_MAX));
      var i2 := TextIssues("column2", c2, true, None);
      PathsOfOneKey("column1", i1);
      PathsOfOneKey("column2", i2);
      PathsOfConcat(i1, i2);
      if i1 + i2 == [] then Ok(Fields(Given(c1), Given(c2))) else Err(ZodError(i1 + i2))
  }

  /** The update schema is the create schema with every key made optional:
      whatever `create` accepts, `update` accepts with the same data. */
  lemma CreateBodiesAreUpdateBodies(body: Body)
    requires ValidateCreate(body).Ok?
    ensures ValidateUpdate(body) == ValidateCreate(body)
  {
  }

  /** A schema violation is a ZodError, not an `AppError`, so the error
      middleware answers it with 500 INTERNAL_ERROR rather than a 400. */
  lemma RejectedBodiesAreInternal(body: Body, nodeEnv: Option<string>)
    requires ValidateCreate(body).Err?
    ensures HandleError(ValidateCreate(body).failure, nodeEnv).status == 500
    ensures HandleError(ValidateCreate(body).failure, nodeEnv).body.error.code == Some(INTERNAL_CODE)
  {
  }

  /** An update that leaves out both keys passes validation, and the
      repository then writes NULL into both columns: the row's display
      name becomes "null - null". */
  lemma EmptyUpdateClearsBothColumns(rows: seq<Row>, id: string, now: nat)
    requires Lookup(rows, id).Some?
    ensures ValidateUpdate(Object(Undefined, Undefined)) == Ok(Fields(None, None))
    ensures var after := Lookup(Rewritten(rows, id, Fields(None, None), now), id);
      after.Some? && after.value.column1 == None && after.value.column2 == None
      && DisplayName(after.value) == "null - null"
  {
    LookupAfterRewrite(rows, id, Fields(None, None), now);
  }

  /** `if (!record) throw new Error('Record not found')`. */
  function Found(record: Option<Row>): (r: Result<Row>)
    ensures r.Ok? <==> record.Some?
    ensures r.Ok? ==> r.value == record.value
    ensures r.Err? ==> r.failure == PlainError(NOT_FOUND)
  {
    if record.Some? then Ok(record.value) else Err(PlainError(NOT_FOUND))
  }

  // ---------------------------------------------------------------- the service

  class ExampleService {
    const repo: ExampleRepository

    ghost predicate Valid()
      reads this, repo
    {
      repo.Valid()
    }

    constructor (repo: ExampleRepository)
      requires repo.Valid()
      ensures Valid() && this.repo == repo
    {
      this.repo := repo;
    }

    /** `getAll(page, limit)`: clamps the pagination, fetches that page and
        adds `displayName` to every row. `total` is the size of the page
        fetched, not of the table. */
    method GetAll(page: int, limit: int, link: Link) returns (r: Result<Listing>)
      requires Valid()
      modifies repo.pool
      ensures Valid()
      ensures repo.pool.leased == old(repo.pool.leased)
      ensures repo.pool.log == old(repo.pool.log) + Leases(Grants(link, old(repo.pool.leased)))
      ensures !Succeeds(link, old(repo.pool.leased)) ==> r == Err(Trouble(link, old(repo.pool.leased)))
      ensures Succeeds(link, old(repo.pool.leased)) ==>
        var p, l := ClampPage(page), ClampLimit(limit);
        var found := Page(repo.rows, l, Offset(p, l));
        r == Ok(Listing(EnrichAll(found), Pagination(p, l, |found|)))
    {
      var p, l := page, limit;
      if p < 1 {
        p := DEFAULT_PAGE;
      }
      if l < 1 || l > MAX_LIMIT {
        l := DEFAULT_LIMIT;
      }
      var offset := (p - 1) * l;
      assert offset == Offset(p, l);
      var records := repo.FindAll(l, offset, link);
      if records.Err? {
        return Err(records.failure);
      }
      var data := EnrichAll(records.value);
      r := Ok(Listing(data, Pagination(p, l, |records.value|)));
    }

    /** `getById(id)`: the id guard, then the row or "Record not found". */
    method GetById(id: Value, link: Link) returns (r: Result<Row>)
      requires Valid()
      modifies repo.pool
      ensures Valid()
      ensures repo.pool.leased == old(repo.pool.leased)
      ensures r.Err? ==> !r.failure.AppError?
      ensures CheckId(id).Err? ==> r == Err(PlainError(INVALID_ID)) && repo.pool.log == old(repo.pool.log)
      ensures CheckId(id).Ok? ==> repo.pool.log == old(repo.pool.log) + Leases(Grants(link, old(repo.pool.leased)))
      ensures CheckId(id).Ok? && !Succeeds(link, old(repo.pool.leased)) ==> r == Err(Trouble(link, old(repo.pool.leased)))
      ensures CheckId(id).Ok? && Succeeds(link, old(repo.pool.leased)) ==> r == Found(Lookup(repo.rows, id.s))
    {
      var key := CheckId(id);
      if key.Err? {
        return Err(key.failure);
      }
      var record := repo.FindById(key.value, link);
      if record.Err? {
        return Err(record.failure);
      }
      r := Found(record.value);
    }

    /** `create(data)`: the create schema, then the insert. */
    method Create(body: Body, link: Link) returns (r: Result<Row>)
      requires Valid()
      modifies repo`rows, repo`nextId, repo`clock, repo.pool
      ensures Valid()
      ensures repo.pool.leased == old(repo.pool.leased)
      ensures r.Err? ==> !r.failure.AppError?
      ensures ValidateCreate(body).Err? ==>
        && r == Err(ValidateCreate(body).failure)
        && repo.pool.log == old(repo.pool.log)
        && repo.rows == old(repo.rows) && repo.nextId == old(repo.nextId) && repo.clock == old(repo.clock)
      ensures ValidateCreate(body).Ok? ==>
        repo.pool.log == old(repo.pool.log) + Leases(Grants(link, old(repo.pool.leased)))
      ensures ValidateCreate(body).Ok? && !Succeeds(link, old(repo.pool.leased)) ==>
        && r == Err(Trouble(link, old(repo.pool.leased)))
        && repo.rows == old(repo.rows) && repo.nextId == old(repo.nextId) && repo.clock == old(repo.clock)
      ensures ValidateCreate(body).Ok? && Succeeds(link, old(repo.pool.leased)) ==>
        && r == Ok(Row(Decimal(old(repo.nextId)), Some(body.column1.s), Some(body.column2.s), old(repo.clock), None))
        && repo.rows == old(repo.rows) + [r.value]
        && repo.nextId == old(repo.nextId) + 1 && repo.clock == old(repo.clock) + 1
    {
      var data := ValidateCreate(body);
      if data.Err? {
        return Err(data.failure);
      }
      r := repo.Create(data.value, link);
    }

    /** `update(id, data)`: the id guard, the update schema, the existence
        check, then the repository update, which writes both columns. */
    method Update(id: Value, body: Body, lookup: Link, write: Link) returns (r: Result<Option<Row>>)
      requires Valid()
      modifies repo`rows, repo`clock, repo.pool
      ensures Valid()
      ensures repo.pool.leased == old(repo.pool.leased)
      ensures r.Err? ==> !r.failure.AppError?
      ensures CheckId(id).Err? ==>
        && r == Err(PlainError(INVALID_ID))
        && repo.pool.log == old(repo.pool.log) && repo.rows == old(repo.rows) && repo.clock == old(repo.clock)
      ensures CheckId(id).Ok? && ValidateUpdate(body).Err? ==>
        && r == Err(ValidateUpdate(body).failure)
        && repo.pool.log == old(repo.pool.log) && repo.rows == old(repo.rows) && repo.clock == old(repo.clock)
      ensures CheckId(id).Ok? && ValidateUpdate(body).Ok? && !Succeeds(lookup, old(repo.pool.leased)) ==>
        && r == Err(Trouble(lookup, old(repo.pool.leased)))
        && repo.pool.log == old(repo.pool.log) + Leases(Grants(lookup, old(repo.pool.leased)))
        && repo.rows == old(repo.rows) && repo.clock == old(repo.clock)
      ensures CheckId(id).Ok? && ValidateUpdate(body).Ok? && Succeeds(lookup, old(repo.pool.leased))
              && Lookup(old(repo.rows), id.s).None? ==>
        && r == Err(PlainError(NOT_FOUND))
        && repo.pool.log == old(repo.pool.log) + Leases(true)
        && repo.rows == old(repo.rows) && repo.clock == old(repo.clock)
      ensures CheckId(id).Ok? && ValidateUpdate(body).Ok? && Succeeds(lookup, old(repo.pool.leased))
              && Lookup(old(repo.rows), id.s).Some? ==>
        repo.pool.log == old(repo.pool.log) + Leases(true) + Leases(Grants(write, old(repo.pool.leased)))
      ensures CheckId(id).Ok? && ValidateUpdate(body).Ok? && Succeeds(lookup, old(repo.pool.leased))
              && Lookup(old(repo.rows), id.s).Some? && !Succeeds(write, old(repo.pool.leased)) ==>
        r == Err(Trouble(write, old(repo.pool.leased))) && repo.rows == old(repo.rows) && repo.clock == old(repo.clock)
      ensures CheckId(id).Ok? && ValidateUpdate(body).Ok? && Succeeds(lookup, old(repo.pool.leased))
              && Lookup(old(repo.rows), id.s).Some? && Succeeds(write, old(repo.pool.leased)) ==>
        && repo.rows == Rewritten(old(repo.rows), id.s, ValidateUpdate(body).value, old(repo.clock))
        && r == Ok(Some(Row(id.s, Given(body.column1), Given(body.column2),
                            Lookup(old(repo.rows), id.s).value.createdAt, Some(old(repo.clock)))))
        && repo.clock == old(repo.clock) + 1
    {
      var key := CheckId(id);
      if key.Err? {
        return Err(key.failure);
      }
      var data := ValidateUpdate(body);
      if data.Err? {
        return Err(data.failure);
      }
      var existing := repo.FindById(key.value, lookup);
      if existing.Err? {
        return Err(existing.failure);
      }
      if existing.value.None? {
        return Err(PlainError(NOT_FOUND));
      }
      LookupAfterRewrite(repo.rows, key.value, data.value, repo.clock);
      r := repo.Update(key.value, data.value, write);
    }

    /** `delete(id)`: the id guard, the existence check, then the delete. */
    method Delete(id: Value, lookup: Link, write: Link) returns (r: Result<Option<Row>>)
      requires Valid()
      modifies repo`rows, repo.pool
      ensures Valid()
      ensures repo.pool.leased == old(repo.pool.leased)
      ensures r.Err? ==> !r.failure.AppError?
      ensures CheckId(id).Err? ==>
        && r == Err(PlainError(INVALID_ID))
        && repo.pool.log == old(repo.pool.log) && repo.rows == old(repo.rows)
      ensures CheckId(id).Ok? && !Succeeds(lookup, old(repo.pool.leased)) ==>
        && r == Err(Trouble(lookup, old(repo.pool.leased)))
        && repo.pool.log == old(repo.pool.log) + Leases(Grants(lookup, old(repo.pool.leased)))
        && repo.rows == old(repo.rows)
      ensures CheckId(id).Ok? && Succeeds(lookup, old(repo.pool.leased)) && Lookup(old(repo.rows), id.s).None? ==>
        && r == Err(PlainError(NOT_FOUND))
        && repo.pool.log == old(repo.pool.log) + Leases(true)
        && repo.rows == old(repo.rows)
      ensures CheckId(id).Ok? && Succeeds(lookup, old(repo.pool.leased)) && Lookup(old(repo.rows), id.s).Some? ==>
        repo.pool.log == old(repo.pool.log) + Leases(true) + Leases(Grants(write, old(repo.pool.leased)))
      ensures CheckId(id).Ok? && Succeeds(lookup, old(repo.pool.leased)) && Lookup(old(repo.rows), id.s).Some?
              && !Succeeds(write, old(repo.pool.leased)) ==>
        r == Err(Trouble(write, old(repo.pool.leased))) && repo.rows == old(repo.rows)
      ensures CheckId(id).Ok? && Succeeds(lookup, old(repo.pool.leased)) && Lookup(old(repo.rows), id.s).Some?
              && Succeeds(write, old(repo.pool.leased)) ==>
        r == Ok(Lookup(old(repo.rows), id.s)) && repo.rows == Removed(old(repo.rows), id.s)
    {
      var key := CheckId(id);
      if key.Err? {
        return Err(key.failure);
      }
      var existing := repo.FindById(key.value, lookup);
      if existing.Err? {
        return Err(existing.failure);
      }
      if existing.value.None? {
        return Err(PlainError(NOT_FOUND));
      }
      r := repo.Delete(key.value, write);
    }

    /** Creating a record and reading it back by the id it was given
        returns the same record, carrying the submitted columns. */
    method CreateThenGet(body: Body) returns (created: Result<Row>, fetched: Result<Row>)
      requires Valid() && repo.pool.leased < MAX_CLIENTS
      modifies repo`rows, repo`nextId, repo`clock, repo.pool
      ensures Valid()
      ensures created.Ok? <==> ValidateCreate(body).Ok?
      ensures created.Ok? ==>
        && fetched == created
        && created.value.column1 == Some(body.column1.s)
        && created.value.column2 == Some(body.column2.s)
    {
      created := Create(body, Healthy);
      if created.Err? {
        fetched := created;
        return;
      }
      forall i | 0 <= i < |old(repo.rows)|
        ensures old(repo.rows)[i].id != created.value.id
      {
        assert Unissued(old(repo.rows)[i].id, old(repo.nextId));
      }
      LookupAfterInsert(old(repo.rows), created.value);
      fetched := GetById(Str(created.value.id), Healthy);
    }
  }
}
