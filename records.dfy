/** Values shared by the three layers of the example backend: nullable
    columns, rows of the example table, the JavaScript values the service
    inspects, and the errors the layers throw. */
module Records {

  datatype Option<T> = None | Some(value: T)

  /** An operation either returns `Ok(value)` or throws `failure`. */
  datatype Result<T> = Ok(value: T) | Err(failure: Failure)

  /** A row of `your_table`. The two example columns are nullable text;
      `createdAt` and `updatedAt` are readings of the database clock. */
  datatype Row = Row(
    id: string,
    column1: Option<string>,
    column2: Option<string>,
    createdAt: nat,
    updatedAt: Option<nat>)

  /** The two example columns as the repository receives them; `None`
      stands for a JavaScript `undefined`, which the driver sends as NULL. */
  datatype Fields = Fields(column1: Option<string>, column2: Option<string>)

  /** What the service's checks can tell apart about one JavaScript value:
      `undefined`, a string, or anything else (null, a number, an object ...). */
  datatype Value = Undefined | Str(s: string) | Other

  /** A request body: a JSON object seen through its two example keys, or
      something that is not an object at all. */
  datatype Body = Object(column1: Value, column2: Value) | NotObject

  /** One problem reported by a schema check, at a key of the body
      (`path` is "" for the body itself). */
  datatype IssueKind = Required | NotAString | NotAnObject | TooSmall(minimum: nat) | TooBig(maximum: nat)
  datatype Issue = Issue(path: string, kind: IssueKind)

  /** Everything that can be thrown towards the error middleware. */
  datatype Failure =
    | AppError(statusCode: int, message: string, code: Option<string>)  // the middleware's own error class
    | PlainError(message: string)                                       // `new Error(...)` in the service
    | ZodError(issues: seq<Issue>)                                      // a failed schema parse
    | DatabaseError(message: string)                                    // anything the driver or the pool throws

  /** The `message` property of a thrown error. */
  function Message(f: Failure): string
  {
    match f
    case AppError(_, m, _) => m
    case PlainError(m) => m
    case ZodError(issues) => IssuesText(issues)
    case DatabaseError(m) => m
  }

  function IssuesText(issues: seq<Issue>): string
  {
    if issues == [] then ""
    else issues[0].path + ": " + KindText(issues[0].kind) + "\n" + IssuesText(issues[1..])
  }

  function KindText(k: IssueKind): string
  {
    match k
    case Required => "Required"
    case NotAString => "Expected string"
    case NotAnObject => "Expected object"
    case TooSmall(n) => "String must contain at least " + Decimal(n) + " character(s)"
    case TooBig(n) => "String must contain at most " + Decimal(n) + " character(s)"
  }

  function Digit(d: nat): (c: char)
    requires d < 10
    ensures '0' <= c <= '9'
  {
    ('0' as int + d) as char
  }

  /** The decimal digits of `n`, most significant first: the text form of
      a serial id (and of the numbers in issue messages). */
  function Decimal(n: nat): (r: string)
    ensures 1 <= |r|
    ensures n >= 10 <==> |r| >= 2
    ensures forall i :: 0 <= i < |r| ==> '0' <= r[i] <= '9'
  {
    if n < 10 then [Digit(n)] else Decimal(n / 10) + [Digit(n % 10)]
  }

  /** Distinct serials have distinct text forms, so an id handed out once
      is never handed out again. */
  lemma {:induction false} DecimalInjective(a: nat, b: nat)
    requires Decimal(a) == Decimal(b)
    ensures a == b
  {
    if a >= 10 && b >= 10 {
      var da, db := Decimal(a), Decimal(b);
      assert da == Decimal(a / 10) + [Digit(a % 10)];
      assert db == Decimal(b / 10) + [Digit(b % 10)];
      assert da[..|da| - 1] == Decimal(a / 10);
      assert db[..|db| - 1] == Decimal(b / 10);
      assert Digit(a % 10) == da[|da| - 1] == db[|db| - 1] == Digit(b % 10);
      DecimalInjective(a / 10, b / 10);
    } else {
      assert Decimal(a)[0] == Decimal(b)[0];
    }
  }
}
