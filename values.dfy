/**
 * The values the recommendation service works on: request values (the JSON
 * criteria bag), table cells, rows and tables, and the errors Python raises
 * while the request is handled.
 */
module Values {

  datatype Option<+T> = None | Some(value: T)

  datatype Result<+T, +E> = Ok(value: T) | Err(error: E) {
    predicate IsFailure() { Err? }
    function PropagateFailure<U>(): Result<U, E> requires Err? { Err(error) }
    function Extract(): T requires Ok? { value }
  }

  /** A value of the request's `criteria` mapping, as decoded from JSON. */
  datatype Json =
    | JNull
    | JBool(b: bool)
    | JNum(n: real)
    | JStr(s: string)
    | JList(items: seq<Json>)

  /** The criteria bag: filter-field name to value. */
  type Criteria = map<string, Json>

  /** A table cell: a number, a string, or pandas' missing value (NaN). */
  datatype Cell = Num(n: real) | Text(s: string) | Missing

  /** One row of a table, keyed by column name. */
  type Row = map<string, Cell>

  /** A data frame: its column labels in order and its rows. */
  datatype Table = Table(columns: seq<string>, rows: seq<Row>)

  /**
   * The exceptions the handler can raise. All of them reach the caller the
   * same way: the blanket `except` around the endpoint turns each one,
   * including the explicit 400 for an unknown category, into an HTTP 500
   * carrying the exception's text.
   */
  datatype Error =
    | MissingColumn(column: string)           // KeyError: df[column] with no such column
    | UnknownLabel(field: string, given: Json) // KeyError: bucket dictionary lookup
    | Unhashable(field: string)               // TypeError: a list used as a dictionary key
    | NoLower(field: string)                  // AttributeError: .lower() on a non-string
    | NotSubscriptable                        // TypeError: price_range[0] on a non-sequence
    | PriceIndex(index: nat)                  // IndexError: price_range too short
    | BadInt(value: Json)                     // ValueError / TypeError raised by int()
    | BadComparison(column: string)           // TypeError: a string compared with a number
    | LengthMismatch(column: string)          // ValueError: a column compared with a list
    | BadPattern(column: string)              // TypeError: str.contains with a non-string
    | NotIterable                             // TypeError: iterating a non-iterable purposes
    | NotRoundable                            // TypeError: round() of a string score
    | InvalidCategory                         // HTTPException(400), rewrapped as a 500

  /** `row[col]`, reading an absent entry as NaN. */
  function Get(row: Row, col: string): Cell {
    if col in row then row[col] else Missing
  }

  /** Python's truth value of a JSON value. */
  predicate Truthy(j: Json) {
    match j
    case JNull => false
    case JBool(b) => b
    case JNum(n) => n != 0.0
    case JStr(s) => s != ""
    case JList(xs) => xs != []
  }

  /** `criteria.get(key)`: absent keys read as None. */
  function Lookup(criteria: Criteria, key: string): Json {
    if key in criteria then criteria[key] else JNull
  }
}
