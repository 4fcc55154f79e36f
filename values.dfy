/**
 * The Python values that flow through the uploader: what the MySQL driver
 * returns in a row, what a validated record holds and what is sent as JSON.
 */
module Values {
  import opened Dates

  /**
   * A Python value as far as the uploader distinguishes them. `VDate` is a
   * `datetime.date`, `VDateTime` a `datetime.datetime` (date plus seconds
   * into the day), `VDecimal` a `decimal.Decimal`. `VOpaque` is any other
   * value the driver returns and the uploader passes through untouched: a
   * `datetime.timedelta` for a TIME column, `bytes` for BLOB, BINARY and
   * VARBINARY, a `set` for SET; of such a value only its truthiness matters.
   * Floats are taken as exact reals.
   */
  datatype Value =
    | VNone
    | VBool(b: bool)
    | VInt(i: int)
    | VFloat(f: real)
    | VStr(s: string)
    | VDate(date: Date)
    | VDateTime(date: Date, seconds: nat)
    | VDecimal(x: real)
    | VOpaque(truthy: bool)

  /** A record or a database row: a dict from column or API field name to value. */
  type Record = map<string, Value>

  /** Python truthiness, `bool(v)`. */
  predicate Truthy(v: Value) {
    match v
    case VNone => false
    case VBool(b) => b
    case VInt(i) => i != 0
    case VFloat(f) => f != 0.0
    case VStr(s) => s != ""
    case VDate(_) => true
    case VDateTime(_, _) => true
    case VDecimal(x) => x != 0.0
    case VOpaque(t) => t
  }

  /** `isinstance(v, int)`: a bool is an int in Python. */
  predicate IsPyInt(v: Value) {
    v.VInt? || v.VBool?
  }

  /** The integer value of an int or bool (True == 1). */
  function IntValue(v: Value): int
    requires IsPyInt(v)
  {
    if v.VInt? then v.i else if v.b then 1 else 0
  }

  /** `isinstance(v, (int, float))` */
  predicate IsPyNumber(v: Value) {
    v.VInt? || v.VBool? || v.VFloat?
  }

  function NumberValue(v: Value): real
    requires IsPyNumber(v)
  {
    if v.VFloat? then v.f else IntValue(v) as real
  }

  /** What Python's types guarantee: dates are calendar dates and a time of day is under 24 hours. */
  predicate WellFormed(v: Value) {
    match v
    case VDate(d) => ValidDate(d)
    case VDateTime(d, t) => ValidDate(d) && t < 86400
    case _ => true
  }

  predicate WellFormedRecord(r: Record) {
    forall k :: k in r ==> WellFormed(r[k])
  }
}
