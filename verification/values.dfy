/**
 The dynamically typed values a document holds: what pymongo hands back and what
 a schema's `default` may contain.
 */
module Values {

  datatype Value =
    | Null
    | Bool(b: bool)
    | Int(i: int)
    | Float(f: real)
    | Str(s: string)
    /** A BSON object identifier; only its identity matters here. */
    | ObjectId(hex: string)
    /** A `datetime`; only its identity matters here. */
    | Date(ticks: int)
    | List(items: seq<Value>)
    | Dict(entries: map<string, Value>)

  /** The Python classes that the type table of model.py names. */
  datatype PyClass = IntClass | BoolClass | FloatClass | StrClass | ObjectIdClass | DateClass

  /** `isinstance(v, c)`. In Python `bool` is a subclass of `int`, so booleans are ints. */
  predicate IsInstance(v: Value, c: PyClass) {
    match c
    case IntClass => v.Int? || v.Bool?
    case BoolClass => v.Bool?
    case FloatClass => v.Float?
    case StrClass => v.Str?
    case ObjectIdClass => v.ObjectId?
    case DateClass => v.Date?
  }

  /** Python's `int(x)` on a float: drop the fractional part, rounding toward zero. */
  function TruncateTowardZero(x: real): (n: int)
    ensures 0.0 <= x ==> 0 <= n && n as real <= x < n as real + 1.0
    ensures x < 0.0 ==> n <= 0 && n as real - 1.0 < x <= n as real
  {
    if x >= 0.0 then x.Floor else -((-x).Floor)
  }

  /** Python truthiness: `None`, `False`, zero and empty containers are false. */
  predicate Truthy(v: Value) {
    match v
    case Null => false
    case Bool(b) => b
    case Int(i) => i != 0
    case Float(f) => f != 0.0
    case Str(s) => |s| > 0
    case ObjectId(_) => true
    case Date(_) => true
    case List(xs) => |xs| > 0
    case Dict(m) => |m| > 0
  }
}
