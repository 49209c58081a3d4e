/** JavaScript values as the core sees them once JSON or YAML text has been parsed,
    and the few JavaScript rules (truthiness, `typeof`, object spread) the core
    relies on. Numbers are modelled as integers. */
module Json {

  datatype Option<+T> = None | Some(value: T) {
    function GetOr(default: T): T {
      match this
      case Some(v) => v
      case None => default
    }
  }

  /** A parsed value. `Null` also stands for `undefined`. */
  datatype Value =
    | Null
    | Bool(b: bool)
    | Num(n: int)
    | Str(s: string)
    | List(items: seq<Value>)
    | Obj(fields: map<string, Value>)

  /** JavaScript truthiness: `null`, `false`, `0` and `""` are falsy, every
      array and object is truthy. */
  predicate Truthy(v: Value) {
    match v
    case Null => false
    case Bool(b) => b
    case Num(n) => n != 0
    case Str(s) => s != ""
    case List(_) => true
    case Obj(_) => true
  }

  /** The result of JavaScript's `typeof` on a value. */
  function TypeOf(v: Value): string {
    match v
    case Null => "object"
    case Bool(_) => "boolean"
    case Num(_) => "number"
    case Str(_) => "string"
    case List(_) => "object"
    case Obj(_) => "object"
  }

  /** `{ ...v }`: the own enumerable properties of `v` copied into a fresh object.
      Only mappings contribute keys here (see README, "Left out"). */
  function Spread(v: Value): map<string, Value> {
    if v.Obj? then v.fields else map[]
  }
}
