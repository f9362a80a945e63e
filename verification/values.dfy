/**
 The PHP values the container stores and passes around: constructor
 arguments, parameter values, property values and service instances.
 */
module Values {

  /**
   Identity of an object. `Self` is the container itself, `Built(n)` is the
   object the container instantiated when its handle counter stood at `n`,
   `Foreign(n)` is an object made by application code and handed to the
   container with `set`.
   */
  datatype Handle = Self | Built(n: nat) | Foreign(n: nat)

  datatype Value =
    | Null
    | Bool(truth: bool)
    | Int(num: int)
    | Str(text: string)
    | Arr(items: seq<Value>)
    | Obj(handle: Handle)

  /** PHP's `(boolean)` cast. */
  function Truthy(v: Value): (b: bool)
    ensures v.Bool? ==> b == v.truth
    ensures !b <==> v.Null? || v == Bool(false) || v == Int(0) || v == Str("") || v == Str("0") || v == Arr([])
  {
    match v
    case Null => false
    case Bool(t) => t
    case Int(n) => n != 0
    case Str(s) => s != "" && s != "0"
    case Arr(xs) => xs != []
    case Obj(_) => true
  }
}
