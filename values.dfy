/** JSON request values as the Express body parser delivers them, JavaScript
    truthiness over them, and the shapes of route replies. */
module Values {

  datatype Option<+T> = None | Some(value: T)

  /** A parsed JSON value.  `Undefined` stands for a property that is absent
      from the body.  JSON cannot carry NaN or the infinities, so every number
      here is finite. */
  datatype Json =
    | Undefined
    | Null
    | Bool(b: bool)
    | Num(n: real)
    | Str(s: string)
    | Arr(elems: seq<Json>)
    | Obj(fields: map<string, Json>)

  /** JavaScript's `!v`: undefined, null, false, 0 and "" are falsy. */
  predicate IsFalsy(v: Json) {
    match v
    case Undefined => true
    case Null => true
    case Bool(b) => !b
    case Num(n) => n == 0.0
    case Str(s) => s == ""
    case Arr(_) => false
    case Obj(_) => false
  }

  /** Property read `v.key`.  Of the keys the server reads (id, quantity,
      price) only objects can carry one; on any other value it is undefined. */
  function Get(v: Json, key: string): Json {
    if v.Obj? && key in v.fields then v.fields[key] else Undefined
  }

  /** `typeof v === 'number'`. */
  predicate IsNumber(v: Json) { v.Num? }

  /** The result of JavaScript's `Number(param)` on a route's path parameter,
      which is what `isNaN(param)` tests. */
  datatype PathNumber = NaN | Number(value: real)

  /** An HTTP reply: a 200 with its payload, or an error status with the
      `error` text of its JSON body. */
  datatype Reply<+T> = Success(value: T) | Failure(status: nat, error: string)
}
