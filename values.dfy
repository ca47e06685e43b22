/** JavaScript values as the lifecycle engine sees them: in the modelled operations
    only strict equality (`===` / `!==`) is applied to them, so a datatype with `==` suffices. */
module Values {

  /** A JavaScript value. `Undefined` and `Null` are distinct: `null` passed to an
      update means "reset to the default", and an `undefined` default is not announced.
      Objects, arrays and functions are compared by identity, here a reference number. */
  datatype Value =
    | Undefined
    | Null
    | Bool(b: bool)
    | Num(n: int)
    | Str(s: string)
    | Obj(ref: nat)

  /** A configured default: either the value itself, or a function whose call
      yields the value. */
  datatype Initializer = Literal(value: Value) | Thunk(result: Value)

  /** The default a configured initializer gives: a literal is used as it is; a
      function is called and its result used. */
  function Resolve(init: Initializer): Value
  {
    match init
    case Literal(v) => v
    case Thunk(v) => v
  }

  /** An opaque handle for the virtual node a render method produced. */
  datatype VNode = VNode(id: nat)
}
