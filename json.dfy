/**
 The JSON scalars that the restore script reads out of its documents and hands
 to the database driver as query parameters. A property that is missing from a
 document reads as `undefined` in JavaScript, which the driver sends as SQL
 NULL, so both are `Null` here. Numbers are kept as reals.
 */
module Json {

  datatype Val = Null | Bool(b: bool) | Num(n: real) | Str(s: string)

  /** JavaScript truthiness: null/undefined, false, 0 and "" are falsy. */
  predicate Truthy(v: Val)
  {
    match v
    case Null => false
    case Bool(b) => b
    case Num(n) => n != 0.0
    case Str(s) => s != ""
  }

  /** The expression `v || 0`: a falsy value is replaced by the number 0. */
  function OrZero(v: Val): (r: Val)
    ensures Truthy(v) ==> r == v
    ensures !Truthy(v) ==> r == Num(0.0)
    ensures r == Num(0.0) <==> !Truthy(v)
  {
    if Truthy(v) then v else Num(0.0)
  }

}
