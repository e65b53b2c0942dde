/** JSON values as they arrive in a parsed request body, and JavaScript's
    notion of truthiness on them. The store keeps whatever value the client
    sent for `title`, `url` and `techs`; the only test ever applied to those
    values is whether they are truthy. */
module JsonValues {

  /** A body field: `None` when the field is absent (`undefined`). */
  datatype Option<+T> = None | Some(value: T)

  /** The values a JSON parser can produce. */
  datatype Value =
    | Null
    | Bool(b: bool)
    | Num(n: real)
    | Str(s: string)
    | Arr(items: seq<Value>)
    | Obj(members: seq<(string, Value)>)

  /** The values JavaScript treats as false in a condition. */
  const Falsy: set<Value> := {Null, Bool(false), Num(0.0), Str("")}

  /** JavaScript truthiness: `null`, `false`, `0` and `""` are falsy; every
      array and every object is truthy, including `[]` and `{}`. */
  function Truthy(v: Value): (truthy: bool)
    ensures truthy <==> v !in Falsy
  {
    match v
    case Null => false
    case Bool(b) => b
    case Num(n) => n != 0.0
    case Str(s) => s != ""
    case Arr(_) => true
    case Obj(_) => true
  }

  /** A body field counts as supplied when it is present and truthy; an
      absent field is `undefined`, which is falsy. */
  function Supplied(field: Option<Value>): (supplied: bool)
    ensures supplied <==> field.Some? && field.value !in Falsy
  {
    field.Some? && Truthy(field.value)
  }
}
