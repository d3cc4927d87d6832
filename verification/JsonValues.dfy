/** JSON values as data: an object is a finite map, so key order does not exist. */
module JsonValues {
  datatype Json =
    | Null
    | Bool(b: bool)
    | Num(n: int)
    | Str(s: string)
    | Arr(items: seq<Json>)
    | Obj(members: map<string, Json>)

  /** JavaScript truthiness of a JSON value. */
  function Truthy(v: Json): (r: bool)
    ensures !r <==> v == Null || v == Bool(false) || v == Num(0) || v == Str("")
  {
    match v
    case Null => false
    case Bool(b) => b
    case Num(n) => n != 0
    case Str(s) => s != ""
    case Arr(_) => true
    case Obj(_) => true
  }
}
