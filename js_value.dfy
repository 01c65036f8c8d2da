/**
 * The JavaScript values a parsed JSON request body can hold, plus `undefined` (what reading
 * a missing property gives), with JavaScript truthiness and property access.
 * Numbers are integers here: fractional and non-finite numbers are not modelled.
 */
module JsValue {

  datatype Value =
    | Undefined
    | Null
    | Bool(b: bool)
    | Num(n: int)
    | Str(s: string)
    | Arr(items: seq<Value>)
    | Obj(props: map<string, Value>)

  /** `!!v`: false exactly for `undefined`, `null`, `false`, `0` and `''`. */
  predicate Truthy(v: Value)
    ensures !Truthy(v) <==> v in {Undefined, Null, Bool(false), Num(0), Str("")}
  {
    match v
    case Undefined => false
    case Null => false
    case Bool(b) => b
    case Num(n) => n != 0
    case Str(s) => s != ""
    case Arr(_) => true
    case Obj(_) => true
  }

  /** `v.name` for the property names this system reads: only objects carry them. */
  function Prop(v: Value, name: string): (r: Value)
    ensures r != Undefined ==> v.Obj? && name in v.props
    ensures v.Obj? && name in v.props ==> r == v.props[name]
  {
    if v.Obj? && name in v.props then v.props[name] else Undefined
  }
}
