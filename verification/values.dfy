/** Configuration and cache values as the Python code sees them after YAML or
    JSON decoding: `None`, booleans, integers, strings, lists and dicts.
    Floats are not modelled. */
module Values {
  import opened Wrappers
  import opened Text

  datatype Value =
    | VNull
    | VBool(b: bool)
    | VInt(i: int)
    | VStr(s: string)
    | VList(items: seq<Value>)
    | VObj(fields: map<string, Value>)

  type Dict = map<string, Value>

  /** Python truthiness (`if v:`). */
  predicate Truthy(v: Value) {
    match v
    case VNull => false
    case VBool(b) => b
    case VInt(i) => i != 0
    case VStr(s) => |s| > 0
    case VList(items) => |items| > 0
    case VObj(fields) => |fields| > 0
  }

  /** `d.get(key, default)`. */
  function Get(d: Dict, key: string, default: Value): (v: Value)
    ensures key in d ==> v == d[key]
    ensures key !in d ==> v == default
  {
    if key in d then d[key] else default
  }

  /** `d.get(key)`: a missing key reads as `None`. */
  function GetOpt(d: Dict, key: string): (v: Value)
    ensures key in d ==> v == d[key]
    ensures key !in d ==> v == VNull
  {
    Get(d, key, VNull)
  }

  /** `int(v)`: integers are kept, booleans become 0 or 1, strings are parsed
      (ValueError when they are not a decimal integer), and `None`, lists and
      dicts raise TypeError. */
  function IntOf(v: Value): (r: Outcome<int>)
    ensures v.VInt? ==> r == Ok(v.i)
    ensures v.VBool? ==> r == Ok(if v.b then 1 else 0)
    ensures v.VStr? ==> (r.Ok? <==> ParseInt(v.s).Some?)
    ensures (v.VNull? || v.VList? || v.VObj?) ==> r == Raised(TypeError)
  {
    match v
    case VInt(i) => Ok(i)
    case VBool(b) => Ok(if b then 1 else 0)
    case VStr(s) =>
      (match ParseInt(s)
       case Some(i) => Ok(i)
       case None => Raised(ValueError))
    case _ => Raised(TypeError)
  }

  /** `str(v)` for scalar values. The `repr` of a list or dict always starts
      with a bracket; it is not modelled and reads as None. */
  function StrOf(v: Value): (r: Option<string>)
    ensures v.VStr? ==> r == Some(v.s)
    ensures (v.VList? || v.VObj?) <==> r.None?
  {
    match v
    case VNull => Some("None")
    case VBool(b) => Some(if b then "True" else "False")
    case VInt(i) => Some(IntToString(i))
    case VStr(s) => Some(s)
    case _ => None
  }

  /** `for entry in (v or []): entry.get(...)`: a list gives its items, a
      falsy value nothing. A truthy string or dict iterates over strings,
      which have no `.get` (AttributeError); any other truthy value is not
      iterable (TypeError). A list item that is not a dict raises
      AttributeError when the loop reaches it. */
  function Entries(v: Value): (r: Outcome<seq<Value>>)
    ensures !Truthy(v) ==> r == Ok([])
    ensures v.VList? ==> r == Ok(v.items)
    ensures r.Raised? <==> Truthy(v) && !v.VList?
  {
    if !Truthy(v) then Ok([])
    else match v
      case VList(items) => Ok(items)
      case VStr(_) => Raised(AttributeError)
      case VObj(_) => Raised(AttributeError)
      case _ => Raised(TypeError)
  }

  /** `int(str(i)) == i` through the `Value` layer. */
  lemma {:induction false} IntOfRendered(i: int)
    ensures IntOf(VStr(IntToString(i))) == Ok(i)
  {
    ParseIntOfIntToString(i);
  }
}
