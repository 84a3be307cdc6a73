/** JSON values as the BLEST request handler sees them once the body is parsed,
    together with the pieces of Python object semantics the engine relies on:
    truthiness (`if x:` / `not x`), the `in` operator, subscription `x[k]`, and
    the built-in exceptions those raise. */
module Json {

  datatype Option<+T> = None | Some(value: T)

  datatype Result<+T, +E> = Ok(value: T) | Err(error: E)

  /** A dictionary key. Parsed JSON objects only have `Name` keys. An `Index`
      key appears when a selector pair indexes a list by position and the
      projection stores that position as a key; Python treats `True`, `1` and
      `1.0` as the same key, and so does `Index(1)`. */
  datatype Key = Name(name: string) | Index(index: int)

  datatype Value =
    | Null
    | Bool(b: bool)
    | Int(i: int)
    | Float(r: real)
    | Str(s: string)
    | Arr(items: seq<Value>)
    | Obj(fields: map<Key, Value>)

  /** A Python exception. `Raised(m)` is `Exception(m)`, whose `str()` is `m`;
      the other kinds are the built-in errors that `in` and `[]` raise, whose
      exact text is not modelled. */
  datatype Error =
    | Raised(message: string)
    | KeyError
    | TypeError
    | IndexError
    | UnboundLocalError

  /** Python truthiness: `None`, `False`, zero, and empty strings, lists and
      dicts are falsy. */
  predicate Truthy(v: Value) {
    match v
    case Null => false
    case Bool(b) => b
    case Int(i) => i != 0
    case Float(r) => r != 0.0
    case Str(s) => s != ""
    case Arr(xs) => xs != []
    case Obj(m) => m != map[]
  }

  /** Python's `needle in haystack` for two strings. */
  predicate IsSubstring(needle: string, haystack: string) {
    needle <= haystack || (|haystack| > 0 && IsSubstring(needle, haystack[1..]))
  }

  /** Python's `key in container` for a string `key`: a dict tests its keys, a
      list its elements, a string its substrings; anything else raises. */
  function Contains(container: Value, key: string): (r: Result<bool, Error>)
    ensures r.Err? <==> !(container.Obj? || container.Arr? || container.Str?)
    ensures container.Obj? ==> r == Ok(Name(key) in container.fields)
  {
    match container
    case Obj(m) => Ok(Name(key) in m)
    case Arr(xs) => Ok(Str(key) in xs)
    case Str(s) => Ok(IsSubstring(key, s))
    case _ => Err(TypeError)
  }

  predicate Hashable(v: Value) {
    !v.Arr? && !v.Obj?
  }

  /** The dictionary slot a hashable value addresses, if a dict here can hold
      one: a string names a key, an integer, a boolean or an integral float
      an index key. `None` and non-integral floats address nothing. */
  function DictKey(v: Value): (k: Option<Key>)
    ensures k.Some? ==> Hashable(v)
    ensures v.Str? ==> k == Some(Name(v.s))
  {
    match v
    case Str(s) => Some(Name(s))
    case Int(i) => Some(Index(i))
    case Bool(b) => Some(Index(if b then 1 else 0))
    case Float(r) => if r.Floor as real == r then Some(Index(r.Floor)) else None
    case _ => None
  }

  /** Python's position in a list or string of length `len`: an int or a bool,
      counted from the end when negative. */
  function Position(index: Value, len: nat): (r: Result<nat, Error>)
    ensures r.Ok? ==> r.value < len && (index.Int? || index.Bool?)
    ensures index.Int? && 0 <= index.i < len ==> r == Ok(index.i)
    ensures index.Int? && -(len as int) <= index.i < 0 ==> r == Ok(len + index.i)
    ensures !(index.Int? || index.Bool?) ==> r == Err(TypeError)
  {
    match index
    case Int(i) =>
      if 0 <= i < len then Ok(i)
      else if -(len as int) <= i < 0 then Ok(len + i)
      else Err(IndexError)
    case Bool(b) => if len > (if b then 1 else 0) then Ok(if b then 1 else 0) else Err(IndexError)
    case _ => Err(TypeError)
  }

  /** Python's `container[index]`. A dict needs a hashable index naming a
      present key; a list or string needs an integer position in range;
      `None`, booleans and numbers cannot be subscripted. */
  function Subscript(container: Value, index: Value): (r: Result<Value, Error>)
    ensures r.Ok? && !container.Str? ==> DictKey(index).Some?
    ensures r.Ok? && container.Str? ==> r.value.Str?
    ensures container.Obj? ==>
      (r.Ok? <==> DictKey(index).Some? && DictKey(index).value in container.fields)
    ensures container.Obj? && r.Ok? ==> r.value == container.fields[DictKey(index).value]
    ensures !(container.Obj? || container.Arr? || container.Str?) ==> r.Err?
  {
    match container
    case Obj(m) =>
      if !Hashable(index) then Err(TypeError)
      else if DictKey(index).Some? && DictKey(index).value in m then Ok(m[DictKey(index).value])
      else Err(KeyError)
    case Arr(xs) =>
      (match Position(index, |xs|)
       case Ok(p) => Ok(xs[p])
       case Err(e) => Err(e))
    case Str(s) =>
      (match Position(index, |s|)
       case Ok(p) => Ok(Str([s[p]]))
       case Err(e) => Err(e))
    case _ => Err(TypeError)
  }
}
