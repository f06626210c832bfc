/** The JSON-like values that travel between the agent and the CAD addon, and
    the few Python value rules (truthiness, dictionary lookup, str()) the two
    sides apply to them. */
module Values {

  datatype Option<+T> = None | Some(value: T) {
    function GetOr(default: T): (r: T) {
      match this
      case Some(v) => v
      case None => default
    }
  }

  /** Success carries a value; Failure carries the text of a raised exception. */
  datatype Result<+R> = Success(value: R) | Failure(error: string)

  /** A value as the transport carries it. `Null` is Python's None; a `Dict`
      keeps its entries in insertion order, as a Python dict iterates them,
      and its keys are distinct. */
  datatype Value =
    | Null
    | Bool(b: bool)
    | Num(n: real)
    | Str(s: string)
    | List(items: seq<Value>)
    | Dict(entries: seq<(string, Value)>)

  /** `key in d` for a dictionary's entries. */
  predicate HasKey(entries: seq<(string, Value)>, key: string) {
    exists i :: 0 <= i < |entries| && entries[i].0 == key
  }

  /** `d.get(key)`: the value stored under `key`, if any. */
  function Lookup(entries: seq<(string, Value)>, key: string): (r: Option<Value>)
    ensures r.Some? <==> HasKey(entries, key)
    ensures r.Some? ==> exists i :: 0 <= i < |entries| && entries[i] == (key, r.value)
  {
    if entries == [] then None
    else if entries[0].0 == key then Some(entries[0].1)
    else
      var r := Lookup(entries[1..], key);
      assert forall i :: 0 <= i < |entries| - 1 ==> entries[1..][i] == entries[i + 1];
      r
  }

  /** `d.get(key, default)`. */
  function GetOr(entries: seq<(string, Value)>, key: string, default: Value): (r: Value) {
    Lookup(entries, key).GetOr(default)
  }

  /** The entries of a dictionary without `key` (`del d[key]`). */
  function RemoveKey(entries: seq<(string, Value)>, key: string): (r: seq<(string, Value)>)
    ensures !HasKey(r, key)
    ensures forall k :: k != key ==> Lookup(r, k) == Lookup(entries, k)
  {
    if entries == [] then []
    else if entries[0].0 == key then RemoveKey(entries[1..], key)
    else [entries[0]] + RemoveKey(entries[1..], key)
  }

  /** Python truthiness: None, False, zero and empty containers are false. */
  predicate Truthy(v: Value) {
    match v
    case Null => false
    case Bool(b) => b
    case Num(n) => n != 0.0
    case Str(s) => s != ""
    case List(items) => items != []
    case Dict(entries) => entries != []
  }

  /** Python's `str(v)` for the values the two sides format into messages
      (strings, booleans, None); other shapes get a stand-in. */
  function Show(v: Value): (r: string) {
    match v
    case Str(s) => s
    case Bool(b) => if b then "True" else "False"
    case Null => "None"
    case Num(_) => "<number>"
    case List(_) => "<list>"
    case Dict(_) => "<dict>"
  }

  /** `v[key]` for a string key: the entry, a KeyError (whose text is the
      quoted key) or a TypeError when `v` is not a dictionary. */
  function Subscript(v: Value, key: string): (r: Result<Value>)
    ensures v.Dict? && HasKey(v.entries, key) ==> r == Success(Lookup(v.entries, key).value)
    ensures v.Dict? && !HasKey(v.entries, key) ==> r == Failure("'" + key + "'")
    ensures !v.Dict? ==> r.Failure?
  {
    match v
    case Dict(entries) =>
      (match Lookup(entries, key)
       case Some(x) => Success(x)
       case None => Failure("'" + key + "'"))
    case Null => Failure("'NoneType' object is not subscriptable")
    case Bool(_) => Failure("'bool' object is not subscriptable")
    case Num(_) => Failure("'float' object is not subscriptable")
    case Str(_) => Failure("string indices must be integers, not 'str'")
    case List(_) => Failure("list indices must be integers or slices, not str")
  }
}
