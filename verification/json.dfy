/**
  JSON values as the Python services hold them after decoding (dicts,
  lists, str, int, bool, None), with the Python operations the services
  apply to them: truthiness, `or`, `dict.get`, `==`, `in` and `str()`.
  Numbers are integers throughout the model.
 */
module Json {
  import opened Wrappers
  import Text

  datatype Value =
    | Null
    | Bool(b: bool)
    | Int(i: int)
    | Str(s: string)
    | Arr(items: seq<Value>)
    | Obj(fields: map<string, Value>)

  /** Python truthiness: `None`, `False`, `0`, `""`, `[]` and `{}` are false. */
  predicate Truthy(v: Value) {
    match v
    case Null => false
    case Bool(b) => b
    case Int(i) => i != 0
    case Str(s) => s != ""
    case Arr(xs) => xs != []
    case Obj(m) => m != map[]
  }

  /** Python's `a or b`: the first operand if it is truthy, else the second. */
  function Or(a: Value, b: Value): (r: Value) {
    if Truthy(a) then a else b
  }

  /** Python's `m.get(k, default)`. */
  function Get(m: map<string, Value>, k: string, default: Value): (r: Value) {
    if k in m then m[k] else default
  }

  /** The number Python arithmetic sees: `bool` is a subclass of `int`. */
  function AsNumber(v: Value): (r: Option<int>) {
    match v
    case Bool(b) => Some(if b then 1 else 0)
    case Int(i) => Some(i)
    case _ => None
  }

  /**
    Python's `==` on decoded JSON: structural, order-insensitive for dicts,
    and `True == 1`, `False == 0` across bool and int.
   */
  predicate PyEq(a: Value, b: Value)
    decreases a
  {
    match (a, b)
    case (Arr(xs), Arr(ys)) =>
      |xs| == |ys| && forall i :: 0 <= i < |xs| ==> PyEq(xs[i], ys[i])
    case (Obj(m), Obj(n)) =>
      m.Keys == n.Keys && forall k :: k in m ==> PyEq(m[k], n[k])
    case _ =>
      if AsNumber(a).Some? && AsNumber(b).Some? then AsNumber(a) == AsNumber(b)
      else a == b
  }

  /** Every value equals itself. */
  lemma {:induction false} PyEqReflexive(v: Value)
    ensures PyEq(v, v)
    decreases v
  {
    match v
    case Arr(xs) =>
      forall i | 0 <= i < |xs| ensures PyEq(xs[i], xs[i]) {
        PyEqReflexive(xs[i]);
      }
    case Obj(m) =>
      forall k | k in m ensures PyEq(m[k], m[k]) {
        PyEqReflexive(m[k]);
      }
    case _ =>
  }

  /** Python's `key in container` for a `str` key; `None` where Python raises `TypeError`. */
  function Contains(container: Value, key: string): (r: Option<bool>) {
    match container
    case Obj(m) => Some(key in m)
    case Arr(xs) => Some(exists i | 0 <= i < |xs| :: xs[i] == Str(key))
    case Str(s) => Some(exists i | 0 <= i <= |s| :: Text.OccursAt(s, key, i))
    case _ => None
  }

  /** Python's name for the type of a decoded value, as exception messages print it. */
  function TypeName(v: Value): (r: string) {
    match v
    case Null => "NoneType"
    case Bool(_) => "bool"
    case Int(_) => "int"
    case Str(_) => "str"
    case Arr(_) => "list"
    case Obj(_) => "dict"
  }

  /**
    Python's `str(v)` for scalars. Lists and dicts are rendered by a fixed
    placeholder: their Python rendering is not part of the model.
   */
  function PyStr(v: Value): (r: string) {
    match v
    case Null => "None"
    case Bool(b) => if b then "True" else "False"
    case Int(i) => Text.ShowInt(i)
    case Str(s) => s
    case Arr(_) => "[...]"
    case Obj(_) => "{...}"
  }
}
