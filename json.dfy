/** The job document as Python's `json` module decodes it. */
module Json {

  /** A decoded JSON value: `None`, `bool`, `int`, `str`, `list` or `dict`. */
  datatype Value =
    | Null
    | Bool(b: bool)
    | Int(i: int)
    | Str(s: string)
    | Array(items: seq<Value>)
    | Object(fields: map<string, Value>)

  /**
   * Python truthiness of a decoded value, as in `if status: ...`: false
   * exactly for `None`, `False`, `0`, `""`, `[]` and `{}`.
   */
  predicate Truthy(v: Value)
    ensures !Truthy(v) <==> v == Null || PyEq(v, Int(0)) || v == Str("") || v == Array([]) || v == Object(map[])
  {
    match v
    case Null => false
    case Bool(b) => b
    case Int(i) => i != 0
    case Str(s) => s != []
    case Array(items) => items != []
    case Object(fields) => fields != map[]
  }

  /** The number a `bool` or `int` stands for: `True == 1` and `False == 0` in Python. */
  function Number(v: Value): int
    requires v.Bool? || v.Int?
  {
    if v.Int? then v.i else if v.b then 1 else 0
  }

  /**
   * Python's `==` on decoded values: booleans and integers compare as
   * numbers, lists element by element, dicts by keys and values.
   */
  predicate PyEq(a: Value, b: Value)
    ensures PyEq(a, b) ==> a.Null? == b.Null? && a.Str? == b.Str? && a.Array? == b.Array? && a.Object? == b.Object?
    ensures PyEq(a, b) && (a.Null? || a.Str?) ==> a == b
  {
    match a
    case Null => b.Null?
    case Bool(_) => (b.Bool? || b.Int?) && Number(a) == Number(b)
    case Int(_) => (b.Bool? || b.Int?) && Number(a) == Number(b)
    case Str(s) => b.Str? && s == b.s
    case Array(items) =>
      b.Array? && |items| == |b.items| && forall i :: 0 <= i < |items| ==> PyEq(items[i], b.items[i])
    case Object(fields) =>
      b.Object? && fields.Keys == b.fields.Keys && forall k :: k in fields ==> PyEq(fields[k], b.fields[k])
  }

  /** Python-equal values are both true or both false in an `if`. */
  lemma PyEqKeepsTruthiness(a: Value, b: Value)
    requires PyEq(a, b)
    ensures Truthy(a) == Truthy(b)
  {
    match a
    case Array(items) => assert |items| == |b.items|;
    case Object(fields) => assert fields.Keys == b.fields.Keys;
    case _ =>
  }

  /** Equal values are Python-equal. */
  lemma {:induction false} PyEqReflexive(a: Value)
    ensures PyEq(a, a)
  {
    match a
    case Array(items) =>
      forall i | 0 <= i < |items| ensures PyEq(items[i], items[i]) {
        PyEqReflexive(items[i]);
      }
    case Object(fields) =>
      forall k | k in fields ensures PyEq(fields[k], fields[k]) {
        PyEqReflexive(fields[k]);
      }
    case _ =>
  }

  lemma {:induction false} PyEqSymmetric(a: Value, b: Value)
    ensures PyEq(a, b) ==> PyEq(b, a)
  {
    if PyEq(a, b) {
      match a
      case Array(items) =>
        forall i | 0 <= i < |items| ensures PyEq(b.items[i], items[i]) {
          PyEqSymmetric(items[i], b.items[i]);
        }
      case Object(fields) =>
        forall k | k in b.fields ensures PyEq(b.fields[k], fields[k]) {
          PyEqSymmetric(fields[k], b.fields[k]);
        }
      case _ =>
    }
  }

  /** Python-equality is coarser than equality of decoded values: `True == 1` inside a dict. */
  lemma PyEqIdentifiesTrueAndOne()
    ensures PyEq(Object(map["n" := Bool(true)]), Object(map["n" := Int(1)]))
    ensures Object(map["n" := Bool(true)]) != Object(map["n" := Int(1)])
  {
    var a := Object(map["n" := Bool(true)]);
    assert a.fields["n"] != Int(1);
  }
}
