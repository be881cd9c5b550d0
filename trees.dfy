/**
 * The data the load-balancer module handles, as one tree type: Python
 * scalars, lists and dicts (what `as_dict()` produces and what
 * `default_compare` walks), and instances of the SDK's model classes
 * (`LoadBalancer`, `Probe`, `SubResource`, ...), whose attributes default
 * to `None`.  Floats are not modelled.
 */
module Trees {

  datatype Value =
    | Null
    | Bool(b: bool)
    | Int(i: int)
    | Str(s: string)
    | List(items: seq<Value>)
    | Dict(fields: map<string, Value>)
    /** An SDK model instance; an attribute absent from `attrs` is `None`. */
    | Object(attrs: map<string, Value>)

  /** `d.get(key, None)` on a dict; `None` for anything that is not a dict. */
  function Get(d: Value, key: string): Value {
    if d.Dict? && key in d.fields then d.fields[key] else Null
  }

  /** `key in d` for a dict. */
  predicate HasKey(d: Value, key: string) {
    d.Dict? && key in d.fields
  }

  /** `getattr(obj, name)` on an attribute map of an SDK model instance. */
  function Attr(attrs: map<string, Value>, name: string): Value {
    if name in attrs then attrs[name] else Null
  }

  /** `getattr(obj, name)` on a value that should be an SDK model instance. */
  function GetAttr(obj: Value, name: string): Value {
    if obj.Object? then Attr(obj.attrs, name) else Null
  }

  /**
   * Python truthiness: `None`, `False`, `0`, `''`, `[]` and `{}` are falsy;
   * SDK model instances define neither `__bool__` nor `__len__` and are
   * always truthy.
   */
  predicate Truthy(v: Value) {
    match v
    case Null => false
    case Bool(b) => b
    case Int(i) => i != 0
    case Str(s) => s != ""
    case List(items) => items != []
    case Dict(fields) => fields != map[]
    case Object(_) => true
  }

  /** `bool` is a subclass of `int` in Python: `True == 1`, `False < 1`. */
  predicate IsNumber(v: Value) {
    v.Bool? || v.Int?
  }

  function Num(v: Value): int
    requires IsNumber(v)
  {
    if v.Bool? then (if v.b then 1 else 0) else v.i
  }

  /**
   * Python's `a == b` where `a` is not a list or a dict: numbers compare by
   * value across `bool` and `int`, strings by content, `None` only with
   * `None`.  Lists, dicts and model instances compare structurally.
   */
  predicate PyEq(a: Value, b: Value) {
    if IsNumber(a) then IsNumber(b) && Num(a) == Num(b)
    else if a.Str? then b.Str? && a.s == b.s
    else a == b
  }

  lemma PyEqReflexive(a: Value)
    ensures PyEq(a, a)
  {
  }

  /** A tree in serialised form: no SDK model instance anywhere in it. */
  predicate Serialised(v: Value) {
    match v
    case Object(_) => false
    case List(items) => forall x | x in items :: Serialised(x)
    case Dict(fields) => forall k | k in fields :: Serialised(fields[k])
    case _ => true
  }

  /**
   * `as_dict()` of msrest models: a model instance becomes a dict of its
   * attributes, leaving out those that are `None`; lists and dicts are
   * serialised element by element; scalars are kept.
   */
  function AsDict(v: Value): (r: Value)
    ensures Serialised(r)
    ensures v.Object? ==> r.Dict? && forall k :: k in r.fields <==> k in v.attrs && v.attrs[k] != Null
    ensures v.List? ==> r.List? && |r.items| == |v.items|
    ensures v.Dict? ==> r.Dict? && r.fields.Keys == v.fields.Keys
    ensures !v.Object? && !v.List? && !v.Dict? ==> r == v
  {
    match v
    case Object(attrs) =>
      Dict(map k | k in attrs && attrs[k] != Null :: AsDict(attrs[k]))
    case List(items) =>
      List(seq(|items|, i requires 0 <= i < |items| => AsDict(items[i])))
    case Dict(fields) =>
      Dict(map k | k in fields :: AsDict(fields[k]))
    case _ => v
  }

  /** Serialising a tree that is already serialised changes nothing. */
  lemma {:induction false} AsDictIdempotent(v: Value)
    requires Serialised(v)
    ensures AsDict(v) == v
  {
    match v
    case List(items) =>
      forall i | 0 <= i < |items| ensures AsDict(items[i]) == items[i] {
        AsDictIdempotent(items[i]);
      }
    case Dict(fields) =>
      forall k | k in fields ensures AsDict(fields[k]) == fields[k] {
        AsDictIdempotent(fields[k]);
      }
    case _ =>
  }
}
