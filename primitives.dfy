/**
  The constant helpers of src/primitives.ts and `arrify`, which wraps a
  value in an array unless it is one already.
 */
module Primitives {
  import opened JsValues
  import Entries

  /** `noop`: returns undefined, whatever it is given. */
  function Noop<A>(args: A): (r: Value)
    ensures r == Undefined
  {
    Undefined
  }

  /** `identity`. */
  function Identity<T>(x: T): (r: T)
    ensures r == x
  {
    x
  }

  /** `truly` and `falsely`: constant predicates. */
  function Truly<A>(args: A): (r: bool)
    ensures r
  {
    true
  }

  function Falsely<A>(args: A): (r: bool)
    ensures !r
  {
    false
  }

  /** Array.isArray: an Array exotic object, which is exactly an object whose
      builtin tag is "Array". */
  predicate IsArray(v: Value) {
    v.Object? && v.obj.builtinTag == "Array"
  }

  /** The non-enumerable `length` of an array. */
  function LengthProp(n: nat): Prop {
    Prop(Name("length"), false, true, Number(Integer(n)))
  }

  /** A fresh array literal `[...elements]` for at most one element; its
      indices come before `length`, as own keys are listed. `arrayProtos` is
      the chain of Array.prototype. */
  function ArrayLiteral(elements: seq<Value>, arrayProtos: seq<Layer>): JsObject
    requires |elements| <= 1
  {
    var indices := if elements == [] then [] else [Prop(Name("0"), true, true, elements[0])];
    JsObject(indices + [LengthProp(|elements|)], arrayProtos, "Array")
  }

  /** `arrify`: undefined gives `[]`, an array is returned as it is, anything
      else is wrapped as `[val]`. */
  function Arrify(val: Value, arrayProtos: seq<Layer>): (r: Value)
    ensures IsArray(r)
  {
    if val == Undefined then Object(ArrayLiteral([], arrayProtos))
    else if !IsArray(val) then Object(ArrayLiteral([val], arrayProtos))
    else val
  }

  /** What the array `arrify` returns holds: nothing for undefined, the value
      itself at index 0 for a non-array, the same array otherwise. */
  lemma ArrifyContents(val: Value, arrayProtos: seq<Layer>)
    ensures var r := Arrify(val, arrayProtos);
      (val == Undefined ==>
        OwnEnumerableNames(r.obj.own) == [] && Get(r.obj, Name("length")) == Number(Integer(0)))
      && (val != Undefined && !IsArray(val) ==>
        OwnEnumerableNames(r.obj.own) == ["0"] && Get(r.obj, Name("0")) == val &&
        Get(r.obj, Name("length")) == Number(Integer(1)))
      && (IsArray(val) ==> r == val)
  {
    if val != Undefined && !IsArray(val) {
      SingletonNames(val, arrayProtos);
    }
  }

  lemma SingletonNames(val: Value, arrayProtos: seq<Layer>)
    ensures OwnEnumerableNames(ArrayLiteral([val], arrayProtos).own) == ["0"]
    ensures OwnEnumerableValues(ArrayLiteral([val], arrayProtos).own) == [val]
  {
    var own := ArrayLiteral([val], arrayProtos).own;
    assert own[1..][1..] == [];
    assert OwnEnumerableNames(own[1..]) == [];
  }

  /** Arrifying twice is arrifying once. */
  lemma ArrifyIdempotent(val: Value, arrayProtos: seq<Layer>)
    ensures Arrify(Arrify(val, arrayProtos), arrayProtos) == Arrify(val, arrayProtos)
  {
  }

  /** Seen through `keys` and `values` with the default options, a wrapped
      value is the one-element list `[val]`. */
  lemma ArrifyListsValue(val: Value, arrayProtos: seq<Layer>, toObject: Value -> JsObject)
    requires val != Undefined && !IsArray(val)
    ensures Entries.KeysOf(Arrify(val, arrayProtos), Entries.Defaults, toObject) == ["0"]
    ensures Entries.ValuesOf(Arrify(val, arrayProtos), Entries.Defaults, toObject) == [val]
  {
    SingletonNames(val, arrayProtos);
  }
}
