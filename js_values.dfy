/**
  The slice of the JavaScript object model that the library inspects.

  An object is its own property list followed by the property lists of its
  prototypes, nearest first (the prototype chain made explicit). Property
  lists keep the order of OrdinaryOwnPropertyKeys. Only data properties are
  modelled; the one symbol-keyed property that matters here is
  Symbol.toStringTag.
 */
module JsValues {

  datatype Option<+T> = None | Some(value: T)

  /** A completion: a normal value, or a thrown error. */
  datatype Result<+T> = Ok(value: T) | Throws(error: JsError)

  datatype JsError = TypeError

  /** A Number as the library looks at it: integral values exactly, every
      other double (fractions, NaN, the infinities) as one abstract case. */
  datatype Num = Integer(i: int) | NonInteger

  datatype Key = Name(name: string) | ToStringTag

  datatype Prop = Prop(key: Key, enumerable: bool, writable: bool, value: Value)

  /** The own properties of one object of a prototype chain, in own-key order. */
  type Layer = seq<Prop>

  /** An object: its own layer, the layers of its prototypes (nearest first)
      and its builtin tag (section 20.1.3.6 of ECMA-262: "Array" for arrays,
      "Function" for callables, "Object" for ordinary objects, ...). */
  datatype JsObject = JsObject(own: Layer, protos: seq<Layer>, builtinTag: string)

  datatype Value =
    | Undefined
    | Null
    | Bool(b: bool)
    | Number(n: Num)
    | BigInt(big: int)
    | Str(s: string)
    | Symbol(id: nat)
    | Object(obj: JsObject)

  function Chain(o: JsObject): (c: seq<Layer>)
    ensures |c| == |o.protos| + 1 && c[0] == o.own && c[1..] == o.protos
  {
    [o.own] + o.protos
  }

  /** No key occurs twice in one layer, as for every ordinary object. */
  ghost predicate DistinctKeys(l: Layer) {
    forall i, j :: 0 <= i < j < |l| ==> l[i].key != l[j].key
  }

  ghost predicate WellFormed(o: JsObject) {
    forall k :: 0 <= k < |Chain(o)| ==> DistinctKeys(Chain(o)[k])
  }

  /** Index of the first property of `l` with key `key`. */
  function FindIn(l: Layer, key: Key): (r: Option<nat>)
    ensures r.Some? ==> r.value < |l| && l[r.value].key == key
    ensures r.Some? ==> forall j :: 0 <= j < r.value ==> l[j].key != key
    ensures r.None? <==> forall j :: 0 <= j < |l| ==> l[j].key != key
  {
    if l == [] then None
    else if l[0].key == key then Some(0)
    else match FindIn(l[1..], key)
      case None => None
      case Some(i) => Some(i + 1)
  }

  /** The property a [[Get]] or [[HasProperty]] of `key` reaches: the first
      one along the chain. */
  function Lookup(chain: seq<Layer>, key: Key): (r: Option<Prop>)
    ensures r.Some? ==> r.value.key == key
  {
    if chain == [] then None
    else match FindIn(chain[0], key)
      case Some(i) => Some(chain[0][i])
      case None => Lookup(chain[1..], key)
  }

  function Get(o: JsObject, key: Key): Value {
    match Lookup(Chain(o), key)
    case Some(p) => p.value
    case None => Undefined
  }

  predicate HasProperty(o: JsObject, key: Key) {
    Lookup(Chain(o), key).Some?
  }

  /** The string keys of a layer, in order (what getOwnPropertyNames lists). */
  function OwnNames(l: Layer): (r: seq<string>)
    ensures |r| <= |l|
    ensures forall x :: x in r <==> FindIn(l, Name(x)).Some?
  {
    if l == [] then []
    else (if l[0].key.Name? then [l[0].key.name] else []) + OwnNames(l[1..])
  }

  /** The enumerable string keys of a layer, in order (what Object.keys lists). */
  function OwnEnumerableNames(l: Layer): seq<string> {
    if l == [] then []
    else (if l[0].key.Name? && l[0].enumerable then [l[0].key.name] else []) + OwnEnumerableNames(l[1..])
  }

  /** Object.keys lists exactly the names of the enumerable string-keyed own
      properties. */
  lemma {:induction false} OwnEnumerableMembers(l: Layer)
    ensures forall x :: x in OwnEnumerableNames(l) <==> exists i :: 0 <= i < |l| && l[i].key == Name(x) && l[i].enumerable
  {
    if l != [] {
      OwnEnumerableMembers(l[1..]);
      assert forall i :: 1 <= i < |l| ==> l[i] == l[1..][i - 1];
    }
  }

  /** The values of the enumerable string-keyed own properties, in order
      (what Object.values lists). */
  function OwnEnumerableValues(l: Layer): (r: seq<Value>)
    ensures |r| == |OwnEnumerableNames(l)|
  {
    if l == [] then []
    else (if l[0].key.Name? && l[0].enumerable then [l[0].value] else []) + OwnEnumerableValues(l[1..])
  }

  /** The [key, value] pairs of the enumerable string-keyed own properties,
      in order (what Object.entries lists). */
  function OwnEnumerableEntries(l: Layer): (r: seq<(string, Value)>)
    ensures |r| == |OwnEnumerableNames(l)|
  {
    if l == [] then []
    else (if l[0].key.Name? && l[0].enumerable then [(l[0].key.name, l[0].value)] else []) + OwnEnumerableEntries(l[1..])
  }

  /** The tag that Object.prototype.toString reports (section 20.1.3.6 of
      ECMA-262): a string-valued Symbol.toStringTag found along the chain, or
      else the builtin tag. Primitives are boxed with the intrinsic
      prototypes, of which only Symbol.prototype and BigInt.prototype carry a
      Symbol.toStringTag. */
  function TagName(v: Value): string {
    match v
    case Undefined => "Undefined"
    case Null => "Null"
    case Bool(_) => "Boolean"
    case Number(_) => "Number"
    case BigInt(_) => "BigInt"
    case Str(_) => "String"
    case Symbol(_) => "Symbol"
    case Object(o) =>
      var tag := Get(o, ToStringTag);
      if tag.Str? then tag.s else o.builtinTag
  }

  /** Object.prototype.toString.call(v). */
  function ObjectToString(v: Value): (r: string)
    ensures |r| == 9 + |TagName(v)| && r[..8] == "[object " && r[|r| - 1] == ']'
    ensures r[8..|r| - 1] == TagName(v)
  {
    "[object " + TagName(v) + "]"
  }

  function LowerChar(c: char): char {
    if 'A' <= c <= 'Z' then (c as int + 32) as char else c
  }

  /** String.prototype.toLowerCase, on the ASCII letters. */
  function Lower(s: string): (r: string)
    ensures |r| == |s| && forall i :: 0 <= i < |s| ==> r[i] == LowerChar(s[i])
  {
    if s == [] then [] else [LowerChar(s[0])] + Lower(s[1..])
  }
}
