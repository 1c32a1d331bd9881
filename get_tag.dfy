/**
  `getTag` (src/predicates.ts): reads the builtin tag of a value by masking
  its Symbol.toStringTag with an own `undefined`, calling
  Object.prototype.toString, then restoring the slot: writing the old value
  back when it was own, deleting the temporary own slot when it was not.

  Module code is strict, so a write that [[Set]] refuses throws a TypeError;
  the `finally` around the write is empty and catches nothing.
 */
module GetTag {
  import opened JsValues

  /** The own layer with every property under `key` removed. */
  function RemoveKey(l: Layer, key: Key): (r: Layer)
    ensures FindIn(r, key).None?
  {
    if l == [] then []
    else (if l[0].key == key then [] else [l[0]]) + RemoveKey(l[1..], key)
  }

  /** Whether [[Set]] of Symbol.toStringTag succeeds on an object (data
      properties only, OrdinarySetWithOwnDescriptor in section 10.1.9.2 of
      ECMA-262): the property it reaches first, if any, must be writable. */
  predicate TagWritable(o: JsObject) {
    var p := Lookup(Chain(o), ToStringTag);
    p.None? || p.value.writable
  }

  /** The own layer after a successful [[Set]] of Symbol.toStringTag to `v`:
      the own property is updated in place, or a new own data property is
      appended. */
  function TagWritten(own: Layer, v: Value): Layer {
    match FindIn(own, ToStringTag)
    case Some(i) => own[i := own[i].(value := v)]
    case None => own + [Prop(ToStringTag, true, true, v)]
  }

  /** A live object: its own properties are rewritten in place; its
      prototypes and its builtin tag do not change. */
  class ObjectRef {
    var own: Layer
    const protos: seq<Layer>
    const builtinTag: string

    constructor (o: JsObject)
      ensures Snapshot() == o
    {
      own, protos, builtinTag := o.own, o.protos, o.builtinTag;
    }

    function Snapshot(): JsObject
      reads this
    {
      JsObject(own, protos, builtinTag)
    }

    /** `this[Symbol.toStringTag] = v` in strict code; false when it throws. */
    method SetTag(v: Value) returns (ok: bool)
      modifies this
      ensures ok == TagWritable(old(Snapshot()))
      ensures own == if ok then TagWritten(old(own), v) else old(own)
    {
      var reached := Lookup(Chain(Snapshot()), ToStringTag);
      if reached.Some? && !reached.value.writable {
        return false;
      }
      ok := true;
      match FindIn(own, ToStringTag)
      case Some(i) =>
        own := own[i := own[i].(value := v)];
      case None =>
        own := own + [Prop(ToStringTag, true, true, v)];
    }

    /** `delete this[Symbol.toStringTag]`. */
    method DeleteTag()
      modifies this
      ensures own == RemoveKey(old(own), ToStringTag)
    {
      own := RemoveKey(own, ToStringTag);
    }
  }

  type PrimitiveValue = v: Value | !v.Object? witness Undefined

  /** The argument of `getTag`: a primitive, or a reference to a live object. */
  datatype Target = Primitive(v: PrimitiveValue) | Live(ref: ObjectRef)

  function ValueOf(t: Target): Value
    reads if t.Live? then {t.ref} else {}
  {
    match t
    case Primitive(v) => v
    case Live(r) => Object(r.Snapshot())
  }

  /** What `getTag` returns. Of the primitives only Symbol and BigInt have a
      Symbol.toStringTag (on their prototypes, read-only), and writing any
      property of a primitive fails in strict code. */
  function GetTagOf(v: Value): Result<string> {
    match v
    case Undefined => Ok("[object Undefined]")
    case Null => Ok("[object Null]")
    case Symbol(_) => Throws(TypeError)
    case BigInt(_) => Throws(TypeError)
    case Object(o) =>
      if !HasProperty(o, ToStringTag) then Ok(ObjectToString(v))
      else if !TagWritable(o) then Throws(TypeError)
      else Ok("[object " + o.builtinTag + "]")
    case _ => Ok(ObjectToString(v))
  }

  /** `getTag`: mask, read, restore. The object ends as it began. */
  method GetTag(value: Target) returns (r: Result<string>)
    modifies if value.Live? then {value.ref} else {}
    ensures value.Live? ==> value.ref.own == old(value.ref.own)
    ensures r == GetTagOf(ValueOf(value))
  {
    if value.Primitive? {
      var v := value.v;
      if v.Undefined? || v.Null? {
        return Ok(if v.Undefined? then "[object Undefined]" else "[object Null]");
      }
      if !(v.Symbol? || v.BigInt?) {
        return Ok(ObjectToString(v));  // no Symbol.toStringTag anywhere on its chain
      }
      return Throws(TypeError);  // `value[symToStringTag] = undefined` on a primitive
    }
    r := TagOfObject(value.ref);
  }

  /** The object half of `getTag`. */
  method TagOfObject(obj: ObjectRef) returns (r: Result<string>)
    modifies obj
    ensures obj.own == old(obj.own)
    ensures r == GetTagOf(Object(old(obj.Snapshot())))
  {
    if !HasProperty(obj.Snapshot(), ToStringTag) {
      return Ok(ObjectToString(Object(obj.Snapshot())));
    }
    ghost var original := obj.own;
    var isOwn := FindIn(obj.own, ToStringTag).Some?;
    var tag := Get(obj.Snapshot(), ToStringTag);
    var unmasked := obj.SetTag(Undefined);
    if !unmasked {
      return Throws(TypeError);  // the write throws; `finally` is empty
    }
    MaskedTagIsUndefined(original, obj.protos, obj.builtinTag);
    r := Ok(ObjectToString(Object(obj.Snapshot())));
    Restore(obj, isOwn, tag, original);
  }

  /** The `finally` of a successful mask: write the old own tag back, or
      delete the own slot the mask created. */
  method Restore(obj: ObjectRef, isOwn: bool, tag: Value, ghost original: Layer)
    requires isOwn == FindIn(original, ToStringTag).Some?
    requires isOwn ==> tag == original[FindIn(original, ToStringTag).value].value
    requires TagWritable(JsObject(original, obj.protos, obj.builtinTag))
    requires obj.own == TagWritten(original, Undefined)
    modifies obj
    ensures obj.own == original
  {
    if isOwn {
      var i := FindIn(original, ToStringTag).value;
      WrittenKeepsIndex(original, i, Undefined);
      var restored := obj.SetTag(tag);
    } else {
      obj.DeleteTag();
      RemoveAppended(original, Prop(ToStringTag, true, true, Undefined));
    }
  }

  /** Once masked, the tag a read reaches is the own `undefined`, so
      Object.prototype.toString falls back to the builtin tag. */
  lemma MaskedTagIsUndefined(own: Layer, protos: seq<Layer>, builtinTag: string)
    ensures Get(JsObject(TagWritten(own, Undefined), protos, builtinTag), ToStringTag) == Undefined
    ensures TagName(Object(JsObject(TagWritten(own, Undefined), protos, builtinTag))) == builtinTag
  {
    var masked := TagWritten(own, Undefined);
    match FindIn(own, ToStringTag)
    case Some(i) =>
      WrittenKeepsIndex(own, i, Undefined);
    case None =>
      AppendedFound(own, Prop(ToStringTag, true, true, Undefined));
  }

  /** Updating the value of the own tag leaves it where it was. */
  lemma {:induction false} WrittenKeepsIndex(own: Layer, i: nat, v: Value)
    requires FindIn(own, ToStringTag) == Some(i)
    ensures FindIn(TagWritten(own, v), ToStringTag) == Some(i)
    ensures TagWritten(own, v)[i].value == v && TagWritten(own, v)[i].writable == own[i].writable
    ensures TagWritten(TagWritten(own, v), own[i].value) == own
  {
    var written := TagWritten(own, v);
    assert forall j :: 0 <= j < |own| ==> written[j].key == own[j].key;
    FindInSameKeys(own, written, ToStringTag);
  }

  lemma {:induction false} FindInSameKeys(a: Layer, b: Layer, key: Key)
    requires |a| == |b| && forall j :: 0 <= j < |a| ==> a[j].key == b[j].key
    ensures FindIn(a, key) == FindIn(b, key)
  {
    if a != [] {
      FindInSameKeys(a[1..], b[1..], key);
    }
  }

  /** An appended tag is found when the layer had none. */
  lemma {:induction false} AppendedFound(own: Layer, p: Prop)
    requires FindIn(own, p.key).None?
    ensures FindIn(own + [p], p.key) == Some(|own|)
  {
    if own != [] {
      assert (own + [p])[1..] == own[1..] + [p];
      AppendedFound(own[1..], p);
    }
  }

  /** Deleting the appended tag gives back the layer that had none. */
  lemma {:induction false} RemoveAppended(own: Layer, p: Prop)
    requires FindIn(own, p.key).None?
    ensures RemoveKey(own + [p], p.key) == own
  {
    if own == [] {
      assert RemoveKey([p][1..], p.key) == [];
    } else {
      assert (own + [p])[1..] == own[1..] + [p];
      RemoveAppended(own[1..], p);
      assert [own[0]] + own[1..] == own;
    }
  }

  // ---------------------------------------------------------------------
  // What getTag reports
  // ---------------------------------------------------------------------

  /** Whenever `getTag` returns for an object, it returns the builtin tag,
      whatever Symbol.toStringTag says; Object.prototype.toString reports
      the override instead when it is a string. */
  lemma ReportsBuiltinTag(o: JsObject)
    ensures GetTagOf(Object(o)).Ok? ==> GetTagOf(Object(o)).value == "[object " + o.builtinTag + "]"
    ensures GetTagOf(Object(o)).Ok? && Get(o, ToStringTag).Str? ==>
      ObjectToString(Object(o)) == "[object " + Get(o, ToStringTag).s + "]"
  {
    if !HasProperty(o, ToStringTag) {
      assert Get(o, ToStringTag) == Undefined;
    }
  }

  /** `getTag` throws exactly for Symbol and BigInt primitives and for
      objects whose Symbol.toStringTag is read-only where a read reaches it. */
  lemma ThrowsExactly(v: Value)
    ensures GetTagOf(v).Throws? <==>
      v.Symbol? || v.BigInt? ||
      (v.Object? && Lookup(Chain(v.obj), ToStringTag).Some? && !Lookup(Chain(v.obj), ToStringTag).value.writable)
  {
  }

  /** The nil inputs. */
  lemma NilTags()
    ensures GetTagOf(Undefined) == Ok("[object Undefined]")
    ensures GetTagOf(Null) == Ok("[object Null]")
  {
  }
}
