/**
  Property-name collection over a prototype chain, and the `keys`, `values`
  and `entries` helpers built on it (src/entries.ts).
 */
module Entries {
  import opened JsValues
  import opened InsertionSet
  import Predicates

  /** Object.getOwnPropertyNames(Object.prototype), read once when the module
      loads: the own names of the base object of every ordinary chain. */
  const ObjectOwnProps: seq<string> := [
    "constructor", "__defineGetter__", "__defineSetter__", "hasOwnProperty",
    "__lookupGetter__", "__lookupSetter__", "isPrototypeOf",
    "propertyIsEnumerable", "toString", "valueOf", "__proto__", "toLocaleString"
  ]

  /** The options bag `{ enumOnly = true, followProto = false, all = false }`. */
  datatype Options = Options(enumOnly: bool, followProto: bool, all: bool)

  const Defaults := Options(true, false, false)

  /** The flags `_keys` receives: `all` overrides both. */
  function EnumOnly(opts: Options): bool { if opts.all then false else opts.enumOnly }
  function FollowProto(opts: Options): bool { if opts.all then true else opts.followProto }

  /** The object the helpers work on: JavaScript boxes a primitive (ToObject)
      before listing or reading its properties; `toObject` stands for that
      host operation. */
  function Subject(v: Value, toObject: Value -> JsObject): JsObject {
    if v.Object? then v.obj else toObject(v)
  }

  /** The own names of every layer of the chain, nearest first, repetitions kept. */
  function AllNames(chain: seq<Layer>): seq<string> {
    if chain == [] then []
    else AllNames(chain[..|chain| - 1]) + OwnNames(chain[|chain| - 1])
  }

  /** The names a for…in statement visits (EnumerateObjectProperties,
      section 14.7.5.9 of ECMA-262): layer by layer, the enumerable names that
      no nearer layer owns. `shadow` holds the names of the nearer layers. */
  function ForIn(chain: seq<Layer>, shadow: seq<string>): seq<string> {
    if chain == [] then []
    else Without(OwnEnumerableNames(chain[0]), shadow) + ForIn(chain[1..], shadow + OwnNames(chain[0]))
  }

  function ForInNames(o: JsObject): seq<string> {
    ForIn(Chain(o), [])
  }

  /** What `_keys(obj, enumOnly, followProto)` returns, mode by mode. */
  function KeysSpec(o: JsObject, enumOnly: bool, followProto: bool): seq<string> {
    if !followProto then
      if enumOnly then OwnEnumerableNames(o.own) else OwnNames(o.own)
    else if enumOnly then Dedup(ForInNames(o))
    else Without(Dedup(AllNames(Chain(o))), ObjectOwnProps)
  }

  /** What `keys(v, opts)` returns. */
  function KeysOf(v: Value, opts: Options, toObject: Value -> JsObject): seq<string> {
    if Predicates.IsNil(v) then []
    else KeysSpec(Subject(v, toObject), EnumOnly(opts), FollowProto(opts))
  }

  /** The value a property read `obj[name]` gives for each name, in order. */
  function ReadAll(o: JsObject, names: seq<string>): (r: seq<Value>)
    ensures |r| == |names|
  {
    seq(|names|, i requires 0 <= i < |names| => Get(o, Name(names[i])))
  }

  /** Whether `values` and `entries` take the fast path through
      Object.values / Object.entries. */
  predicate FastPath(opts: Options) {
    !FollowProto(opts) && EnumOnly(opts)
  }

  /** What `values(v, opts)` returns. */
  function ValuesOf(v: Value, opts: Options, toObject: Value -> JsObject): seq<Value> {
    if Predicates.IsNil(v) then []
    else
      var o := Subject(v, toObject);
      if FastPath(opts) then OwnEnumerableValues(o.own)
      else ReadAll(o, KeysSpec(o, EnumOnly(opts), FollowProto(opts)))
  }

  /** What `entries(v, opts)` returns. */
  function EntriesOf(v: Value, opts: Options, toObject: Value -> JsObject): seq<(string, Value)> {
    if Predicates.IsNil(v) then []
    else
      var o := Subject(v, toObject);
      if FastPath(opts) then OwnEnumerableEntries(o.own)
      else
        PairAll(o, KeysSpec(o, EnumOnly(opts), FollowProto(opts)))
  }

  /** Each name paired with the value a property read gives for it. */
  function PairAll(o: JsObject, names: seq<string>): (r: seq<(string, Value)>)
    ensures |r| == |names|
  {
    seq(|names|, i requires 0 <= i < |names| => (names[i], Get(o, Name(names[i]))))
  }

  // ---------------------------------------------------------------------
  // The routines
  // ---------------------------------------------------------------------

  /** How far along the chain the full traversal has collected names after
      `link` passes of its loop: each pass adds its link's names and the names
      of that link's prototype. */
  function Reached(link: nat, n: nat): nat {
    if link == 0 then 0 else if link + 1 < n then link + 1 else n
  }

  /** `_keys`: the four modes. */
  method CollectKeys(obj: JsObject, enumOnly: bool, followProto: bool) returns (r: seq<string>)
    ensures r == KeysSpec(obj, enumOnly, followProto)
  {
    if !followProto {
      if enumOnly {
        return OwnEnumerableNames(obj.own);  // Object.keys
      }
      return OwnNames(obj.own);  // Object.getOwnPropertyNames
    }
    var props := new JsSet();
    if enumOnly {
      AddEach(props, ForInNames(obj));  // for (const prop in obj) props.add(prop)
    } else {
      WalkChain(props, Chain(obj));
      DeleteEach(props, ObjectOwnProps);
    }
    r := props.items;  // [...props]
  }

  /** `for (...) props.add(names[i])`. */
  method AddEach(props: JsSet, names: seq<string>)
    modifies props
    ensures props.items == AddAll(old(props.items), names)
  {
    ghost var before := props.items;
    for i := 0 to |names|
      invariant props.items == AddAll(before, names[..i])
    {
      assert names[..i + 1][..i] == names[..i];
      props.Add(names[i]);
    }
    assert names[..|names|] == names;
  }

  /** `for (...) props.delete(names[i])`. */
  method DeleteEach(props: JsSet, names: seq<string>)
    modifies props
    ensures props.items == Without(old(props.items), names)
  {
    ghost var before := props.items;
    WithoutNothing(before);
    for i := 0 to |names|
      invariant props.items == Without(before, names[..i])
    {
      RemoveWithout(before, names[..i], names[i]);
      assert names[..i + 1] == names[..i] + [names[i]];
      props.Delete(names[i]);
    }
    assert names[..|names|] == names;
  }

  /** The do…while loop of the full traversal: each pass adds the names of
      the current link and of its prototype, then moves to the prototype.
      The chain is never empty, so a while loop runs the body at least once
      as the do…while does. */
  method WalkChain(props: JsSet, chain: seq<Layer>)
    requires props.items == [] && chain != []
    modifies props
    ensures props.items == Dedup(AllNames(chain))
  {
    var link := 0;
    while link < |chain|
      invariant 0 <= link <= |chain|
      invariant props.items == Dedup(AllNames(chain[..Reached(link, |chain|)]))
    {
      WalkStep(props, chain, link);
      link := link + 1;
    }
    assert chain[..|chain|] == chain;
  }

  /** One pass of the do…while: the link's own names, then its prototype's. */
  method WalkStep(props: JsSet, chain: seq<Layer>, link: nat)
    requires link < |chain|
    requires props.items == Dedup(AllNames(chain[..Reached(link, |chain|)]))
    modifies props
    ensures props.items == Dedup(AllNames(chain[..Reached(link + 1, |chain|)]))
  {
    AddLinkNames(props, chain, link);
    if link + 1 < |chain| {
      AddPrototypeNames(props, chain, link);
      assert Reached(link + 1, |chain|) == link + 2;
    } else {
      assert Reached(link + 1, |chain|) == link + 1;
    }
  }

  method AddLinkNames(props: JsSet, chain: seq<Layer>, link: nat)
    requires link < |chain|
    requires props.items == Dedup(AllNames(chain[..Reached(link, |chain|)]))
    modifies props
    ensures props.items == Dedup(AllNames(chain[..link + 1]))
  {
    OwnNamesCollected(chain, link, props.items);
    AddEach(props, OwnNames(chain[link]));
  }

  method AddPrototypeNames(props: JsSet, chain: seq<Layer>, link: nat)
    requires link + 1 < |chain|
    requires props.items == Dedup(AllNames(chain[..link + 1]))
    modifies props
    ensures props.items == Dedup(AllNames(chain[..link + 2]))
  {
    PrototypeNamesCollected(chain, link);
    AddEach(props, OwnNames(chain[link + 1]));
  }

  /** Adding a link's own names: new on the first link, already present
      (added as the previous link's prototype names) on every later one. */
  lemma OwnNamesCollected(chain: seq<Layer>, link: nat, before: seq<string>)
    requires link < |chain|
    requires before == Dedup(AllNames(chain[..Reached(link, |chain|)]))
    ensures AddAll(before, OwnNames(chain[link])) == Dedup(AllNames(chain[..link + 1]))
  {
    var prefix := chain[..link + 1];
    assert prefix[..link] == chain[..link] && prefix[link] == chain[link];
    assert AllNames(prefix) == AllNames(chain[..link]) + OwnNames(chain[link]);
    if link == 0 {
      assert AllNames(prefix) == OwnNames(chain[0]);
    } else {
      assert Reached(link, |chain|) == link + 1;
      AddAllMembers([], AllNames(prefix));
      AddAllPresent(before, OwnNames(chain[link]));
    }
  }

  /** Adding the prototype's names extends the collected prefix by one layer. */
  lemma PrototypeNamesCollected(chain: seq<Layer>, link: nat)
    requires link + 1 < |chain|
    ensures AddAll(Dedup(AllNames(chain[..link + 1])), OwnNames(chain[link + 1]))
         == Dedup(AllNames(chain[..link + 2]))
  {
    var longer := chain[..link + 2];
    assert longer[..|longer| - 1] == chain[..link + 1];
    AddAllConcat([], AllNames(chain[..link + 1]), OwnNames(chain[link + 1]));
  }

  lemma {:induction false} WithoutNothing(s: seq<string>)
    ensures Without(s, []) == s
  {
    if s != [] {
      WithoutNothing(s[1..]);
    }
  }

  /** `keys`. */
  method Keys(v: Value, opts: Options, toObject: Value -> JsObject) returns (r: seq<string>)
    ensures r == KeysOf(v, opts, toObject)
  {
    if Predicates.IsNil(v) {
      return [];
    }
    var enumOnly, followProto := opts.enumOnly, opts.followProto;
    if opts.all {
      enumOnly, followProto := false, true;
    }
    r := CollectKeys(Subject(v, toObject), enumOnly, followProto);
  }

  /** `values`: the key array is overwritten in place with the values read. */
  method Values(v: Value, opts: Options, toObject: Value -> JsObject) returns (r: seq<Value>)
    ensures r == ValuesOf(v, opts, toObject)
  {
    if Predicates.IsNil(v) {
      return [];
    }
    var enumOnly, followProto := opts.enumOnly, opts.followProto;
    if opts.all {
      enumOnly, followProto := false, true;
    }
    var obj := Subject(v, toObject);
    if !followProto && enumOnly {
      return OwnEnumerableValues(obj.own);  // Object.values
    }
    var names := CollectKeys(obj, enumOnly, followProto);
    var k := new Value[|names|](i requires 0 <= i < |names| => Str(names[i]));
    ReadInPlace(obj, k, names);
    r := k[..];
  }

  /** `for (...) k[i] = obj[k[i]]`: each key of the array is overwritten by
      the value read under it. */
  method ReadInPlace(obj: JsObject, k: array<Value>, ghost names: seq<string>)
    requires k.Length == |names| && forall j :: 0 <= j < k.Length ==> k[j] == Str(names[j])
    modifies k
    ensures k[..] == ReadAll(obj, names)
  {
    for i := 0 to k.Length
      invariant forall j :: 0 <= j < i ==> k[j] == Get(obj, Name(names[j]))
      invariant forall j :: i <= j < k.Length ==> k[j] == Str(names[j])
    {
      k[i] := Get(obj, Name(k[i].s));
    }
  }

  /** `entries`: a preallocated array filled with [key, value] pairs. */
  method Entries(v: Value, opts: Options, toObject: Value -> JsObject) returns (r: seq<(string, Value)>)
    ensures r == EntriesOf(v, opts, toObject)
  {
    if Predicates.IsNil(v) {
      return [];
    }
    var enumOnly, followProto := opts.enumOnly, opts.followProto;
    if opts.all {
      enumOnly, followProto := false, true;
    }
    var obj := Subject(v, toObject);
    if !followProto && enumOnly {
      return OwnEnumerableEntries(obj.own);  // Object.entries
    }
    var k := CollectKeys(obj, enumOnly, followProto);
    r := FillEntries(obj, k);
  }

  /** `result[i] = [k[i], obj[k[i]]]` over a preallocated array. */
  method FillEntries(obj: JsObject, k: seq<string>) returns (r: seq<(string, Value)>)
    ensures r == PairAll(obj, k)
  {
    var result := new (string, Value)[|k|];
    for i := 0 to |k|
      invariant forall j :: 0 <= j < i ==> result[j] == (k[j], Get(obj, Name(k[j])))
    {
      var key := k[i];
      result[i] := (key, Get(obj, Name(key)));
    }
    r := result[..];
  }
}
