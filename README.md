# Object keys, type predicates and primitives — a Dafny model

This project models three files of a small TypeScript utility library:

- `src/entries.ts`: `keys`, `values` and `entries`, and `_keys`, the
  routine behind them. `_keys` collects property names in four modes:
  - own enumerable names (Object.keys);
  - all own names (Object.getOwnPropertyNames);
  - the names a `for…in` visits along the prototype chain;
  - every name found along the whole chain, minus those of
    Object.prototype.
- `src/predicates.ts`: `getTag` (masks Symbol.toStringTag, reads the
  builtin tag, restores the slot), `getTagSimple`, the nil and primitive
  discriminators, `isEmptyString`, `isSubstring`, `isPrefix`/`isSuffix`,
  `isOdd`/`isEven` and `isPropertyDefined`.
- `src/primitives.ts`: `noop`, `identity`, `truly`, `falsely` and `arrify`.

JavaScript's object model is written out in `js_values.dfy`:

- A value is `undefined`, `null`, a boolean, a number, a BigInt, a string,
  a symbol or an object.
- An object is its own property layer, the layers of its prototypes
  (nearest first), and its builtin tag.
- A layer is the list of its properties in own-key order. Each property has
  a key, an enumerable flag, a writable flag and a value.
- Keys are string names or Symbol.toStringTag.
- Reads (`Get`, `HasProperty`) look up the chain.
- Object.prototype.toString follows section 20.1.3.6 of ECMA-262.

How each file is modelled:

- **Collections.** The JavaScript `Set` that `_keys` fills is a class over
  an insertion-ordered sequence (`insertion_set.dfy`).
- **`_keys`, `values`, `entries` (`entries.dfy`).** These are methods with
  the same loops as the source:
  - the `do…while` over the chain;
  - the `add` and `delete` loops;
  - the in-place overwrite of the key array in `values`;
  - the preallocated array in `entries`.

  Each method is proved equal to a function (`KeysSpec`, `KeysOf`,
  `ValuesOf`, `EntriesOf`), and `entries_properties.dfy` proves what those
  functions mean without reference to how they are computed.
  `entries_examples.dfy` evaluates the scenarios of `test/entries.spec.ts`.
- **`getTag` (`get_tag.dfy`).** A class `ObjectRef` holds the object's
  mutable own layer. The method is proved to leave that layer exactly as it
  found it. Module code is strict, so a refused write throws a TypeError that
  the empty `finally` lets through. This happens for a read-only tag, and
  for a Symbol or BigInt primitive, whose prototypes carry one.
- **`isSubstring` and `isPropertyDefined` (`predicates.dfy`).** Both are
  methods with the source's step-by-step reassignments and loop. The
  remaining predicates are functions.
- **Primitives (`primitives.dfy`).** These are functions.

Where the code and its accompanying description differ, the model follows
the code:

- `isPrimitive` does not count a BigInt as primitive, so `isObject(10n)`
  is true and `isEmptyObject(10n)` is true.
- `isPropertyDefined(10n, "a")` throws, because `"a" in 10n` is a
  TypeError.
- `getTag` throws a TypeError for every object whose reached
  Symbol.toStringTag is read-only (a Map, a Set, a Promise), because its
  strict-mode write fails; so `isPlainObject(new Map())` throws rather than
  answering false (GetTag.ThrowsExactly).
- `isPrefix` and `isSuffix` never hold for a string (see Findings).

## Model

| member | source | states |
|---|---|---|
| Entries.CollectKeys | src/entries.ts:5-42 | `_keys` returns, for each combination of `enumOnly` and `followProto`, exactly the list of the corresponding mode (`KeysSpec`) |
| Entries.KeysSpec | src/entries.ts:5-42 | defines the four modes: Object.keys, Object.getOwnPropertyNames, the for…in names each once, and the chain's names each once minus Object.prototype's; their meaning is proved in the EntriesProperties rows |
| Entries.ForIn | src/entries.ts:16-18 | defines the order of a for…in statement: layer by layer, the enumerable names no nearer layer owns (section 14.7.5.9 of ECMA-262); ForInExactly and ForInDistinct state what it lists |
| Entries.AllNames | src/entries.ts:20-34 | defines the names the full traversal meets, layer by layer along the prototype chain, repetitions kept; AllNamesExactly states its members |
| Entries.EnumOnly | src/entries.ts:46-54 | the `enumOnly` flag `_keys` receives: the option (default true), forced to false by `all` |
| Entries.FollowProto | src/entries.ts:46-54 | the `followProto` flag `_keys` receives: the option (default false), forced to true by `all` |
| Entries.KeysOf | src/entries.ts:44-57 | defines what `keys` returns: `[]` for nil, else `_keys` of the boxed value with the adjusted flags |
| Entries.ValuesOf | src/entries.ts:60-81 | defines what `values` returns: `[]` for nil, Object.values on the fast path, else the value read under each collected key |
| Entries.EntriesOf | src/entries.ts:84-107 | defines what `entries` returns: `[]` for nil, Object.entries on the fast path, else each collected key paired with its read value |
| Entries.AddEach | src/entries.ts:16-18 | adding names one by one leaves the set holding its old contents followed by the new names, each once, in first-added order |
| Entries.DeleteEach | src/entries.ts:36-38 | deleting each of Object.prototype's names leaves the set's contents with exactly those names removed, order kept |
| Entries.WalkChain | src/entries.ts:20-34 | the do…while over the chain, adding each link's and its prototype's own names, collects every name of the prototype chain (each link's [[GetPrototypeOf]]) once, in first-seen order |
| Entries.WalkStep | src/entries.ts:21-33 | one pass of the do…while extends the set from the names of the links reached so far to those of the links reached one pass later |
| Entries.AddLinkNames | src/entries.ts:22-25 | adding the link's own names leaves the set holding the names of the chain up to and including that link, first-seen |
| Entries.AddPrototypeNames | src/entries.ts:26-32 | adding the prototype's own names leaves the set holding the names of the chain up to and including the prototype, first-seen |
| Entries.OwnNamesCollected | src/entries.ts:22-25 | on every link after the first, the link's own names are already in the set (added as the previous link's prototype names) |
| Entries.PrototypeNamesCollected | src/entries.ts:26-32 | adding the prototype's names extends the collected prefix of the chain by one layer |
| Entries.Keys | src/entries.ts:44-57 | `keys` is empty for nil, applies the `all` override, and otherwise returns `_keys` of the (boxed) value |
| Entries.Values | src/entries.ts:60-81 | `values` is empty for nil, takes Object.values on the own-enumerable fast path, and otherwise lists the value read under each collected key |
| Entries.ReadInPlace | src/entries.ts:76-80 | overwriting each key of the array with the value read under it leaves the array holding those values in key order |
| Entries.Entries | src/entries.ts:84-107 | `entries` is empty for nil, takes Object.entries on the fast path, and otherwise pairs each collected key with the value read under it |
| Entries.FillEntries | src/entries.ts:100-106 | the preallocated array ends up holding `[key, value]` for every key, in key order |
| InsertionSet.JsSet.Add | src/entries.ts:17 | Set.prototype.add leaves the contents unchanged when the name is present and appends it otherwise |
| InsertionSet.JsSet.Delete | src/entries.ts:37 | Set.prototype.delete removes the name and keeps the order of the rest |
| InsertionSet.DedupProperties | src/entries.ts:13-41 | spreading a set filled from a list gives every name of the list exactly once |
| InsertionSet.WithoutDistinct | src/entries.ts:36-38 | deleting names from a set keeps it free of repetitions |
| InsertionSet.RemoveWithout | src/entries.ts:36-38 | deleting one more name is the same as dropping one more name from the original contents |
| InsertionSet.AddAllConcat | src/entries.ts:21-34 | adding two lists in turn is adding their concatenation |
| JsValues.OwnEnumerableMembers | src/entries.ts:8 | Object.keys lists a name exactly when some own property under it is enumerable |
| JsValues.ObjectToString | src/predicates.ts:37-41 | the raw tag is `"[object "`, then the tag name, then `"]"`, so dropping 8 characters in front and 1 behind yields the tag name |
| EntriesProperties.OwnNamesDistinct | src/entries.ts:8-10 | with distinct own keys, neither Object.keys nor Object.getOwnPropertyNames lists a name twice |
| EntriesProperties.OwnEnumerableExactly | src/entries.ts:7-8 | a name is listed by Object.keys exactly when the own property under it is enumerable |
| EntriesProperties.OwnModesExactly | src/entries.ts:6-11 | without `followProto`: with `enumOnly` the own enumerable names, otherwise every own name, in both directions |
| EntriesProperties.ForInExactly | src/entries.ts:15-18 | for…in visits a name exactly when the property a read of it reaches along the chain is enumerable |
| EntriesProperties.ForInDistinct | src/entries.ts:15-18 | for…in never visits a name twice nor one that a nearer layer owns |
| EntriesProperties.ForInModeExactly | src/entries.ts:15-18 | with `followProto` and `enumOnly` the result is the for…in order itself, and holds a name exactly when it is present and its reached property is enumerable |
| EntriesProperties.AllNamesExactly | src/entries.ts:20-34 | the full traversal, stepping along the prototype chain, meets a name exactly when some layer of that chain owns it |
| EntriesProperties.FullModeExactly | src/entries.ts:19-39 | with `followProto` and not `enumOnly`, a name is listed exactly when the object has it and it is not an Object.prototype name, even one the object defines itself, and no name twice |
| EntriesProperties.KeysDistinct | src/entries.ts:5-42 | no mode of `_keys` lists a name twice |
| EntriesProperties.NilGivesEmpty | src/entries.ts:48-50 | `keys`, `values` and `entries` give `[]` for null and undefined, whatever the options (also lines 64-66, 88-90) |
| EntriesProperties.DefaultsAreOwnEnumerable | src/entries.ts:46-50 | with the default options (`enumOnly` true, `followProto` and `all` false) the three helpers are Object.keys, Object.values and Object.entries of the value, and `[]` for nil |
| EntriesProperties.ObjectPropsListed | src/entries.ts:3 | `objectOwnProps` is fixed as the twelve distinct own names of Object.prototype in V8, `constructor` and `__proto__` among them; the source reads them from the host when the module loads |
| EntriesProperties.AllOverrides | src/entries.ts:52-54 | `all: true` behaves as `enumOnly: false, followProto: true` for all three helpers (also lines 68-70, 92-94) |
| EntriesProperties.ValuesFollowKeys | src/entries.ts:72-80 | `values` is as long as `keys`, and its i-th element is the value a read of the i-th key gives, on the fast path too |
| EntriesProperties.EntriesPairKeysWithValues | src/entries.ts:96-106 | `entries` is as long as `keys`, and its i-th element pairs the i-th key with the i-th value |
| EntriesProperties.FastPathReads | src/entries.ts:72-74 | Object.values and Object.entries list, name by name, what a property read gives |
| EntriesProperties.OwnEnumerableAt | src/entries.ts:72-74 | the i-th value Object.values lists belongs to the own enumerable property named by the i-th name Object.keys lists |
| EntriesProperties.OwnEntriesZip | src/entries.ts:96-98 | Object.entries pairs, position by position, what Object.keys and Object.values list |
| EntriesExamples.ObjectPrototypeExists | src/entries.ts:3 | a layer holding Object.prototype's names, none enumerable, exists, so the scenarios' assumption about the base is satisfiable |
| EntriesExamples.ForInQuietBase | src/entries.ts:16 | a last layer with nothing enumerable adds nothing to for…in |
| EntriesExamples.ForInModeOverBase | src/entries.ts:15-18 | over a chain ending in Object.prototype, `followProto` lists the for…in names of the nearer layers |
| EntriesExamples.DroppedBase | src/entries.ts:36-38 | names added and then all deleted leave the result as if never added |
| EntriesExamples.AllModeOverBase | src/entries.ts:19-39 | over a chain ending in Object.prototype, `all` lists the nearer layers' names minus Object.prototype's |
| EntriesExamples.EmptyObject | test/entries.spec.ts:6-9 | `keys({})` is `[]` |
| EntriesExamples.ObjectLiteral | test/entries.spec.ts:11-14 | `keys` of a five-property literal lists the names in declaration order |
| EntriesExamples.ClassicClass | test/entries.spec.ts:16-24 | with `followProto`, an own field then a prototype method give `["a", "b"]` |
| EntriesExamples.ClassicInheritance | test/entries.spec.ts:26-41 | with `followProto`, the fields then each prototype's enumerable methods, nearest first; sorted, the four names the test expects |
| EntriesExamples.ClassWithAll | test/entries.spec.ts:43-54 | with `all`, a class instance lists its field and its method, `constructor` dropped; for…in sees only the field |
| EntriesExamples.ClassInheritanceWithAll | test/entries.spec.ts:56-72 | with `all`, a derived class instance lists both fields and both methods, `constructor` dropped |
| GetTag.GetTagOf | src/predicates.ts:8-34 | defines what `getTag` returns: the nil tags; plain toString when no Symbol.toStringTag is reachable; a TypeError for Symbol and BigInt and for a read-only tag; otherwise the builtin tag; ReportsBuiltinTag and ThrowsExactly state its meaning |
| GetTag.GetTag | src/predicates.ts:8-34 | `getTag` returns what `GetTagOf` describes (nil tags, the builtin tag of an object, a TypeError when the mask cannot be written), and the object's own properties end exactly as they began |
| GetTag.TagOfObject | src/predicates.ts:12-33 | for an object: no tag gives plain toString, an unwritable tag throws, otherwise the builtin tag is reported and the own layer is restored |
| GetTag.Restore | src/predicates.ts:26-32 | writing the old own tag back, or deleting the slot the mask created, gives back the original own layer |
| GetTag.ObjectRef.SetTag | src/predicates.ts:19 | a strict-mode write of Symbol.toStringTag succeeds exactly when the reached property is writable, and then updates the own slot in place or appends one |
| GetTag.ObjectRef.DeleteTag | src/predicates.ts:30 | `delete` removes the own Symbol.toStringTag slot and nothing else |
| GetTag.RemoveKey | src/predicates.ts:30 | after the deletion no own property has the key |
| GetTag.MaskedTagIsUndefined | src/predicates.ts:19-25 | once masked, a read of the tag gives undefined, so toString falls back to the builtin tag |
| GetTag.WrittenKeepsIndex | src/predicates.ts:27-28 | masking an own tag keeps its position and writability, and writing the old value back is an exact round trip |
| GetTag.AppendedFound | src/predicates.ts:19 | a tag appended to a layer without one is found at the end |
| GetTag.RemoveAppended | src/predicates.ts:29-31 | deleting the appended tag gives back the layer that had none, a round trip |
| GetTag.ReportsBuiltinTag | src/predicates.ts:8-34 | whenever `getTag` returns for an object it returns `"[object " + builtinTag + "]"`, even when a string Symbol.toStringTag would make toString report the override |
| GetTag.ThrowsExactly | src/predicates.ts:18-23 | `getTag` throws exactly for Symbol and BigInt primitives and for objects whose reached tag is read-only |
| GetTag.NilTags | src/predicates.ts:9-11 | undefined and null give `"[object Undefined]"` and `"[object Null]"` |
| Predicates.GetTagSimple | src/predicates.ts:36-42 | `"null"` for null; for anything else the lower-cased tag name Object.prototype.toString reports |
| Predicates.IsNil | src/predicates.ts:113 | `value == null`: undefined or null (NilDiscriminators) |
| Predicates.IsExist | src/predicates.ts:110 | `value != null`, the negation of IsNil (NilDiscriminators) |
| Predicates.IsNull | src/predicates.ts:84 | `value === null` |
| Predicates.IsUndefined | src/predicates.ts:87 | `value === undefined` |
| Predicates.IsNumber | src/predicates.ts:61 | a Number value, `typeof value === "number"`: exactly the `Number` case |
| Predicates.IsInteger | src/predicates.ts:104 | Number.isInteger on the Integer/NonInteger abstraction: a Number in the `Integer` case |
| Predicates.IsBoolean | src/predicates.ts:213 | exactly the two boolean values |
| Predicates.IsSymbol | src/predicates.ts:229 | the simple tag is "symbol": every symbol (SymbolTag), never a BigInt (BigIntTagIsNotSymbol), and an object whose tag lower-cases to "symbol" |
| Predicates.IsPrimitive | src/predicates.ts:231-233 | nil, number, string, boolean or "symbol"-tagged; PrimitiveExactly states which values that is |
| Predicates.IsObject | src/predicates.ts:236 | the negation of IsPrimitive, so BigInts count as objects (PrimitiveExactly) |
| Predicates.IsEmptyObject | src/predicates.ts:238-239 | an "object" for which Object.keys lists nothing; EmptyObjectExactly states when that holds |
| Predicates.NilDiscriminators | src/predicates.ts:84-113 | `isNil` is `isNull` or `isUndefined`, `isExist` is its negation, and a nil value is primitive, not an object and not an empty object |
| Predicates.PrimitiveExactly | src/predicates.ts:229-236 | every non-object value is primitive except a BigInt; an object is primitive only when its tag lower-cases to "symbol" |
| Predicates.BigIntTagIsNotSymbol | src/predicates.ts:229 | the simple tag of a BigInt is not "symbol" |
| Predicates.SymbolTag | src/predicates.ts:229 | the simple tag of a symbol is "symbol" |
| Predicates.EmptyObjectExactly | src/predicates.ts:238-239 | `isEmptyObject` holds exactly for BigInts and for non-"symbol"-tagged objects without an own enumerable string-keyed property |
| Predicates.IsEmptyString | src/predicates.ts:116 | a string primitive matched by `/^\s*$/`; EmptyStringExactly states its meaning |
| Predicates.MatchesBlankExactly | src/predicates.ts:116 | `/^\s*$/` matches exactly the strings whose every character is whitespace |
| Predicates.EmptyStringExactly | src/predicates.ts:115-116 | `isEmptyString` is true exactly for whitespace-only strings, `""` included, and false for every non-string |
| Predicates.JsRemainder | src/predicates.ts:174-177 | JavaScript's `%` differs from the dividend by a multiple of the divisor, keeps the sign of the dividend and stays below the divisor in magnitude: the remainder of truncating division |
| Predicates.IsOdd | src/predicates.ts:174 | an integer whose JavaScript remainder by 2 is 1; OddAsWritten and NegativeOddIsNotOdd state what that admits |
| Predicates.IsEven | src/predicates.ts:177 | an integer whose JavaScript remainder by 2 is 0; EvenExactly states what that admits |
| Predicates.IsOddIntended | src/predicates.ts:173-174 | the corrected odd test, a non-zero remainder; OddIntendedExactly states its meaning |
| Predicates.OddAsWritten | src/predicates.ts:173-174 | as written, `isOdd` holds exactly for positive odd integers |
| Predicates.EvenExactly | src/predicates.ts:176-177 | `isEven` holds exactly for the even integers, negative ones included |
| Predicates.NegativeOddIsNotOdd | src/predicates.ts:174 | -3 is odd, but `isOdd(-3)` is false |
| Predicates.OddIntendedExactly | src/predicates.ts:173-177 | with a non-zero remainder test, odd holds exactly for odd integers, and every integer is exactly one of odd and even; non-integers are neither |
| Predicates.IndexOf | src/predicates.ts:203 | `indexOf` from a position returns the first occurrence at or after it, and -1 exactly when there is none |
| Predicates.SubstringFrom | src/predicates.ts:184-203 | defines the answer of `isSubstring`: a string, an offset adjusted (non-integer to 0, negative from the end) into `[0, length)`, and an occurrence at or after it |
| Predicates.IsSubstring | src/predicates.ts:184-204 | false for a non-string; a non-integer offset counts as 0, a negative one from the end; false outside `[0, length)`; otherwise true exactly when `substr` occurs at or after the offset |
| Predicates.EmptyStringHasNoSubstring | src/predicates.ts:191-201 | an empty string never contains anything, not even `""` |
| Predicates.SubstringExamples | src/predicates.ts:194-203 | a negative offset counts from the end, and an offset past the end gives false |
| Predicates.IsPrefix | src/predicates.ts:207 | as written: false unless the simple tag is "str", else whatever calling the value's `startsWith` gives, a TypeError included |
| Predicates.IsSuffix | src/predicates.ts:210 | as written: false unless the simple tag is "str", else whatever calling the value's `endsWith` gives, a TypeError included |
| Predicates.StringTag | src/predicates.ts:36-42 | the simple tag of every string primitive is "string" |
| Predicates.PrefixSuffixNeverHoldForStrings | src/predicates.ts:206-210 | as written, `isPrefix` and `isSuffix` are false for every string |
| Predicates.PrefixCounterexample | src/predicates.ts:207 | `"ab"` is a prefix of `"abc"`, yet `isPrefix("ab", "abc")` is false |
| Predicates.IsPrefixIntended | src/predicates.ts:206-207 | the corrected `isPrefix`, comparing the simple tag with "string" |
| Predicates.IsSuffixIntended | src/predicates.ts:209-210 | the corrected `isSuffix`, comparing the simple tag with "string" |
| Predicates.PrefixSuffixIntendedOnStrings | src/predicates.ts:206-210 | comparing the tag with "string", `isPrefix`/`isSuffix` on a string return exactly the prefix and suffix relations, and never throw |
| Predicates.Split | src/predicates.ts:245 | splitting on "." gives at least one segment, none containing the separator |
| Predicates.JoinSplit | src/predicates.ts:245 | joining the segments back with the separator gives the path again |
| Predicates.SplitJoin | src/predicates.ts:245 | splitting a join of separator-free segments gives those segments back |
| Predicates.PathDefined | src/predicates.ts:248-255 | defines the walk over the segments: true at the first empty segment or at the end, false at a primitive context or a key neither own nor inherited, a TypeError for `key in` a BigInt |
| Predicates.IsPropertyDefined | src/predicates.ts:242-256 | the loop of shifted segments returns what the walk `PathDefined` describes: true at the first empty segment or the end, false at a primitive context or a missing key |
| Predicates.EmptyPathDefined | src/predicates.ts:248 | the path `""` is defined on every value, null and undefined included |
| Predicates.SingleSegment | src/predicates.ts:248-253 | a one-segment path asks [[HasProperty]] of an object and is false for a primitive |
| Predicates.DefinedPrefix | src/predicates.ts:248-253 | every prefix of a defined segment list is defined |
| Predicates.PathPrefixDefined | src/predicates.ts:242-256 | `a.rest` defined makes `a` defined |
| Primitives.Noop | src/primitives.ts:1 | returns undefined whatever it is given |
| Primitives.Identity | src/primitives.ts:3 | returns its argument unchanged |
| Primitives.Truly | src/primitives.ts:5 | always true |
| Primitives.Falsely | src/primitives.ts:7 | always false |
| Primitives.Arrify | src/primitives.ts:9 | the result is always an array |
| Primitives.ArrifyContents | src/primitives.ts:9 | undefined gives an empty array; a non-array value, null included, gives a one-element array holding it; an array is returned itself |
| Primitives.SingletonNames | src/primitives.ts:9 | the one-element array lists exactly the index "0", holding the value |
| Primitives.ArrifyIdempotent | src/primitives.ts:9 | arrifying twice is arrifying once |
| Primitives.ArrifyListsValue | src/primitives.ts:9 | seen through `keys` and `values`, a wrapped value is `["0"]` and `[val]` |

## Left out

- Platform flags and `isNodejs`: they read the host process.
- The floating-point predicates are not modelled, because they depend on IEEE doubles and on string-to-number parsing. This covers `isNumeral`, `isNumeralInteger`, `isNumeralBigInt`, `isNan`, `isFinite`, `isSafeInteger`, `isInfinite`, `isFloat` and `isNegativeZero`.
- Non-integral numbers, NaN and the infinities are a single `NonInteger` case. `isInteger` (Number.isInteger) is modelled only as "the `Integer` case" (`IsInteger`); `isOdd`/`isEven` are false on `NonInteger` and nothing else looks further.
- `isPlainObject` and `isClass` depend on function source text and `instanceof`.
- The thin wrappers over host intrinsics are not modelled as exported predicates. This covers `isBuffer`, `isArrayBuffer`, `isArrayBufferView`, `isDate`, `isError`, `isMap`, `isSet`, `isRegexp`, `isAsyncFunction`, `isPromise`, `isFunction`, `isString` and `isPropertyOwned`. `isNumber` and `isSymbol` are modelled (`IsNumber`, `IsSymbol`) because `isPrimitive` uses them.
- Accessor properties, getters with side effects, Proxies and non-extensible objects are not modelled. A property read is a pure lookup along the chain.
- Symbol-keyed properties other than Symbol.toStringTag are absent: no listing function returns them.
- Boxing of primitives (ToObject) is a function parameter `toObject`, because the intrinsic wrapper objects are host state.
- `Array.isArray` is modelled as "an object whose builtin tag is Array".
- Predicates.GetTagSimple: `Lower` maps only the ASCII capitals A–Z. The builtin tags are ASCII, but a string-valued Symbol.toStringTag may not be: for `{[Symbol.toStringTag]: "Ärger"}` JavaScript gives `"ärger"` and the model `"Ärger"`. The results on tags with non-ASCII capitals (and so `isSymbol`, `isPrimitive`, `isObject` and `isEmptyObject` on such objects, when the full lower-casing would give "symbol") are not captured.
- Predicates.JsRemainder: stated for a positive divisor only, the only one the source uses.
- Entries.WalkChain: the source steps with the property read `obj = obj.__proto__`; the model steps to the next layer of the prototype chain, which is the same only when that read reaches Object.prototype's `__proto__` accessor at the end of the chain. Two kinds of input fall outside: a chain without Object.prototype (`a = Object.create(null); a.x = 1; b = Object.create(a); b.y = 2; c = Object.create(b); c.z = 3`, where the source stops after one pass with `["z", "y"]` and the model also lists `"x"`), and a nearer layer with an own data property `__proto__` (`JSON.parse('{"__proto__": {"evil": 1}}')`, where the source walks into `{evil: 1}` and returns `["evil"]`, the model `[]`). Following an arbitrary value, primitives included, would need boxing inside `_keys`.
- Entries.CollectKeys: in the full mode, the same restriction as Entries.WalkChain: a chain ending in Object.prototype and no nearer own `__proto__` data property.
- Entries.KeysSpec: the full mode is stated for such chains only, as for Entries.WalkChain.
- EntriesProperties.AllNamesExactly: the traversal it characterises steps along the prototype chain; on the two inputs under Entries.WalkChain the source's traversal meets other layers.
- EntriesProperties.FullModeExactly: "present along the prototype chain and not an Object.prototype name" is what the source lists only for chains ending in Object.prototype without a nearer own `__proto__` data property; the two inputs under Entries.WalkChain list otherwise.
- EntriesExamples.AllModeOverBase: the nearer layers are assumed not to own a `__proto__` data property; with one (the second input under Entries.WalkChain) the source follows its value instead.
- Predicates.IsSubstring: a Dafny string is a sequence of Unicode code points, while JavaScript's `length`, offsets and `indexOf` positions count UTF-16 code units. They agree only for strings without characters above U+FFFF: `isSubstring("x", "😀😀x", 3)` is true in JavaScript (length 5, `"x"` at 4) and false here (length 3). Lone surrogates cannot be represented.
- Predicates.SubstringFrom and Predicates.IndexOf: positions and lengths count code points, as for Predicates.IsSubstring.
- Entries.CollectKeys: the object is a value, so "the input is not mutated" holds by construction. The aliasing of `obj` with the caller's object is not modelled.
- Primitives.ArrifyContents: "the same array, not a copy" is stated as value equality, because objects in this module are values.
- EntriesExamples.ClassicClass: the scenario lemmas (this and the other five) take each layer through the names it holds, not through concrete property values. Object.prototype is any layer with its twelve names, none enumerable.
- GetTag.ObjectRef.SetTag: only data properties are modelled, so a setter or a non-extensible object on the [[Set]] path is not covered.
- `\s` is modelled with the WhiteSpace and LineTerminator code points of sections 12.2 and 12.3 of ECMA-262, with Zs as of Unicode 15.

## Findings

| source | as written | input that shows it | evidently intended | confidence | as-written member | corrected member |
|---|---|---|---|---|---|---|
| src/predicates.ts:207 | `getTagSimple(str) === "str"` | `isPrefix("ab", "abc")` is false | compare with `"string"`, so a string's prefixes are accepted | not executed | Predicates.PrefixCounterexample | Predicates.PrefixSuffixIntendedOnStrings |
| src/predicates.ts:210 | `getTagSimple(str) === "str"` | `isSuffix("bc", "abc")` is false | compare with `"string"`, so a string's suffixes are accepted | not executed | Predicates.PrefixSuffixNeverHoldForStrings | Predicates.PrefixSuffixIntendedOnStrings |
| src/predicates.ts:174 | `val % 2 === 1` | `isOdd(-3)` is false, since `-3 % 2` is `-1` | a non-zero remainder, so negative odd integers are odd | not executed | Predicates.NegativeOddIsNotOdd | Predicates.OddIntendedExactly |
