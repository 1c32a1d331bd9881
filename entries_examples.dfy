/**
  The scenarios of test/entries.spec.ts, evaluated through `KeysOf`. Only the
  names of the properties matter to `keys`, so each object is given by the
  names on each layer of its chain: what is own, what each prototype holds,
  and which of those names are enumerable. The chain always ends in
  Object.prototype.
 */
module EntriesExamples {
  import opened JsValues
  import opened InsertionSet
  import opened Entries

  /** Object.prototype: every one of its names, none enumerable. */
  predicate IsObjectPrototype(base: Layer) {
    OwnNames(base) == ObjectOwnProps && OwnEnumerableNames(base) == []
  }

  /** Properties as a class body or a built-in creates them: not enumerable. */
  function Hiddens(names: seq<string>, fn: Value): Layer {
    if names == [] then [] else [Prop(Name(names[0]), false, true, fn)] + Hiddens(names[1..], fn)
  }

  lemma {:induction false} HiddensNames(names: seq<string>, fn: Value)
    ensures OwnNames(Hiddens(names, fn)) == names && OwnEnumerableNames(Hiddens(names, fn)) == []
  {
    if names != [] {
      var l := Hiddens(names, fn);
      assert l[1..] == Hiddens(names[1..], fn);
      HiddensNames(names[1..], fn);
    }
  }

  /** Object.prototype as the engine builds it, up to the values. */
  lemma ObjectPrototypeExists(fn: Value)
    ensures IsObjectPrototype(Hiddens(ObjectOwnProps, fn))
  {
    HiddensNames(ObjectOwnProps, fn);
  }

  // ---------------------------------------------------------------------
  // Evaluation steps
  // ---------------------------------------------------------------------

  /** A last layer with nothing enumerable adds nothing to for…in. */
  lemma {:induction false} ForInQuietBase(chain: seq<Layer>, base: Layer, shadow: seq<string>)
    requires OwnEnumerableNames(base) == []
    ensures ForIn(chain + [base], shadow) == ForIn(chain, shadow)
  {
    if chain == [] {
      assert ForIn([base][1..], shadow + OwnNames(base)) == [];
    } else {
      assert (chain + [base])[1..] == chain[1..] + [base];
      ForInQuietBase(chain[1..], base, shadow + OwnNames(chain[0]));
    }
  }

  /** `keys(t, { followProto: true })` over a chain ending in
      Object.prototype: for…in over the nearer layers, first-seen. */
  lemma ForInModeOverBase(own: Layer, protos: seq<Layer>, base: Layer, toObject: Value -> JsObject)
    requires IsObjectPrototype(base)
    ensures KeysOf(Object(JsObject(own, protos + [base], "Object")), Options(true, true, false), toObject)
         == Dedup(ForIn([own] + protos, []))
  {
    var t := JsObject(own, protos + [base], "Object");
    assert Chain(t) == ([own] + protos) + [base];
    ForInQuietBase([own] + protos, base, []);
  }

  /** Adding names that are all dropped afterwards changes nothing. */
  lemma {:induction false} DroppedBase(s: seq<string>, ys: seq<string>, drop: seq<string>)
    requires forall y :: y in ys ==> y in drop
    ensures Without(AddAll(s, ys), drop) == Without(s, drop)
  {
    if ys != [] {
      var init, y := ys[..|ys| - 1], ys[|ys| - 1];
      DroppedBase(s, init, drop);
      var t := AddAll(s, init);
      if y !in t {
        WithoutConcat(t, [y], drop);
        assert Without([y], drop) == [];
      }
    }
  }

  lemma {:induction false} WithoutConcat(a: seq<string>, b: seq<string>, drop: seq<string>)
    ensures Without(a + b, drop) == Without(a, drop) + Without(b, drop)
  {
    if a == [] {
      assert a + b == b;
    } else {
      assert (a + b)[0] == a[0] && (a + b)[1..] == a[1..] + b;
      WithoutConcat(a[1..], b, drop);
    }
  }

  /** `keys(t, { all: true })` over a chain ending in Object.prototype: the
      names of the nearer layers, first-seen, minus those of
      Object.prototype. */
  lemma AllModeOverBase(own: Layer, protos: seq<Layer>, base: Layer, toObject: Value -> JsObject)
    requires IsObjectPrototype(base)
    ensures KeysOf(Object(JsObject(own, protos + [base], "Object")), Options(true, false, true), toObject)
         == Without(Dedup(AllNames([own] + protos)), ObjectOwnProps)
  {
    var t := JsObject(own, protos + [base], "Object");
    assert Chain(t) == ([own] + protos) + [base];
    FullOverBase([own] + protos, base);
  }

  /** The names of Object.prototype, collected last, are all dropped again. */
  lemma FullOverBase(chain: seq<Layer>, base: Layer)
    requires IsObjectPrototype(base)
    ensures Without(Dedup(AllNames(chain + [base])), ObjectOwnProps) == Without(Dedup(AllNames(chain)), ObjectOwnProps)
  {
    assert (chain + [base])[..|chain + [base]| - 1] == chain;
    AddAllConcat([], AllNames(chain), ObjectOwnProps);
    DroppedBase(Dedup(AllNames(chain)), ObjectOwnProps, ObjectOwnProps);
  }

  lemma AllNamesOfTwo(own: Layer, proto: Layer)
    ensures AllNames([own] + [proto]) == OwnNames(own) + OwnNames(proto)
  {
    var chain := [own] + [proto];
    calc {
      AllNames(chain);
    == { assert chain[..|chain| - 1] == [own] && chain[|chain| - 1] == proto; }
      AllNames([own]) + OwnNames(proto);
    == { assert [own][..0] == []; assert AllNames([own]) == OwnNames(own); }
      OwnNames(own) + OwnNames(proto);
    }
  }

  lemma AllNamesOfThree(own: Layer, bProto: Layer, aProto: Layer)
    ensures AllNames([own] + [bProto, aProto]) == OwnNames(own) + OwnNames(bProto) + OwnNames(aProto)
  {
    var chain := [own] + [bProto, aProto];
    assert chain[..|chain| - 1] == [own] + [bProto] && chain[|chain| - 1] == aProto;
    assert AllNames(chain) == AllNames([own] + [bProto]) + OwnNames(aProto);
    AllNamesOfTwo(own, bProto);
  }

  /** The first step of for…in. */
  lemma ForInHead(l: Layer, rest: seq<Layer>, shadow: seq<string>)
    ensures ForIn([l] + rest, shadow) == Without(OwnEnumerableNames(l), shadow) + ForIn(rest, shadow + OwnNames(l))
  {
    assert ([l] + rest)[1..] == rest;
  }

  lemma ForInOfTwo(own: Layer, proto: Layer)
    ensures ForIn([own] + [proto], [])
         == Without(OwnEnumerableNames(own), []) + Without(OwnEnumerableNames(proto), OwnNames(own))
  {
    ForInHead(own, [proto], []);
    assert [] + OwnNames(own) == OwnNames(own);
    ForInHead(proto, [], OwnNames(own));
    assert [proto] + [] == [proto];
  }

  lemma ForInOfThree(own: Layer, bProto: Layer, aProto: Layer)
    ensures ForIn([own] + [bProto, aProto], [])
         == Without(OwnEnumerableNames(own), []) + (Without(OwnEnumerableNames(bProto), OwnNames(own))
            + Without(OwnEnumerableNames(aProto), OwnNames(own) + OwnNames(bProto)))
  {
    ForInFirst(own, [bProto, aProto]);
    ForInOfPair(bProto, aProto, OwnNames(own));
  }

  /** The first step of for…in from an empty shadow. */
  lemma ForInFirst(own: Layer, protos: seq<Layer>)
    ensures ForIn([own] + protos, []) == Without(OwnEnumerableNames(own), []) + ForIn(protos, OwnNames(own))
  {
    calc {
      ForIn([own] + protos, []);
    == { ForInHead(own, protos, []); }
      Without(OwnEnumerableNames(own), []) + ForIn(protos, [] + OwnNames(own));
    == { assert [] + OwnNames(own) == OwnNames(own); }
      Without(OwnEnumerableNames(own), []) + ForIn(protos, OwnNames(own));
    }
  }

  lemma ForInOfPair(b: Layer, a: Layer, shadow: seq<string>)
    ensures ForIn([b, a], shadow)
         == Without(OwnEnumerableNames(b), shadow) + Without(OwnEnumerableNames(a), shadow + OwnNames(b))
  {
    assert [b] + [a] == [b, a];
    ForInHead(b, [a], shadow);
    ForInHead(a, [], shadow + OwnNames(b));
    assert [a] + [] == [a];
  }

  // ---------------------------------------------------------------------
  // The scenarios
  // ---------------------------------------------------------------------

  /** `keys({})` is empty. */
  lemma EmptyObject(base: Layer, toObject: Value -> JsObject)
    requires IsObjectPrototype(base)
    ensures KeysOf(Object(JsObject([], [base], "Object")), Defaults, toObject) == []
  {
  }

  /** `keys({ a: 1, b: 2, c: 3, d: () => 4, e: { f: 5 } })` lists the
      literal's names in order. The scenario is near immediate once the
      requires gives the names; the substance is in
      EntriesProperties.OwnEnumerableExactly and ForInExactly. */
  lemma ObjectLiteral(own: Layer, base: Layer, toObject: Value -> JsObject)
    requires OwnEnumerableNames(own) == ["a", "b", "c", "d", "e"]
    requires IsObjectPrototype(base)
    ensures KeysOf(Object(JsObject(own, [base], "Object")), Defaults, toObject) == ["a", "b", "c", "d", "e"]
  {
  }

  /** A constructor function whose prototype gets `b` by assignment: for…in
      reaches the own `a` and the inherited, enumerable `b`. */
  lemma ClassicClass(own: Layer, proto: Layer, base: Layer, toObject: Value -> JsObject)
    requires OwnNames(own) == ["a"] && OwnEnumerableNames(own) == ["a"]
    requires OwnNames(proto) == ["constructor", "b"] && OwnEnumerableNames(proto) == ["b"]
    requires IsObjectPrototype(base)
    ensures KeysOf(Object(JsObject(own, [proto, base], "Object")), Options(true, true, false), toObject) == ["a", "b"]
  {
    assert [proto, base] == [proto] + [base];
    ForInModeOverBase(own, [proto], base, toObject);
    ForInOfTwo(own, proto);
    ClassicClassNames();
  }

  lemma ClassicClassNames()
    ensures Dedup(Without(["a"], []) + Without(["b"], ["a"])) == ["a", "b"]
  {
    WithoutNothing(["a"]);
    assert Without(["b"], ["a"]) == ["b"];
    DedupDistinct(["a"] + ["b"]);
  }

  /** util.inherits(B, A) links B.prototype to A.prototype; for…in lists the
      own fields, then B's method, then A's. */
  lemma ClassicInheritance(own: Layer, bProto: Layer, aProto: Layer, base: Layer, toObject: Value -> JsObject)
    requires OwnNames(own) == ["aProp", "bProp"] && OwnEnumerableNames(own) == ["aProp", "bProp"]
    requires OwnNames(bProto) == ["constructor", "bMethod"] && OwnEnumerableNames(bProto) == ["bMethod"]
    requires OwnNames(aProto) == ["constructor", "aMethod"] && OwnEnumerableNames(aProto) == ["aMethod"]
    requires IsObjectPrototype(base)
    ensures KeysOf(Object(JsObject(own, [bProto, aProto, base], "Object")), Options(true, true, false), toObject)
         == ["aProp", "bProp", "bMethod", "aMethod"]
  {
    assert [bProto, aProto, base] == [bProto, aProto] + [base];
    ForInModeOverBase(own, [bProto, aProto], base, toObject);
    ClassicInheritanceVisited(own, bProto, aProto);
  }

  /** for…in over the object, B.prototype and A.prototype, before first-seen
      deduplication drops nothing. */
  lemma ClassicInheritanceVisited(own: Layer, bProto: Layer, aProto: Layer)
    requires OwnNames(own) == ["aProp", "bProp"] && OwnEnumerableNames(own) == ["aProp", "bProp"]
    requires OwnNames(bProto) == ["constructor", "bMethod"] && OwnEnumerableNames(bProto) == ["bMethod"]
    requires OwnNames(aProto) == ["constructor", "aMethod"] && OwnEnumerableNames(aProto) == ["aMethod"]
    ensures Dedup(ForIn([own] + [bProto, aProto], [])) == ["aProp", "bProp", "bMethod", "aMethod"]
  {
    ForInOfThree(own, bProto, aProto);
    ClassicInheritanceNames();
  }

  lemma ClassicInheritanceNames()
    ensures Dedup(Without(["aProp", "bProp"], []) + (Without(["bMethod"], ["aProp", "bProp"])
                  + Without(["aMethod"], ["aProp", "bProp"] + ["constructor", "bMethod"])))
         == ["aProp", "bProp", "bMethod", "aMethod"]
  {
    WithoutNothing(["aProp", "bProp"]);
    InheritedMethodsShown();
    assert ["aProp", "bProp"] + ["constructor", "bMethod"] == ["aProp", "bProp", "constructor", "bMethod"];
    assert ["aProp", "bProp"] + (["bMethod"] + ["aMethod"]) == ["aProp", "bProp", "bMethod", "aMethod"];
    DedupDistinct(["aProp", "bProp", "bMethod", "aMethod"]);
  }

  lemma InheritedMethodsShown()
    ensures Without(["bMethod"], ["aProp", "bProp"]) == ["bMethod"]
    ensures Without(["aMethod"], ["aProp", "bProp", "constructor", "bMethod"]) == ["aMethod"]
  {
  }

  /** Class methods are not enumerable, so for…in misses `b` and only
      `all: true` finds it; the prototype's `constructor` is dropped as a
      name of Object.prototype. */
  lemma ClassWithAll(own: Layer, proto: Layer, base: Layer, toObject: Value -> JsObject)
    requires OwnNames(own) == ["a"] && OwnEnumerableNames(own) == ["a"]
    requires OwnNames(proto) == ["constructor", "b"] && OwnEnumerableNames(proto) == []
    requires IsObjectPrototype(base)
    ensures KeysOf(Object(JsObject(own, [proto, base], "Object")), Options(true, false, true), toObject) == ["a", "b"]
    ensures KeysOf(Object(JsObject(own, [proto, base], "Object")), Options(true, true, false), toObject) == ["a"]
  {
    var t := Object(JsObject(own, [proto, base], "Object"));
    assert [proto, base] == [proto] + [base];
    var found := AllNames([own] + [proto]);
    AllModeOverBase(own, [proto], base, toObject);
    assert KeysOf(t, Options(true, false, true), toObject) == Without(Dedup(found), ObjectOwnProps);
    AllNamesOfTwo(own, proto);
    assert found == ["a"] + ["constructor", "b"];
    ClassNamesAll();
    var visited := ForIn([own] + [proto], []);
    ForInModeOverBase(own, [proto], base, toObject);
    assert KeysOf(t, Options(true, true, false), toObject) == Dedup(visited);
    ForInOfTwo(own, proto);
    assert visited == Without(["a"], []) + Without([], ["a"]);
    ClassNamesForIn();
  }

  lemma ClassNamesAll()
    ensures Without(Dedup(["a"] + ["constructor", "b"]), ObjectOwnProps) == ["a", "b"]
  {
    assert ["a"] + ["constructor", "b"] == ["a", "constructor", "b"];
    DedupDistinct(["a", "constructor", "b"]);
    ClassDropsObjectNames();
  }

  lemma ClassNamesForIn()
    ensures Dedup(Without(["a"], []) + Without([], ["a"])) == ["a"]
  {
    WithoutNothing(["a"]);
    assert ["a"] + [] == ["a"];
    DedupDistinct(["a"]);
  }

  /** `class B extends A`: fields in initialisation order, then each
      prototype's methods, nearest first. */
  lemma ClassInheritanceWithAll(own: Layer, bProto: Layer, aProto: Layer, base: Layer, toObject: Value -> JsObject)
    requires OwnNames(own) == ["aProp", "bProp"] && OwnEnumerableNames(own) == ["aProp", "bProp"]
    requires OwnNames(bProto) == ["constructor", "bMethod"] && OwnEnumerableNames(bProto) == []
    requires OwnNames(aProto) == ["constructor", "aMethod"] && OwnEnumerableNames(aProto) == []
    requires IsObjectPrototype(base)
    ensures KeysOf(Object(JsObject(own, [bProto, aProto, base], "Object")), Options(true, false, true), toObject)
         == ["aProp", "bProp", "bMethod", "aMethod"]
  {
    assert [bProto, aProto, base] == [bProto, aProto] + [base];
    AllModeOverBase(own, [bProto, aProto], base, toObject);
    AllNamesOfThree(own, bProto, aProto);
    InheritanceNamesAll();
  }

  lemma InheritanceNamesAll()
    ensures Without(Dedup(["aProp", "bProp"] + ["constructor", "bMethod"] + ["constructor", "aMethod"]), ObjectOwnProps)
         == ["aProp", "bProp", "bMethod", "aMethod"]
  {
    var firsts := ["aProp", "bProp", "constructor", "bMethod"];
    assert ["aProp", "bProp"] + ["constructor", "bMethod"] + ["constructor", "aMethod"]
        == firsts + ["constructor", "aMethod"];
    DedupDistinct(firsts);
    AddAllConcat([], firsts, ["constructor", "aMethod"]);
    assert ["constructor", "aMethod"][..1] == ["constructor"] && ["constructor"][..0] == [];
    assert AddAll(firsts, ["constructor"]) == Insert(AddAll(firsts, []), "constructor") == firsts;
    assert AddAll(firsts, ["constructor", "aMethod"]) == Insert(firsts, "aMethod");
    assert Insert(firsts, "aMethod") == firsts + ["aMethod"];
    InheritanceDropsObjectNames();
  }

  /** Dropping the names of Object.prototype from the test's names. */
  lemma ClassDropsObjectNames()
    ensures Without(["a", "constructor", "b"], ObjectOwnProps) == ["a", "b"]
  {
  }

  lemma InheritanceDropsObjectNames()
    ensures Without(["aProp", "bProp", "constructor", "bMethod"] + ["aMethod"], ObjectOwnProps)
         == ["aProp", "bProp", "bMethod", "aMethod"]
  {
    TestNamesAgainstObjectNames();
    DropsThird("aProp", "bProp", "constructor", "bMethod", "aMethod", ObjectOwnProps);
  }

  lemma DropsThird(p: string, q: string, c: string, m: string, n: string, drop: seq<string>)
    requires c in drop && p !in drop && q !in drop && m !in drop && n !in drop
    ensures Without([p, q, c, m] + [n], drop) == [p, q, m, n]
  {
    assert [p, q, c, m] + [n] == [p] + ([q] + ([c] + ([m] + ([n] + []))));
    var s4, s3 := [n] + [], [m] + ([n] + []);
    var s2 := [c] + s3;
    var s1 := [q] + s2;
    assert Without([], drop) == [];
    WithoutStep(n, [], drop);
    assert Without(s4, drop) == [n];
    WithoutStep(m, s4, drop);
    assert Without(s3, drop) == [m, n];
    WithoutStep(c, s3, drop);
    assert Without(s2, drop) == [m, n];
    WithoutStep(q, s2, drop);
    assert Without(s1, drop) == [q, m, n];
    WithoutStep(p, s1, drop);
  }

  lemma WithoutStep(x: string, rest: seq<string>, drop: seq<string>)
    ensures Without([x] + rest, drop) == (if x in drop then [] else [x]) + Without(rest, drop)
  {
    assert ([x] + rest)[0] == x && ([x] + rest)[1..] == rest;
  }

  /** Which of the test's names Object.prototype has. */
  lemma TestNamesAgainstObjectNames()
    ensures "constructor" in ObjectOwnProps
    ensures "aProp" !in ObjectOwnProps && "bProp" !in ObjectOwnProps
    ensures "aMethod" !in ObjectOwnProps && "bMethod" !in ObjectOwnProps
  {
    assert ObjectOwnProps[0] == "constructor";
  }
}
