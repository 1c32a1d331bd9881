/**
  What the key-collection modes of src/entries.ts return, stated without
  reference to how they are computed, and how `values` and `entries` line up
  with `keys`.
 */
module EntriesProperties {
  import opened JsValues
  import opened InsertionSet
  import opened Entries
  import Predicates

  ghost predicate LayersDistinct(chain: seq<Layer>) {
    forall k :: 0 <= k < |chain| ==> DistinctKeys(chain[k])
  }

  // ---------------------------------------------------------------------
  // Own names
  // ---------------------------------------------------------------------

  lemma {:induction false} OwnNamesDistinct(l: Layer)
    requires DistinctKeys(l)
    ensures Distinct(OwnNames(l)) && Distinct(OwnEnumerableNames(l))
  {
    if l != [] {
      var rest := l[1..];
      assert DistinctKeys(rest) by {
        forall i, j | 0 <= i < j < |rest| ensures rest[i].key != rest[j].key {
          assert rest[i] == l[i + 1] && rest[j] == l[j + 1];
        }
      }
      OwnNamesDistinct(rest);
      OwnEnumerableMembers(rest);
      if l[0].key.Name? {
        var x := l[0].key.name;
        DistinctConcat([x], OwnNames(rest));
        if l[0].enumerable {
          DistinctConcat([x], OwnEnumerableNames(rest));
        }
      }
    }
  }

  /** A name is listed by Object.keys exactly when the own property under it
      is enumerable. */
  lemma OwnEnumerableExactly(l: Layer, x: string)
    requires DistinctKeys(l)
    ensures x in OwnEnumerableNames(l) <==> FindIn(l, Name(x)).Some? && l[FindIn(l, Name(x)).value].enumerable
  {
    OwnEnumerableMembers(l);
    if x in OwnEnumerableNames(l) {
      var j :| 0 <= j < |l| && l[j].key == Name(x) && l[j].enumerable;
      assert FindIn(l, Name(x)).value == j;
    }
  }

  /** The i-th value Object.values lists is the value of the own property
      named by the i-th name Object.keys lists. */
  lemma {:induction false} OwnEnumerableAt(l: Layer, i: nat) returns (j: nat)
    requires i < |OwnEnumerableNames(l)|
    ensures j < |l| && l[j].key == Name(OwnEnumerableNames(l)[i]) && l[j].enumerable
    ensures OwnEnumerableValues(l)[i] == l[j].value
  {
    var rest := l[1..];
    if l[0].key.Name? && l[0].enumerable {
      if i == 0 {
        j := 0;
      } else {
        var j' := OwnEnumerableAt(rest, i - 1);
        j := j' + 1;
      }
    } else {
      j := OwnEnumerableAt(rest, i);
      j := j + 1;
    }
  }

  /** Object.entries pairs what Object.keys and Object.values list. */
  lemma {:induction false} OwnEntriesZip(l: Layer)
    ensures forall i :: 0 <= i < |OwnEnumerableEntries(l)| ==>
      OwnEnumerableEntries(l)[i] == (OwnEnumerableNames(l)[i], OwnEnumerableValues(l)[i])
  {
    if l != [] {
      OwnEntriesZip(l[1..]);
    }
  }

  // ---------------------------------------------------------------------
  // for…in
  // ---------------------------------------------------------------------

  /** for…in visits a name exactly when the property a read of that name
      reaches along the chain is enumerable (and no nearer layer, listed in
      `shadow`, owns it). */
  lemma {:induction false} ForInExactly(chain: seq<Layer>, shadow: seq<string>, x: string)
    requires LayersDistinct(chain)
    ensures x in ForIn(chain, shadow) <==>
      x !in shadow && Lookup(chain, Name(x)).Some? && Lookup(chain, Name(x)).value.enumerable
  {
    if chain != [] {
      var l := chain[0];
      assert LayersDistinct(chain[1..]) by {
        forall k | 0 <= k < |chain[1..]| ensures DistinctKeys(chain[1..][k]) {
          assert chain[1..][k] == chain[k + 1];
        }
      }
      assert DistinctKeys(l) by { assert l == chain[0]; }
      ForInExactly(chain[1..], shadow + OwnNames(l), x);
      OwnEnumerableExactly(l, x);
    }
  }

  /** for…in never visits a name twice, nor one a nearer layer owns. */
  lemma {:induction false} ForInDistinct(chain: seq<Layer>, shadow: seq<string>)
    requires LayersDistinct(chain)
    ensures Distinct(ForIn(chain, shadow))
    ensures forall x :: x in ForIn(chain, shadow) ==> x !in shadow
  {
    if chain != [] {
      var l := chain[0];
      assert LayersDistinct(chain[1..]) by {
        forall k | 0 <= k < |chain[1..]| ensures DistinctKeys(chain[1..][k]) {
          assert chain[1..][k] == chain[k + 1];
        }
      }
      assert DistinctKeys(l) by { assert l == chain[0]; }
      var here := Without(OwnEnumerableNames(l), shadow);
      var later := ForIn(chain[1..], shadow + OwnNames(l));
      ForInDistinct(chain[1..], shadow + OwnNames(l));
      OwnNamesDistinct(l);
      OwnEnumerableMembers(l);
      forall x | x in here ensures x !in later {
        var j :| 0 <= j < |l| && l[j].key == Name(x) && l[j].enumerable;
        assert x in OwnNames(l);
      }
      WithoutDistinct(OwnEnumerableNames(l), shadow);
      DistinctConcat(here, later);
    }
  }

  // ---------------------------------------------------------------------
  // The full traversal
  // ---------------------------------------------------------------------

  lemma {:induction false} AllNamesExactly(chain: seq<Layer>, x: string)
    ensures x in AllNames(chain) <==> exists k :: 0 <= k < |chain| && FindIn(chain[k], Name(x)).Some?
  {
    if x in AllNames(chain) {
      var k := AllNamesWitness(chain, x);
    }
    if k :| 0 <= k < |chain| && FindIn(chain[k], Name(x)).Some? {
      AllNamesComplete(chain, x, k);
    }
  }

  /** A name of the full traversal comes from some link. */
  lemma {:induction false} AllNamesWitness(chain: seq<Layer>, x: string) returns (k: nat)
    requires x in AllNames(chain)
    ensures k < |chain| && FindIn(chain[k], Name(x)).Some?
  {
    var init, last := chain[..|chain| - 1], chain[|chain| - 1];
    if x in OwnNames(last) {
      k := |chain| - 1;
    } else {
      k := AllNamesWitness(init, x);
      assert chain[k] == init[k];
    }
  }

  /** Every name of every link is in the full traversal. */
  lemma {:induction false} AllNamesComplete(chain: seq<Layer>, x: string, k: nat)
    requires k < |chain| && FindIn(chain[k], Name(x)).Some?
    ensures x in AllNames(chain)
  {
    var init, last := chain[..|chain| - 1], chain[|chain| - 1];
    if k < |init| {
      assert chain[k] == init[k];
      AllNamesComplete(init, x, k);
    } else {
      assert x in OwnNames(last);
    }
  }

  lemma {:induction false} LookupFinds(chain: seq<Layer>, key: Key)
    ensures Lookup(chain, key).Some? <==> exists k :: 0 <= k < |chain| && FindIn(chain[k], key).Some?
  {
    if chain != [] {
      LookupFinds(chain[1..], key);
      assert forall k :: 1 <= k < |chain| ==> chain[k] == chain[1..][k - 1];
    }
  }

  // ---------------------------------------------------------------------
  // _keys, mode by mode
  // ---------------------------------------------------------------------

  /** Without followProto: Object.keys or Object.getOwnPropertyNames. */
  lemma OwnModesExactly(o: JsObject, enumOnly: bool, x: string)
    requires DistinctKeys(o.own)
    ensures enumOnly ==> (x in KeysSpec(o, enumOnly, false) <==>
      FindIn(o.own, Name(x)).Some? && o.own[FindIn(o.own, Name(x)).value].enumerable)
    ensures !enumOnly ==> (x in KeysSpec(o, enumOnly, false) <==> FindIn(o.own, Name(x)).Some?)
  {
    OwnEnumerableExactly(o.own, x);
  }

  /** With followProto and enumOnly: the names for…in visits, in its order. */
  lemma ForInModeExactly(o: JsObject, x: string)
    requires WellFormed(o)
    ensures KeysSpec(o, true, true) == ForInNames(o)
    ensures x in KeysSpec(o, true, true) <==>
      HasProperty(o, Name(x)) && Lookup(Chain(o), Name(x)).value.enumerable
  {
    ForInDistinct(Chain(o), []);
    DedupDistinct(ForInNames(o));
    ForInExactly(Chain(o), [], x);
  }

  /** With followProto and not enumOnly: every name found anywhere along the
      chain, each once in first-seen order, except the names of
      Object.prototype, even where the object defines one itself. */
  lemma FullModeExactly(o: JsObject, x: string)
    ensures x in KeysSpec(o, false, true) <==> HasProperty(o, Name(x)) && x !in ObjectOwnProps
    ensures Distinct(KeysSpec(o, false, true))
  {
    DedupProperties(AllNames(Chain(o)));
    WithoutDistinct(Dedup(AllNames(Chain(o))), ObjectOwnProps);
    AllNamesExactly(Chain(o), x);
    LookupFinds(Chain(o), Name(x));
  }

  /** No mode lists a name twice. */
  lemma KeysDistinct(o: JsObject, enumOnly: bool, followProto: bool)
    requires WellFormed(o)
    ensures Distinct(KeysSpec(o, enumOnly, followProto))
  {
    assert DistinctKeys(o.own) by { assert Chain(o)[0] == o.own; }
    OwnNamesDistinct(o.own);
    DedupProperties(ForInNames(o));
    DedupProperties(AllNames(Chain(o)));
    WithoutDistinct(Dedup(AllNames(Chain(o))), ObjectOwnProps);
  }

  // ---------------------------------------------------------------------
  // keys, values, entries
  // ---------------------------------------------------------------------

  /** null and undefined give empty lists, whatever the options. */
  lemma NilGivesEmpty(v: Value, opts: Options, toObject: Value -> JsObject)
    requires Predicates.IsNil(v)
    ensures KeysOf(v, opts, toObject) == [] && ValuesOf(v, opts, toObject) == [] && EntriesOf(v, opts, toObject) == []
  {
  }

  /** With no options, the three helpers are Object.keys, Object.values and
      Object.entries of the (boxed) value, and empty for nil. */
  lemma DefaultsAreOwnEnumerable(v: Value, toObject: Value -> JsObject)
    ensures KeysOf(v, Defaults, toObject) == if Predicates.IsNil(v) then [] else OwnEnumerableNames(Subject(v, toObject).own)
    ensures ValuesOf(v, Defaults, toObject) == if Predicates.IsNil(v) then [] else OwnEnumerableValues(Subject(v, toObject).own)
    ensures EntriesOf(v, Defaults, toObject) == if Predicates.IsNil(v) then [] else OwnEnumerableEntries(Subject(v, toObject).own)
  {
  }

  /** The base names: twelve distinct names, among them `constructor` and
      `__proto__`. */
  lemma ObjectPropsListed()
    ensures |ObjectOwnProps| == 12 && Distinct(ObjectOwnProps)
    ensures "constructor" in ObjectOwnProps && "__proto__" in ObjectOwnProps && "toString" in ObjectOwnProps
  {
    assert ObjectOwnProps[0] == "constructor" && ObjectOwnProps[10] == "__proto__" && ObjectOwnProps[8] == "toString";
  }

  /** `all: true` means enumOnly = false, followProto = true. */
  lemma AllOverrides(v: Value, opts: Options, toObject: Value -> JsObject)
    requires opts.all
    ensures KeysOf(v, opts, toObject) == KeysOf(v, Options(false, true, false), toObject)
    ensures ValuesOf(v, opts, toObject) == ValuesOf(v, Options(false, true, false), toObject)
    ensures EntriesOf(v, opts, toObject) == EntriesOf(v, Options(false, true, false), toObject)
  {
  }

  /** `values` lists, for each name `keys` lists, the value read under it;
      the fast path through Object.values agrees. */
  lemma ValuesFollowKeys(v: Value, opts: Options, toObject: Value -> JsObject)
    requires WellFormed(Subject(v, toObject))
    ensures |ValuesOf(v, opts, toObject)| == |KeysOf(v, opts, toObject)|
    ensures forall i :: 0 <= i < |ValuesOf(v, opts, toObject)| ==>
      ValuesOf(v, opts, toObject)[i] == Get(Subject(v, toObject), Name(KeysOf(v, opts, toObject)[i]))
  {
    if !Predicates.IsNil(v) && FastPath(opts) {
      FastPathReads(Subject(v, toObject));
    }
  }

  /** `entries` pairs each name `keys` lists with the value `values` lists
      at the same position. */
  lemma EntriesPairKeysWithValues(v: Value, opts: Options, toObject: Value -> JsObject)
    requires WellFormed(Subject(v, toObject))
    ensures |EntriesOf(v, opts, toObject)| == |KeysOf(v, opts, toObject)|
    ensures forall i :: 0 <= i < |EntriesOf(v, opts, toObject)| ==>
      EntriesOf(v, opts, toObject)[i] == (KeysOf(v, opts, toObject)[i], ValuesOf(v, opts, toObject)[i])
  {
    if !Predicates.IsNil(v) && FastPath(opts) {
      FastPathReads(Subject(v, toObject));
    }
  }

  /** Object.values and Object.entries read what a property read would. */
  lemma FastPathReads(o: JsObject)
    requires WellFormed(o)
    ensures forall i :: 0 <= i < |OwnEnumerableNames(o.own)| ==>
      OwnEnumerableValues(o.own)[i] == Get(o, Name(OwnEnumerableNames(o.own)[i])) &&
      OwnEnumerableEntries(o.own)[i] == (OwnEnumerableNames(o.own)[i], Get(o, Name(OwnEnumerableNames(o.own)[i])))
  {
    assert DistinctKeys(o.own) by { assert Chain(o)[0] == o.own; }
    forall i | 0 <= i < |OwnEnumerableNames(o.own)|
      ensures OwnEnumerableValues(o.own)[i] == Get(o, Name(OwnEnumerableNames(o.own)[i]))
      ensures OwnEnumerableEntries(o.own)[i] == (OwnEnumerableNames(o.own)[i], Get(o, Name(OwnEnumerableNames(o.own)[i])))
    {
      var j := OwnEnumerableAt(o.own, i);
      OwnEntriesZip(o.own);
      assert FindIn(o.own, Name(OwnEnumerableNames(o.own)[i])) == Some(j);
    }
  }
}
