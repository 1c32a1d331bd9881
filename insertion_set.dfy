/**
  A JavaScript Set of property names: a collection without duplicates that
  remembers insertion order, so that spreading it (`[...set]`) lists the
  elements in the order they were first added.
 */
module InsertionSet {

  predicate Distinct(s: seq<string>) {
    forall i, j :: 0 <= i < j < |s| ==> s[i] != s[j]
  }

  /** The contents after Set.prototype.add: unchanged when present, else appended. */
  function Insert(s: seq<string>, x: string): seq<string> {
    if x in s then s else s + [x]
  }

  /** The contents after adding each element of `xs` in turn. */
  function AddAll(s: seq<string>, xs: seq<string>): seq<string> {
    if xs == [] then s else Insert(AddAll(s, xs[..|xs| - 1]), xs[|xs| - 1])
  }

  /** `xs` with later repetitions dropped: first-seen order. */
  function Dedup(xs: seq<string>): seq<string> {
    AddAll([], xs)
  }

  /** `s` without the elements of `drop`, order kept. */
  function Without(s: seq<string>, drop: seq<string>): (r: seq<string>)
    ensures forall y {:trigger y in r} :: y in r <==> y in s && y !in drop
  {
    if s == [] then []
    else
      var rest := Without(s[1..], drop);
      assert forall y :: y in s[1..] ==> y in s;
      (if s[0] in drop then [] else [s[0]]) + rest
  }

  /** Dropping elements keeps a sequence free of repetitions. */
  lemma {:induction false} WithoutDistinct(s: seq<string>, drop: seq<string>)
    requires Distinct(s)
    ensures Distinct(Without(s, drop))
  {
    if s != [] {
      WithoutDistinct(s[1..], drop);
      assert s[0] !in s[1..];
      var head := if s[0] in drop then [] else [s[0]];
      DistinctConcat(head, Without(s[1..], drop));
    }
  }

  /** The contents after Set.prototype.delete. */
  function Remove(s: seq<string>, x: string): seq<string> {
    Without(s, [x])
  }

  lemma {:induction false} AddAllMembers(s: seq<string>, xs: seq<string>)
    ensures forall y :: y in AddAll(s, xs) <==> y in s || y in xs
  {
    if xs != [] {
      var init := xs[..|xs| - 1];
      AddAllMembers(s, init);
      assert xs == init + [xs[|xs| - 1]];
    }
  }

  lemma {:induction false} AddAllDistinct(s: seq<string>, xs: seq<string>)
    requires Distinct(s)
    ensures Distinct(AddAll(s, xs))
  {
    if xs != [] {
      AddAllDistinct(s, xs[..|xs| - 1]);
    }
  }

  lemma DedupProperties(xs: seq<string>)
    ensures Distinct(Dedup(xs))
    ensures forall y :: y in Dedup(xs) <==> y in xs
  {
    AddAllDistinct([], xs);
    AddAllMembers([], xs);
  }

  /** Adding `xs` then `ys` is adding `xs + ys`. */
  lemma {:induction false} AddAllConcat(s: seq<string>, xs: seq<string>, ys: seq<string>)
    ensures AddAll(s, xs + ys) == AddAll(AddAll(s, xs), ys)
  {
    if ys == [] {
      assert xs + ys == xs;
    } else {
      var init := ys[..|ys| - 1];
      AddAllConcat(s, xs, init);
      assert (xs + ys)[..|xs + ys| - 1] == xs + init;
    }
  }

  /** Adding elements that are all present already changes nothing. */
  lemma {:induction false} AddAllPresent(s: seq<string>, ys: seq<string>)
    requires forall y :: y in ys ==> y in s
    ensures AddAll(s, ys) == s
  {
    if ys != [] {
      AddAllPresent(s, ys[..|ys| - 1]);
      assert ys[|ys| - 1] in ys;
    }
  }

  /** A sequence without repetitions is its own first-seen order. */
  lemma {:induction false} DedupDistinct(xs: seq<string>)
    requires Distinct(xs)
    ensures Dedup(xs) == xs
  {
    if xs != [] {
      var init := xs[..|xs| - 1];
      DedupDistinct(init);
      assert xs[|xs| - 1] !in init;
      assert xs == init + [xs[|xs| - 1]];
    }
  }

  /** Deleting one more name is dropping one more name. */
  lemma {:induction false} RemoveWithout(s: seq<string>, drop: seq<string>, x: string)
    ensures Remove(Without(s, drop), x) == Without(s, drop + [x])
  {
    if s != [] {
      var w, w' := Without(s, drop), Without(s[1..], drop);
      RemoveWithout(s[1..], drop, x);
      if s[0] in drop {
        assert w == w';
        assert s[0] in drop + [x];
      } else {
        assert w == [s[0]] + w' && w[0] == s[0] && w[1..] == w';
        assert Without(w, [x]) == (if s[0] == x then [] else [s[0]]) + Without(w', [x]);
        assert (s[0] in drop + [x]) == (s[0] == x);
      }
    }
  }

  lemma DistinctConcat(a: seq<string>, b: seq<string>)
    requires Distinct(a) && Distinct(b)
    requires forall x :: x in a ==> x !in b
    ensures Distinct(a + b)
  {
    forall i, j | 0 <= i < j < |a + b|
      ensures (a + b)[i] != (a + b)[j]
    {
      if j >= |a| && i < |a| {
        assert (a + b)[i] in a && (a + b)[j] in b;
      }
    }
  }

  /** The Set object: its contents in insertion order. */
  class JsSet {
    var items: seq<string>

    constructor ()
      ensures items == []
    {
      items := [];
    }

    method Add(x: string)
      modifies this
      ensures items == Insert(old(items), x)
    {
      if x !in items {
        items := items + [x];
      }
    }

    method Delete(x: string)
      modifies this
      ensures items == Remove(old(items), x)
    {
      items := Remove(items, x);
    }
  }
}
