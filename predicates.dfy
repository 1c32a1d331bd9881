/**
  The type predicates of src/predicates.ts that carry logic of their own:
  tag slicing, the value discriminators, whitespace strings, parity,
  substring search with a signed offset, prefix/suffix tests and dotted
  property paths.
 */
module Predicates {
  import opened JsValues

  // ---------------------------------------------------------------------
  // Tags
  // ---------------------------------------------------------------------

  /** `getTagSimple`: the raw "[object X]" tag with its first 8 characters and
      its last one dropped, lower-cased; "null" for null. */
  function GetTagSimple(value: Value): (r: string)
    ensures value.Null? ==> r == "null"
    ensures !value.Null? ==> r == Lower(TagName(value))
  {
    var rawTag := ObjectToString(value);
    if value.Null? then "null" else Lower(rawTag[8..|rawTag| - 1])
  }

  // ---------------------------------------------------------------------
  // Discriminators
  // ---------------------------------------------------------------------

  /** `value == null`. */
  predicate IsNil(value: Value) { value.Undefined? || value.Null? }

  /** `value != null`. */
  predicate IsExist(value: Value) { !(value == Undefined || value == Null) }

  predicate IsNull(value: Value) { value == Null }

  predicate IsUndefined(value: Value) { value == Undefined }

  /** `value === true || value === false`. */
  predicate IsBoolean(value: Value) { value == Bool(true) || value == Bool(false) }

  /** `typeof value === "number"`. */
  predicate IsNumber(value: Value) { value.Number? }

  predicate IsSymbol(value: Value) { GetTagSimple(value) == "symbol" }

  predicate IsPrimitive(value: Value) {
    IsNil(value) || IsNumber(value) || value.Str? || IsBoolean(value) || IsSymbol(value)
  }

  predicate IsObject(value: Value) { !IsPrimitive(value) }

  /** `isObject(obj) && Object.keys(obj).length === 0`. Object.keys boxes a
      BigInt into a wrapper that has no own properties. */
  predicate IsEmptyObject(value: Value) {
    IsObject(value) && (value.Object? ==> OwnEnumerableNames(value.obj.own) == [])
  }

  lemma NilDiscriminators(value: Value)
    ensures IsNil(value) <==> IsNull(value) || IsUndefined(value)
    ensures IsExist(value) <==> !IsNil(value)
    ensures IsNil(value) ==> IsPrimitive(value) && !IsObject(value) && !IsEmptyObject(value)
  {
  }

  /** Which values count as primitive: all but BigInts and objects, and an
      object too when its tag reads "symbol" once lower-cased. */
  lemma PrimitiveExactly(value: Value)
    ensures IsPrimitive(value) <==> match value
      case BigInt(_) => false
      case Object(_) => Lower(TagName(value)) == "symbol"
      case _ => true
  {
    match value
    case BigInt(_) =>
      BigIntTagIsNotSymbol(value);
    case Symbol(_) =>
      SymbolTag(value);
    case _ =>
  }

  lemma BigIntTagIsNotSymbol(value: Value)
    requires value.BigInt?
    ensures GetTagSimple(value) != "symbol"
  {
    assert GetTagSimple(value)[0] == LowerChar('B') == 'b';
  }

  lemma SymbolTag(value: Value)
    requires value.Symbol?
    ensures GetTagSimple(value) == "symbol"
  {
    calc {
      GetTagSimple(value);
    ==
      Lower(TagName(value));
    == { assert TagName(value) == "Symbol"; }
      Lower("Symbol");
    == { LowerSpelled("Symbol", "symbol"); }
      "symbol";
    }
  }

  /** Object.keys of an object lists nothing exactly when no own string key
      is enumerable. */
  lemma EmptyObjectExactly(value: Value)
    ensures IsEmptyObject(value) <==>
      value.BigInt? ||
      (value.Object? && Lower(TagName(value)) != "symbol" &&
       forall p :: p in value.obj.own ==> !(p.key.Name? && p.enumerable))
  {
    PrimitiveExactly(value);
    if value.Object? {
      var l := value.obj.own;
      OwnEnumerableMembers(l);
      if exists p :: p in l && p.key.Name? && p.enumerable {
        var p :| p in l && p.key.Name? && p.enumerable;
        var i :| 0 <= i < |l| && l[i] == p;
        assert p.key.name in OwnEnumerableNames(l);
      }
      if OwnEnumerableNames(l) != [] {
        var x := OwnEnumerableNames(l)[0];
        assert x in OwnEnumerableNames(l);
      }
    }
  }

  // ---------------------------------------------------------------------
  // Whitespace strings
  // ---------------------------------------------------------------------

  /** The characters `\s` matches: WhiteSpace and LineTerminator
      (sections 12.2 and 12.3 of ECMA-262, Zs as of Unicode 15). */
  predicate IsWhitespace(c: char) {
    var n := c as int;
    n == 0x09 || n == 0x0A || n == 0x0B || n == 0x0C || n == 0x0D || n == 0x20 ||
    n == 0xA0 || n == 0x1680 || (0x2000 <= n <= 0x200A) || n == 0x2028 || n == 0x2029 ||
    n == 0x202F || n == 0x205F || n == 0x3000 || n == 0xFEFF
  }

  /** `/^\s*$/.test(s)`. */
  predicate MatchesBlank(s: string) {
    s == [] || (IsWhitespace(s[0]) && MatchesBlank(s[1..]))
  }

  /** `isEmptyString`. */
  predicate IsEmptyString(value: Value) {
    value.Str? && MatchesBlank(value.s)
  }

  lemma {:induction false} MatchesBlankExactly(s: string)
    ensures MatchesBlank(s) <==> forall i :: 0 <= i < |s| ==> IsWhitespace(s[i])
  {
    if s != [] {
      MatchesBlankExactly(s[1..]);
      assert forall i :: 1 <= i < |s| ==> s[i] == s[1..][i - 1];
    }
  }

  /** True exactly for strings of whitespace only, the empty one included;
      false for every non-string. */
  lemma EmptyStringExactly(value: Value)
    ensures IsEmptyString(value) <==> value.Str? && forall i :: 0 <= i < |value.s| ==> IsWhitespace(value.s[i])
    ensures IsEmptyString(Str(""))
  {
    if value.Str? {
      MatchesBlankExactly(value.s);
    }
  }

  // ---------------------------------------------------------------------
  // Parity
  // ---------------------------------------------------------------------

  /** `Number.isInteger`. */
  predicate IsInteger(value: Value) { value.Number? && value.n.Integer? }

  /** JavaScript's `%`: the remainder of truncating division, with the sign
      of the dividend. */
  function JsRemainder(a: int, b: int): (r: int)
    requires b > 0
    ensures a >= 0 ==> 0 <= r < b
    ensures a < 0 ==> -b < r <= 0
    ensures (a - r) % b == 0
  {
    var m := if a < 0 then -a else a;
    RemainderLeavesMultiple(m, b);
    if a < 0 then -(m % b) else m % b
  }

  /** Taking away the remainder leaves a multiple of the divisor, and so
      does negating that. */
  lemma RemainderLeavesMultiple(m: int, b: int)
    requires b > 0
    ensures (m - m % b) % b == 0 && (-(m - m % b)) % b == 0
  {
    var q := m / b;
    assert m - m % b == q * b;
    MultipleOfDivisor(q, b);
    assert -(q * b) == (-q) * b;
    MultipleOfDivisor(-q, b);
  }

  /** A multiple of `b` leaves no remainder. */
  lemma MultipleOfDivisor(q: int, b: int)
    requires b > 0
    ensures (q * b) % b == 0
  {
    var x := q * b;
    var d, r := x / b, x % b;
    var k := q - d;
    assert r == k * b by {
      assert x == d * b + r;
      assert q * b - d * b == (q - d) * b;
    }
    assert k * b == (k - 1) * b + b && k * b == (k + 1) * b - b;
    assert k >= 1 ==> (k - 1) * b >= 0;
    assert k <= -1 ==> (k + 1) * b <= 0;
  }

  /** `isOdd`, as written: `isInteger(val) && val % 2 === 1`. */
  predicate IsOdd(value: Value) { IsInteger(value) && JsRemainder(value.n.i, 2) == 1 }

  /** `isEven`: `isInteger(val) && val % 2 === 0`. */
  predicate IsEven(value: Value) { IsInteger(value) && JsRemainder(value.n.i, 2) == 0 }

  /** As written, only the positive odd integers are odd: a negative odd
      integer leaves the remainder -1. */
  lemma OddAsWritten(value: Value)
    ensures IsOdd(value) <==> IsInteger(value) && value.n.i > 0 && value.n.i % 2 == 1
  {
  }

  lemma EvenExactly(value: Value)
    ensures IsEven(value) <==> IsInteger(value) && value.n.i % 2 == 0
  {
  }

  /** The counterexample: -3 is odd, `isOdd(-3)` is false. */
  lemma NegativeOddIsNotOdd()
    ensures !IsOdd(Number(Integer(-3))) && (-3) % 2 == 1
  {
    assert JsRemainder(-3, 2) == -1;
  }

  /** `isOdd` as evidently intended: a non-zero remainder. */
  predicate IsOddIntended(value: Value) { IsInteger(value) && JsRemainder(value.n.i, 2) != 0 }

  /** Every integer is exactly one of odd and even; non-integers are neither. */
  lemma OddIntendedExactly(value: Value)
    ensures IsOddIntended(value) <==> IsInteger(value) && value.n.i % 2 == 1
    ensures IsInteger(value) ==> (IsOddIntended(value) <==> !IsEven(value))
    ensures !IsInteger(value) ==> !IsOddIntended(value) && !IsEven(value)
  {
  }

  // ---------------------------------------------------------------------
  // Substrings
  // ---------------------------------------------------------------------

  predicate OccursAt(s: string, sub: string, k: int) {
    0 <= k && k + |sub| <= |s| && s[k..k + |sub|] == sub
  }

  /** String.prototype.indexOf from position `from` (StringIndexOf,
      section 6.1.4.1 of ECMA-262): the first occurrence at or after `from`,
      or -1. */
  function IndexOf(s: string, sub: string, from: nat): (r: int)
    requires from <= |s|
    ensures r == -1 || (from <= r && OccursAt(s, sub, r))
    ensures r != -1 ==> forall k :: from <= k < r ==> !OccursAt(s, sub, k)
    ensures r == -1 <==> forall k :: from <= k ==> !OccursAt(s, sub, k)
    decreases |s| - from
  {
    if OccursAt(s, sub, from) then from
    else if from == |s| then -1
    else IndexOf(s, sub, from + 1)
  }

  /** What `isSubstring(substr, str, offset)` answers: `str` must be a string;
      a non-integer offset counts as 0 and a negative one from the end; the
      adjusted offset must fall inside the string, and `substr` must occur
      at or after it. */
  predicate SubstringFrom(substr: string, str: Value, offset: Value) {
    str.Str? &&
    var n := |str.s|;
    var given := if IsInteger(offset) then offset.n.i else 0;
    var start := if given < 0 then n + given else given;
    0 <= start < n && exists k :: start <= k <= n && OccursAt(str.s, substr, k)
  }

  /** `isSubstring`: the offset is adjusted step by step, then searched from. */
  method IsSubstring(substr: string, str: Value, offset: Value) returns (r: bool)
    ensures r == SubstringFrom(substr, str, offset)
  {
    if !str.Str? {
      return false;
    }
    var length := |str.s|;
    var start := if IsInteger(offset) then offset.n.i else 0;
    if start < 0 {
      start := length + start;
    }
    if start < 0 || start >= length {
      return false;
    }
    r := IndexOf(str.s, substr, start) != -1;
  }

  /** An empty `str` never contains anything, not even "". */
  lemma EmptyStringHasNoSubstring(substr: string, offset: Value)
    ensures !SubstringFrom(substr, Str(""), offset)
  {
  }

  lemma SubstringExamples()
    ensures SubstringFrom("lo", Str("hello"), Number(Integer(-3)))
    ensures !SubstringFrom("lo", Str("hello"), Number(Integer(10)))
  {
    assert OccursAt("hello", "lo", 3);
  }

  // ---------------------------------------------------------------------
  // Prefixes and suffixes
  // ---------------------------------------------------------------------

  /** `isPrefix`, as written: `getTagSimple(str) === "str" && str.startsWith(prefix)`.
      `startsWith` stands for reading and calling `str.startsWith` on a value
      that is not a string primitive: that runs the value's own method, or
      throws a TypeError when there is nothing callable under the name. */
  function IsPrefix(prefix: string, str: Value, startsWith: (Value, string) -> Result<bool>): Result<bool> {
    if GetTagSimple(str) != "str" then Ok(false) else startsWith(str, prefix)
  }

  /** `isSuffix`, as written, with `endsWith` standing for `str.endsWith(suffix)`. */
  function IsSuffix(suffix: string, str: Value, endsWith: (Value, string) -> Result<bool>): Result<bool> {
    if GetTagSimple(str) != "str" then Ok(false) else endsWith(str, suffix)
  }

  /** The simple tag of every string. */
  lemma StringTag(s: string)
    ensures GetTagSimple(Str(s)) == "string"
  {
    calc {
      GetTagSimple(Str(s));
    ==
      Lower(TagName(Str(s)));
    == { assert TagName(Str(s)) == "String"; }
      Lower("String");
    == { LowerSpelled("String", "string"); }
      "string";
    }
  }

  /** Lowering a tag is checked character by character. */
  lemma LowerSpelled(s: string, r: string)
    requires |s| == |r| && forall i :: 0 <= i < |s| ==> LowerChar(s[i]) == r[i]
    ensures Lower(s) == r
  {
  }

  /** As written, neither ever holds of a string: its simple tag is "string". */
  lemma PrefixSuffixNeverHoldForStrings(p: string, s: string, call: (Value, string) -> Result<bool>)
    ensures IsPrefix(p, Str(s), call) == Ok(false) && IsSuffix(p, Str(s), call) == Ok(false)
  {
    StringTag(s);
  }

  /** The counterexample: "ab" is a prefix of "abc". */
  lemma PrefixCounterexample(call: (Value, string) -> Result<bool>)
    ensures "ab" <= "abc" && IsPrefix("ab", Str("abc"), call) == Ok(false)
  {
    PrefixSuffixNeverHoldForStrings("ab", "abc", call);
  }

  predicate EndsWith(s: string, suffix: string) {
    |suffix| <= |s| && s[|s| - |suffix|..] == suffix
  }

  /** `isPrefix` as evidently intended: compare the simple tag with "string". */
  function IsPrefixIntended(prefix: string, str: Value, startsWith: (Value, string) -> Result<bool>): Result<bool> {
    if GetTagSimple(str) != "string" then Ok(false)
    else if str.Str? then Ok(prefix <= str.s)
    else startsWith(str, prefix)
  }

  function IsSuffixIntended(suffix: string, str: Value, endsWith: (Value, string) -> Result<bool>): Result<bool> {
    if GetTagSimple(str) != "string" then Ok(false)
    else if str.Str? then Ok(EndsWith(str.s, suffix))
    else endsWith(str, suffix)
  }

  /** Intended: on a string, exactly the prefix and suffix relations, and
      never an exception. */
  lemma PrefixSuffixIntendedOnStrings(p: string, s: string, call: (Value, string) -> Result<bool>)
    ensures IsPrefixIntended(p, Str(s), call) == Ok(|p| <= |s| && s[..|p|] == p)
    ensures IsSuffixIntended(p, Str(s), call) == Ok(|p| <= |s| && s[|s| - |p|..] == p)
  {
    StringTag(s);
    assert IsPrefixIntended(p, Str(s), call) == Ok(p <= s);
  }

  // ---------------------------------------------------------------------
  // Dotted property paths
  // ---------------------------------------------------------------------

  /** `s.split(sep)` for a one-character separator. */
  function Split(s: string, sep: char): (r: seq<string>)
    ensures |r| >= 1
    ensures forall i :: 0 <= i < |r| ==> sep !in r[i]
  {
    if s == [] then [""]
    else
      var rest := Split(s[1..], sep);
      if s[0] == sep then [""] + rest else [[s[0]] + rest[0]] + rest[1..]
  }

  /** `parts.join(sep)`. */
  function Join(parts: seq<string>, sep: char): string
    requires |parts| >= 1
  {
    if |parts| == 1 then parts[0] else parts[0] + [sep] + Join(parts[1..], sep)
  }

  lemma {:induction false} JoinSplit(s: string, sep: char)
    ensures Join(Split(s, sep), sep) == s
  {
    if s != [] {
      var rest := Split(s[1..], sep);
      JoinSplit(s[1..], sep);
      if s[0] != sep {
        if |rest| > 1 {
          assert Join(rest, sep) == rest[0] + [sep] + Join(rest[1..], sep);
        }
      }
    }
  }

  lemma {:induction false} SplitJoin(parts: seq<string>, sep: char)
    requires |parts| >= 1
    requires forall i :: 0 <= i < |parts| ==> sep !in parts[i]
    ensures Split(Join(parts, sep), sep) == parts
  {
    if |parts| == 1 {
      SplitPlain(parts[0], sep);
    } else {
      SplitJoin(parts[1..], sep);
      SplitConcat(parts[0], Join(parts[1..], sep), sep);
    }
  }

  lemma {:induction false} SplitPlain(s: string, sep: char)
    requires sep !in s
    ensures Split(s, sep) == [s]
  {
    if s != [] {
      assert sep !in s[1..];
      SplitPlain(s[1..], sep);
      assert [s[0]] + s[1..] == s;
    }
  }

  /** Splitting `a + sep + b`, where `a` holds no separator. */
  lemma {:induction false} SplitConcat(a: string, b: string, sep: char)
    requires sep !in a
    ensures Split(a + [sep] + b, sep) == [a] + Split(b, sep)
  {
    if a == [] {
      assert [] + [sep] + b == [sep] + b;
      assert ([sep] + b)[1..] == b;
    } else {
      SplitConcat(a[1..], b, sep);
      assert (a + [sep] + b)[1..] == a[1..] + [sep] + b;
      assert [a[0]] + a[1..] == a;
    }
  }

  /** The walk of `isPropertyDefined` over the remaining path segments. It
      stops with true at the first empty segment or when none are left. */
  function PathDefined(context: Value, keys: seq<string>): Result<bool>
    decreases |keys|
  {
    if keys == [] || keys[0] == "" then Ok(true)
    else if !IsObject(context) then Ok(false)
    else if !context.Object? then Throws(TypeError)  // `key in 10n`
    else if !HasProperty(context.obj, Name(keys[0])) then Ok(false)
    else PathDefined(Get(context.obj, Name(keys[0])), keys[1..])
  }

  /** `isPropertyDefined`: the segments are shifted off one at a time. */
  method IsPropertyDefined(obj: Value, path: string) returns (r: Result<bool>)
    ensures r == PathDefined(obj, Split(path, '.'))
  {
    var context := obj;
    var keys := Split(path, '.');
    while keys != [] && keys[0] != ""
      invariant PathDefined(obj, Split(path, '.')) == PathDefined(context, keys)
      decreases |keys|
    {
      var key := keys[0];
      keys := keys[1..];
      if !IsObject(context) {
        return Ok(false);
      }
      if !context.Object? {
        return Throws(TypeError);
      }
      if !HasProperty(context.obj, Name(key)) {
        return Ok(false);
      }
      context := Get(context.obj, Name(key));
    }
    r := Ok(true);
  }

  /** The empty path is defined on everything, null and undefined included. */
  lemma EmptyPathDefined(obj: Value)
    ensures PathDefined(obj, Split("", '.')) == Ok(true)
  {
  }

  /** A path of one segment asks [[HasProperty]] of an object. */
  lemma SingleSegment(obj: Value, key: string)
    requires key != [] && '.' !in key
    ensures IsObject(obj) && obj.Object? ==> PathDefined(obj, Split(key, '.')) == Ok(HasProperty(obj.obj, Name(key)))
    ensures !IsObject(obj) ==> PathDefined(obj, Split(key, '.')) == Ok(false)
  {
    SplitPlain(key, '.');
  }

  /** Every prefix of a defined path is defined: `a.b` defined makes `a` defined. */
  lemma {:induction false} DefinedPrefix(context: Value, keys: seq<string>, more: seq<string>)
    requires PathDefined(context, keys + more) == Ok(true)
    ensures PathDefined(context, keys) == Ok(true)
    decreases |keys|
  {
    if keys != [] && keys[0] != "" {
      var all := keys + more;
      assert all[0] == keys[0] && all[1..] == keys[1..] + more;
      assert context.Object? && HasProperty(context.obj, Name(keys[0]));
      var next := Get(context.obj, Name(keys[0]));
      assert PathDefined(context, all) == PathDefined(next, all[1..]);
      DefinedPrefix(next, keys[1..], more);
    }
  }

  lemma PathPrefixDefined(obj: Value, p: string, q: string)
    requires '.' !in p
    requires PathDefined(obj, Split(p + "." + q, '.')) == Ok(true)
    ensures PathDefined(obj, Split(p, '.')) == Ok(true)
  {
    SplitConcat(p, q, '.');
    SplitPlain(p, '.');
    DefinedPrefix(obj, [p], Split(q, '.'));
  }
}
