/**
 * JavaScript values as the JSON decoder hands them to the front end, and the
 * few JavaScript coercions the todo screen relies on: truthiness, property
 * lookup, object spread, string conversion and ASCII lower-casing.
 *
 * An object is the sequence of its own properties in enumeration order
 * (the order `Object.keys` and `Object.values` report); a decoded object has
 * unique keys, which `WellFormed` states.
 */
module Json {
  import opened Wrappers

  datatype Value =
    | Null
    | Bool(b: bool)
    | Num(n: int)
    | Str(s: string)
    | Arr(elems: seq<Value>)
    | Obj(fields: seq<(string, Value)>)

  /** The own properties of an object, in enumeration order. */
  type Fields = seq<(string, Value)>

  // ---------------------------------------------------------------------------
  // Coercions

  /** `Boolean(v)`: null, false, 0 and "" are falsy, every object is truthy. */
  predicate Truthy(v: Value)
    ensures !Truthy(v) <==> v in [Null, Bool(false), Num(0), Str("")]
  {
    match v
    case Null => false
    case Bool(b) => b
    case Num(n) => n != 0
    case Str(s) => s != ""
    case Arr(_) => true
    case Obj(_) => true
  }

  /** `Boolean(x)` for a property that may be missing: `undefined` is falsy. */
  predicate TruthyProp(p: Option<Value>) {
    p.Some? && Truthy(p.value)
  }

  /** `v && typeof v === "object"`: a non-null object, arrays included. */
  predicate IsObjectLike(v: Value) {
    v.Arr? || v.Obj?
  }

  // ---------------------------------------------------------------------------
  // Objects as property sequences

  function KeysOf(fields: Fields): set<string> {
    set i | 0 <= i < |fields| :: fields[i].0
  }

  predicate UniqueKeys(fields: Fields) {
    forall i, j | 0 <= i < j < |fields| :: fields[i].0 != fields[j].0
  }

  /** Every object inside `v`, at any depth, has unique keys. */
  predicate WellFormed(v: Value) {
    match v
    case Arr(es) => forall i | 0 <= i < |es| :: WellFormed(es[i])
    case Obj(fs) => UniqueKeys(fs) && forall i | 0 <= i < |fs| :: WellFormed(fs[i].1)
    case _ => true
  }

  /** `obj[key]` on an object: the value of the first property named `key`. */
  function Get(fields: Fields, key: string): (r: Option<Value>)
    ensures r.None? <==> key !in KeysOf(fields)
    ensures r.Some? ==> exists i | 0 <= i < |fields| :: fields[i] == (key, r.value)
  {
    if fields == [] then None
    else if fields[0].0 == key then Some(fields[0].1)
    else
      var r := Get(fields[1..], key);
      assert KeysOf(fields) == {fields[0].0} + KeysOf(fields[1..]) by {
        forall k ensures k in KeysOf(fields) <==> k == fields[0].0 || k in KeysOf(fields[1..]) {
          if k in KeysOf(fields) && k != fields[0].0 {
            var i :| 0 <= i < |fields| && fields[i].0 == k;
            assert fields[1..][i - 1].0 == k;
          }
        }
      }
      if r.Some? then
        var i :| 0 <= i < |fields[1..]| && fields[1..][i] == (key, r.value);
        assert fields[i + 1] == (key, r.value);
        r
      else r
  }

  /** `Object.values(obj)`: the property values, in enumeration order. */
  function Values(fields: Fields): (vs: seq<Value>)
    ensures |vs| == |fields|
    ensures forall i | 0 <= i < |fields| :: vs[i] == fields[i].1
  {
    if fields == [] then [] else [fields[0].1] + Values(fields[1..])
  }

  /**
   * `{...fields, [key]: v}`: every property is copied in order; an existing
   * property named `key` keeps its place and takes the new value, otherwise
   * the property is appended.
   */
  function Set(fields: Fields, key: string, v: Value): (r: Fields)
    ensures |r| == if key in KeysOf(fields) then |fields| else |fields| + 1
    ensures key !in KeysOf(fields) ==> r == fields + [(key, v)]
  {
    if fields == [] then [(key, v)]
    else if fields[0].0 == key then [(key, v)] + fields[1..]
    else
      KeysOfCons(fields[0], fields[1..]);
      [fields[0]] + Set(fields[1..], key, v)
  }

  /** After `Set`, the property `key` reads `v` and every other property reads as before. */
  lemma {:induction false} SetGet(fields: Fields, key: string, v: Value, k: string)
    ensures Get(Set(fields, key, v), k) == if k == key then Some(v) else Get(fields, k)
  {
    if fields != [] && fields[0].0 != key {
      SetGet(fields[1..], key, v, k);
    }
  }

  /** `SetGet` for every property name at once. */
  lemma {:induction false} SetGetAll(fields: Fields, key: string, v: Value)
    ensures forall k :: Get(Set(fields, key, v), k) == if k == key then Some(v) else Get(fields, k)
  {
    forall k { SetGet(fields, key, v, k); }
  }

  /** `Set` adds `key` to the keys and keeps them unique. */
  lemma {:induction false} SetKeys(fields: Fields, key: string, v: Value)
    ensures KeysOf(Set(fields, key, v)) == KeysOf(fields) + {key}
    ensures UniqueKeys(fields) ==> UniqueKeys(Set(fields, key, v))
  {
    if fields == [] {
      assert KeysOf([(key, v)]) == {key} by { KeysOfCons((key, v), []); }
    } else if fields[0].0 == key {
      KeysOfCons((key, v), fields[1..]);
      KeysOfCons(fields[0], fields[1..]);
      var r := Set(fields, key, v);
      if UniqueKeys(fields) {
        forall i, j | 0 <= i < j < |r| ensures r[i].0 != r[j].0 {
          assert r[j] == fields[j];
          if i > 0 { assert r[i] == fields[i]; }
        }
      }
    } else {
      var rest := Set(fields[1..], key, v);
      SetKeys(fields[1..], key, v);
      KeysOfCons(fields[0], fields[1..]);
      KeysOfCons(fields[0], rest);
      var r := Set(fields, key, v);
      assert r == [fields[0]] + rest;
      if UniqueKeys(fields) {
        assert UniqueKeys(fields[1..]) by {
          forall i, j | 0 <= i < j < |fields[1..]| ensures fields[1..][i].0 != fields[1..][j].0 {
            assert fields[1..][i] == fields[i + 1] && fields[1..][j] == fields[j + 1];
          }
        }
        forall i, j | 0 <= i < j < |r| ensures r[i].0 != r[j].0 {
          if i == 0 {
            assert r[j].0 in KeysOf(rest) by { assert rest[j - 1] == r[j]; }
            assert fields[0].0 !in KeysOf(fields[1..]);
          } else {
            assert r[i] == rest[i - 1] && r[j] == rest[j - 1];
          }
        }
      }
    }
  }

  lemma KeysOfCons(f: (string, Value), fields: Fields)
    ensures KeysOf([f] + fields) == {f.0} + KeysOf(fields)
  {
    var all := [f] + fields;
    assert all[0] == f;
    forall k | k in KeysOf(all) ensures k in {f.0} + KeysOf(fields) {
      var i :| 0 <= i < |all| && all[i].0 == k;
      if i > 0 { assert fields[i - 1].0 == k; }
    }
    forall k | k in KeysOf(fields) ensures k in KeysOf(all) {
      var i :| 0 <= i < |fields| && fields[i].0 == k;
      assert all[i + 1].0 == k;
    }
  }

  // ---------------------------------------------------------------------------
  // Numbers and strings

  function DigitChar(d: nat): (c: char)
    requires d < 10
    ensures '0' <= c <= '9'
  {
    ('0' as int + d) as char
  }

  predicate IsDigits(s: string) {
    forall i | 0 <= i < |s| :: '0' <= s[i] <= '9'
  }

  /** The number a string of decimal digits denotes, read most significant digit first. */
  function DigitsValue(s: string): nat
    requires IsDigits(s)
  {
    if s == [] then 0 else DigitsValue(s[..|s| - 1]) * 10 + (s[|s| - 1] as int - '0' as int)
  }

  /**
   * `r` is how `String(i)` spells the integer `i`: a minus sign exactly for a
   * negative `i`, then the decimal digits of its magnitude with no leading zero.
   */
  predicate DecimalSpelling(r: string, i: int) {
    && |r| > 0
    && (r[0] == '-' <==> i < 0)
    && var digits := if i < 0 then r[1..] else r;
       && digits != []
       && IsDigits(digits)
       && DigitsValue(digits) == (if i < 0 then -i else i)
       && (|digits| > 1 ==> digits[0] != '0')
  }

  /** The decimal spelling of a natural number, as `String(n)` writes it. */
  function NatToString(n: nat): (r: string)
    ensures 1 <= |r|
    ensures n < 10 <==> |r| == 1
    ensures IsDigits(r)
    ensures r[|r| - 1] == DigitChar(n % 10)
    ensures DigitsValue(r) == n
    ensures r[0] == '0' <==> n == 0
  {
    if n < 10 then [DigitChar(n)]
    else
      var r := NatToString(n / 10) + [DigitChar(n % 10)];
      assert r[..|r| - 1] == NatToString(n / 10);
      r
  }

  function IntToString(i: int): (r: string)
    ensures DecimalSpelling(r, i)
  {
    if i < 0 then
      var r := "-" + NatToString(-i);
      assert r[1..] == NatToString(-i);
      r
    else NatToString(i)
  }

  /** Distinct numbers are spelt differently. */
  lemma NatToStringInjective(a: nat, b: nat)
    requires NatToString(a) == NatToString(b)
    ensures a == b
  {
  }

  /** A spelling denotes one integer only, so distinct integers are spelt differently. */
  lemma IntToStringInjective(a: int, b: int)
    requires IntToString(a) == IntToString(b)
    ensures a == b
  {
  }

  /**
   * `String(v)`, as a template literal `${v}` applies it: arrays join their
   * elements with commas (null elements give the empty string), plain objects
   * give "[object Object]".
   */
  function ToJsString(v: Value): (r: string)
    ensures v.Null? ==> r == "null"
    ensures v.Bool? ==> r == (if v.b then "true" else "false")
    ensures v.Num? ==> DecimalSpelling(r, v.n)
    ensures v.Str? ==> r == v.s
    ensures v.Arr? && v.elems == [] ==> r == ""
    ensures v.Arr? && |v.elems| == 1 ==> r == (if v.elems[0].Null? then "" else ToJsString(v.elems[0]))
    ensures v.Obj? ==> r == "[object Object]"
    decreases v
  {
    match v
    case Null => "null"
    case Bool(b) => if b then "true" else "false"
    case Num(n) => IntToString(n)
    case Str(s) => s
    case Arr(es) => JoinElements(es, v)
    case Obj(_) => "[object Object]"
  }

  /** `Array.prototype.join(",")` over `es`, the elements of `parent`. */
  function JoinElements(es: seq<Value>, ghost parent: Value): string
    requires forall i | 0 <= i < |es| :: es[i] < parent
    decreases parent, |es|
  {
    if es == [] then ""
    else
      var first := if es[0].Null? then "" else ToJsString(es[0]);
      if |es| == 1 then first else first + "," + JoinElements(es[1..], parent)
  }

  /** `v?.[key]`, and `v[key]` for a `v` that is not null: only objects have such properties. */
  function PropertyOf(v: Value, key: string): Option<Value> {
    if v.Obj? then Get(v.fields, key) else None
  }

  /** `${p}` for a property that may be missing: `undefined` is spelt out. */
  function PropToString(p: Option<Value>): (r: string)
    ensures p.None? ==> r == "undefined"
    ensures p.Some? ==> r == ToJsString(p.value)
  {
    if p.None? then "undefined" else ToJsString(p.value)
  }

  /**
   * `toLowerCase` restricted to ASCII letters. For the markers searched for
   * in this model that is exact: no character outside ASCII lowercases to one
   * of their characters.
   */
  function LowerChar(c: char): (r: char)
    ensures 'A' <= c <= 'Z' ==> 'a' <= r <= 'z' && r as int == c as int + 32
    ensures !('A' <= c <= 'Z') ==> r == c
  {
    if 'A' <= c <= 'Z' then (c as int + 32) as char else c
  }

  function ToLower(s: string): (r: string)
    ensures |r| == |s|
    ensures forall i | 0 <= i < |s| :: r[i] == LowerChar(s[i])
  {
    if s == [] then [] else [LowerChar(s[0])] + ToLower(s[1..])
  }

  /** Lower-casing works character by character, so it distributes over concatenation. */
  lemma {:induction false} ToLowerConcat(a: string, b: string)
    ensures ToLower(a + b) == ToLower(a) + ToLower(b)
  {
    var l, r := ToLower(a + b), ToLower(a) + ToLower(b);
    assert |l| == |r|;
    forall i | 0 <= i < |l| ensures l[i] == r[i] {
      if i < |a| { assert (a + b)[i] == a[i]; } else { assert (a + b)[i] == b[i - |a|]; }
    }
  }

  /** `s.includes(sub)`. */
  predicate Contains(s: string, sub: string) {
    sub <= s || (s != [] && Contains(s[1..], sub))
  }

  /** `sub` is found in `s` starting at index `i`. */
  predicate OccursAt(s: string, sub: string, i: int) {
    0 <= i && i + |sub| <= |s| && s[i..i + |sub|] == sub
  }

  /** `includes` holds exactly when `sub` occurs at some index of `s`. */
  lemma {:induction false} ContainsOccurs(s: string, sub: string)
    ensures Contains(s, sub) <==> exists i :: OccursAt(s, sub, i)
  {
    if sub <= s {
      assert OccursAt(s, sub, 0);
    } else if s == [] {
    } else {
      ContainsOccurs(s[1..], sub);
      if i :| OccursAt(s[1..], sub, i) {
        assert s[i + 1..i + 1 + |sub|] == s[1..][i..i + |sub|];
        assert OccursAt(s, sub, i + 1);
      }
      if i :| OccursAt(s, sub, i) && i > 0 {
        assert s[1..][i - 1..i - 1 + |sub|] == s[i..i + |sub|];
        assert OccursAt(s[1..], sub, i - 1);
      }
    }
  }

  /** `sub` occurs wherever it is placed. */
  lemma {:induction false} ContainsInside(pre: string, sub: string, post: string)
    ensures Contains(pre + sub + post, sub)
  {
    if pre == [] {
      assert pre + sub + post == sub + post;
    } else {
      ContainsInside(pre[1..], sub, post);
      assert (pre + sub + post)[1..] == pre[1..] + sub + post;
    }
  }

  // ---------------------------------------------------------------------------
  // Object spread

  /** Index-named properties `"0"`, `"1"`, ... holding the elements of `es`. */
  function Indexed(es: seq<Value>): (r: Fields)
    ensures |r| == |es|
    ensures forall i | 0 <= i < |es| :: r[i] == (NatToString(i), es[i])
  {
    seq(|es|, i requires 0 <= i < |es| => (NatToString(i), es[i]))
  }

  function Chars(s: string): (r: seq<Value>)
    ensures |r| == |s|
    ensures forall i | 0 <= i < |s| :: r[i] == Str([s[i]])
  {
    seq(|s|, i requires 0 <= i < |s| => Str([s[i]]))
  }

  /**
   * `{...v}`: the own enumerable properties of `v` copied into a new object.
   * An object gives its properties, an array its elements under their
   * indices, a string its characters under their indices; null, booleans
   * and numbers give no property at all.
   */
  function Spread(v: Value): (r: Fields)
    ensures v.Obj? ==> r == v.fields
    ensures v.Arr? ==> Values(r) == v.elems
    ensures v.Arr? ==> |r| == |v.elems| && forall i | 0 <= i < |r| :: r[i] == (NatToString(i), v.elems[i])
    ensures v.Str? ==> |r| == |v.s| && forall i | 0 <= i < |r| :: r[i] == (NatToString(i), Str([v.s[i]]))
    ensures v.Null? || v.Bool? || v.Num? ==> r == []
    ensures WellFormed(v) ==> UniqueKeys(r)
  {
    match v
    case Obj(fs) => fs
    case Arr(es) => IndexedUnique(es); Indexed(es)
    case Str(s) => IndexedUnique(Chars(s)); Indexed(Chars(s))
    case _ => []
  }

  lemma IndexedUnique(es: seq<Value>)
    ensures UniqueKeys(Indexed(es))
  {
    var r := Indexed(es);
    forall i, j | 0 <= i < j < |r| ensures r[i].0 != r[j].0 {
      assert DigitsValue(r[i].0) == i && DigitsValue(r[j].0) == j;
    }
  }
}
