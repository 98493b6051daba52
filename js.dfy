/** JavaScript values as far as the request dispatcher observes them:
    JSON documents (what JSON.parse yields), values thrown or rejected by
    code outside the dispatcher, and the object spread `{...v}` applied to
    a parsed JSON value. */
module Js {

  datatype Option<+T> = None | Some(value: T)

  /** A parsed JSON value. Numbers are kept abstract: the dispatcher never
      computes with them. */
  datatype Json =
    | JNull
    | JBool(b: bool)
    | JNum(n: int)
    | JStr(s: string)
    | JArr(elems: seq<Json>)
    | JObj(members: map<string, Json>)

  /** A value thrown or passed to a promise's reject by the transport, by
      `res.json()` or by the runtime. All that the dispatcher and
      `isAPIError` can tell apart is whether it is `undefined`, `null` or
      something else. */
  datatype Thrown = ThrownUndefined | ThrownNull | ThrownObject(name: string)

  /** What reading a property of `null` or `undefined` throws. */
  const PropertyOfNullish: Thrown := ThrownObject("TypeError")

  /** The decimal digit character for d. */
  function Digit(d: nat): (c: char)
    requires d < 10
    ensures '0' <= c <= '9'
    ensures c as int - '0' as int == d
  {
    (d + '0' as int) as char
  }

  /** The property key JavaScript uses for index n: its decimal string,
      with no leading zero. */
  function DecimalString(n: nat): (s: string)
    ensures |s| >= 1
    ensures forall k :: 0 <= k < |s| ==> '0' <= s[k] <= '9'
    ensures s[0] == '0' <==> n == 0
    ensures n < 10 <==> |s| == 1
    decreases n
  {
    if n < 10 then [Digit(n)] else DecimalString(n / 10) + [Digit(n % 10)]
  }

  /** Distinct indices have distinct property keys. */
  lemma {:induction false} DecimalStringInjective(a: nat, b: nat)
    requires DecimalString(a) == DecimalString(b)
    ensures a == b
    decreases a
  {
    var s := DecimalString(a);
    if a < 10 || b < 10 {
      assert |s| == 1 && a < 10 && b < 10;
      assert s[0] == Digit(a) == Digit(b);
    } else {
      var p, q := DecimalString(a / 10), DecimalString(b / 10);
      assert s == p + [Digit(a % 10)] == q + [Digit(b % 10)];
      assert Digit(a % 10) == s[|s| - 1] == Digit(b % 10);
      assert p == s[..|s| - 1] == q;
      DecimalStringInjective(a / 10, b / 10);
    }
  }

  /** No index below n shares n's property key. */
  lemma KeysBelowDistinct(n: nat)
    ensures forall k: nat :: k < n ==> DecimalString(k) != DecimalString(n)
  {
    forall k: nat | k < n
      ensures DecimalString(k) != DecimalString(n)
    {
      if DecimalString(k) == DecimalString(n) {
        DecimalStringInjective(k, n);
      }
    }
  }

  /** The property keys of the indices below n. */
  function IndexKeys(n: nat): set<string>
  {
    if n == 0 then {} else IndexKeys(n - 1) + {DecimalString(n - 1)}
  }

  /** The own enumerable properties of an array-like value whose elements
      are xs: one member per index, keyed by the index's decimal string. */
  function IndexedMembers(xs: seq<Json>): (m: map<string, Json>)
    ensures m.Keys == IndexKeys(|xs|)
    ensures forall k: nat :: k < |xs| ==> DecimalString(k) in m && m[DecimalString(k)] == xs[k]
  {
    if xs == [] then map[]
    else
      var n := |xs| - 1;
      var m := IndexedMembers(xs[..n]);
      KeysBelowDistinct(n);
      m[DecimalString(n) := xs[n]]
  }

  /** The one-character strings of s, one per code unit. */
  function Chars(s: string): (r: seq<Json>)
    ensures |r| == |s|
    ensures forall k :: 0 <= k < |s| ==> r[k] == JStr([s[k]])
  {
    seq(|s|, k requires 0 <= k < |s| => JStr([s[k]]))
  }

  /** The members that the object spread `{...v}` copies out of v, where
      None stands for `undefined`. Objects give their members, arrays and
      strings their indexed elements, and every other value (including
      null and undefined) nothing. */
  function SpreadMembers(v: Option<Json>): (m: map<string, Json>)
    ensures v.Some? && v.value.JObj? ==> m == v.value.members
    ensures v.Some? && v.value.JArr? ==> m.Keys == IndexKeys(|v.value.elems|)
    ensures v.Some? && v.value.JStr? ==> m.Keys == IndexKeys(|v.value.s|)
    ensures v.Some? && v.value.JArr? ==>
      forall k: nat :: k < |v.value.elems| ==> DecimalString(k) in m && m[DecimalString(k)] == v.value.elems[k]
    ensures v.Some? && v.value.JStr? ==>
      forall k: nat :: k < |v.value.s| ==> DecimalString(k) in m && m[DecimalString(k)] == JStr([v.value.s[k]])
    ensures m == map[] <==>
      (v.None? || v.value.JNull? || v.value.JBool? || v.value.JNum?
       || (v.value.JStr? && v.value.s == []) || (v.value.JArr? && v.value.elems == [])
       || (v.value.JObj? && v.value.members == map[]))
  {
    match v
    case None => map[]
    case Some(JObj(members)) => members
    case Some(JArr(elems)) =>
      var r := IndexedMembers(elems);
      assert elems != [] ==> DecimalString(0) in r;
      r
    case Some(JStr(s)) =>
      var r := IndexedMembers(Chars(s));
      assert s != [] ==> DecimalString(0) in r;
      r
    case Some(_) => map[]
  }

  /** The property `key` of a non-null JSON value: a member of an object,
      and `undefined` (None) for every other kind of value. */
  function Member(v: Json, key: string): (r: Option<Json>)
    requires !v.JNull?
    ensures r.Some? <==> v.JObj? && key in v.members
    ensures r.Some? ==> r.value == v.members[key]
  {
    if v.JObj? && key in v.members then Some(v.members[key]) else None
  }
}
