/** The slice of JavaScript value semantics the configuration engine relies
    on: truthiness, string conversion (`String(v)` and template literals),
    `[].concat(v)[i]`, property access and lodash's view of a value as a
    list of entries. */
module Js {
  import opened Wrappers

  /** A JavaScript value as it occurs in submitted bodies and bound form
      data. Numbers never occur there (every submitted value is a string)
      and are not modelled. */
  datatype Value =
    | Undefined
    | Null
    | Bool(b: bool)
    | Str(s: string)
    | Arr(elems: seq<Value>)
    | Obj(members: seq<Member>)

  /** One own property of an object, in insertion order. */
  datatype Member = Member(name: string, val: Value)

  /** JavaScript truthiness (`if (v)`, `c ? a : b`). */
  predicate Truthy(v: Value) {
    match v
    case Undefined => false
    case Null => false
    case Bool(b) => b
    case Str(s) => s != ""
    case Arr(_) => true
    case Obj(_) => true
  }

  /** `null` and `undefined`: the values whose properties cannot be read. */
  predicate Nullish(v: Value) {
    v.Undefined? || v.Null?
  }

  function DigitChar(d: nat): char
    requires d < 10
  {
    "0123456789"[d]
  }

  /** Decimal rendering of a natural number, as `String(n)` does. */
  function NatToString(n: nat): (r: string)
    ensures |r| >= 1
    ensures forall i :: 0 <= i < |r| ==> '0' <= r[i] <= '9'
  {
    if n < 10 then [DigitChar(n)] else NatToString(n / 10) + [DigitChar(n % 10)]
  }

  /** Distinct numbers render differently, digit by digit from the
      last. */
  lemma {:induction false} NatToStringInjective(a: nat, b: nat)
    requires NatToString(a) == NatToString(b)
    ensures a == b
    decreases a
  {
    var sa, sb := NatToString(a), NatToString(b);
    if a < 10 && b < 10 {
      assert sa[0] == "0123456789"[a] && sb[0] == "0123456789"[b];
    } else if a < 10 || b < 10 {
      assert false;
    } else {
      var pa, pb := NatToString(a / 10), NatToString(b / 10);
      assert sa == pa + [DigitChar(a % 10)] && sb == pb + [DigitChar(b % 10)];
      assert |pa| == |pb|;
      assert pa == sa[..|sa| - 1] == sb[..|sb| - 1] == pb;
      assert sa[|sa| - 1] == DigitChar(a % 10) && sb[|sb| - 1] == DigitChar(b % 10);
      assert "0123456789"[a % 10] == "0123456789"[b % 10];
      NatToStringInjective(a / 10, b / 10);
    }
  }

  /** Joins strings with a separator, as `Array.prototype.join` does. */
  function Join(parts: seq<string>, sep: string): string {
    if |parts| == 0 then ""
    else if |parts| == 1 then parts[0]
    else parts[0] + sep + Join(parts[1..], sep)
  }

  /** `String(v)`, which is also what a template literal `${v}` produces. */
  function ToStr(v: Value): string {
    match v
    case Undefined => "undefined"
    case Null => "null"
    case Bool(b) => if b then "true" else "false"
    case Str(s) => s
    case Arr(es) =>
      Join(seq(|es|, i requires 0 <= i < |es| =>
        if Nullish(es[i]) then "" else ToStr(es[i])), ",")
    case Obj(_) => "[object Object]"
  }

  /** How `Array.prototype.join` renders one element: `null` and
      `undefined` become the empty string. */
  function JoinElem(v: Value): string {
    if Nullish(v) then "" else ToStr(v)
  }

  /** `[].concat(v)`: an array is spread, anything else becomes a
      one-element list. */
  function Concat(v: Value): (r: seq<Value>)
    ensures v.Arr? ==> r == v.elems
    ensures !v.Arr? ==> r == [v]
  {
    if v.Arr? then v.elems else [v]
  }

  /** `[].concat(v)[i]`: out-of-range positions read as `undefined`. */
  function At(v: Value, i: nat): (r: Value)
    ensures i < |Concat(v)| ==> r == Concat(v)[i]
    ensures i >= |Concat(v)| ==> r == Undefined
  {
    var xs := Concat(v);
    if i < |xs| then xs[i] else Undefined
  }

  /** First member of `ms` called `name`. */
  function Lookup(ms: seq<Member>, name: string): (r: Option<Value>)
    ensures r.Some? <==> exists i :: 0 <= i < |ms| && ms[i].name == name
  {
    if |ms| == 0 then None
    else if ms[0].name == name then Some(ms[0].val)
    else Lookup(ms[1..], name)
  }

  /** `name in obj` for an object given by its members. */
  predicate HasMember(ms: seq<Member>, name: string) {
    exists i :: 0 <= i < |ms| && ms[i].name == name
  }

  /** The own enumerable entries lodash sees (`_.values`, `_.mapValues`,
      `_.isEmpty`, `Object.keys`): an object's members, an array's or a
      string's indexed elements, and nothing for any other value. */
  function Entries(v: Value): seq<Member> {
    match v
    case Obj(ms) => ms
    case Arr(es) => seq(|es|, i requires 0 <= i < |es| => Member(NatToString(i), es[i]))
    case Str(s) => seq(|s|, i requires 0 <= i < |s| => Member(NatToString(i), Str([s[i]])))
    case _ => []
  }

  /** `v[name]` on a value whose properties can be read. Strings, arrays
      and booleans carry none of the names this program reads. */
  function Read(v: Value, name: string): (r: Value)
    requires !Nullish(v)
    ensures !v.Obj? ==> r == Undefined
  {
    match v
    case Obj(ms) => (match Lookup(ms, name) case Some(x) => x case None => Undefined)
    case _ => Undefined
  }

  /** `v[name]`, throwing a TypeError on `null` and `undefined`. */
  function Prop(v: Value, name: string): (r: Result<Value>)
    ensures r.Failure? <==> Nullish(v)
    ensures r.Success? ==> r.value == Read(v, name)
  {
    if Nullish(v) then Failure("TypeError: cannot read property '" + name + "'")
    else Success(Read(v, name))
  }

  /** `v[i]` with a numeric index, throwing on `null` and `undefined`. */
  function Index(v: Value, i: nat): (r: Result<Value>)
    ensures r.Failure? <==> Nullish(v)
  {
    match v
    case Undefined => Failure("TypeError: cannot read index")
    case Null => Failure("TypeError: cannot read index")
    case Arr(es) => Success(if i < |es| then es[i] else Undefined)
    case Str(s) => Success(if i < |s| then Str([s[i]]) else Undefined)
    case Obj(ms) => Success(match Lookup(ms, NatToString(i)) case Some(x) => x case None => Undefined)
    case Bool(_) => Success(Undefined)
  }

  /** `s.startsWith(prefix)`. */
  predicate StartsWith(s: string, prefix: string) {
    |prefix| <= |s| && s[..|prefix|] == prefix
  }

  /** A position clamped into `[0, len]`, as `String.prototype.substring`
      treats its arguments. */
  function Clamp(i: int, len: nat): (r: nat)
    ensures r <= len
  {
    if i < 0 then 0 else if i > len then len else i
  }

  /** `s.substring(start, end)`: both positions are clamped and swapped
      when out of order. */
  function Substring(s: string, start: int, end: int): (r: string)
    ensures 0 <= start <= end <= |s| ==> r == s[start..end]
    ensures |r| <= |s|
  {
    var a := Clamp(start, |s|);
    var b := Clamp(end, |s|);
    if a <= b then s[a..b] else s[b..a]
  }
}
