/** The value-presence policy (lib/config.js:9-13): which values count as
    "really set", and the sentinel that stands for a secret kept on disk. */
module Presence {
  import opened Wrappers
  import opened Js

  /** The token a secret widget shows instead of the stored secret, and
      that a submission sends back to mean "keep the stored secret". */
  const Existing: string := "<existing>"

  /** The string tokens that mean "no value" in either store. */
  const FalsyTokens: set<string> := {"false", "no", "off", "-", "0", ""}

  /** Every value the policy treats as absent. */
  const Absent: set<Value> :=
    {Undefined, Null, Str("false"), Str("no"), Str("off"), Str("-"), Str("0"), Str("")}

  /** `has_value`: membership test against a set compared with
      SameValueZero, so only these exact strings, `null` and `undefined`
      are absent; booleans, arrays and objects are always present. */
  predicate HasValue(v: Value)
    ensures HasValue(v) <==> v !in Absent
  {
    match v
    case Undefined => false
    case Null => false
    case Str(s) => s !in FalsyTokens
    case _ => true
  }

  /** A store read seen as a JavaScript value: a missing option reads as
      `undefined`. */
  function FromOption(o: Option<string>): (r: Value)
    ensures o.None? <==> r == Undefined
    ensures o.Some? ==> r == Str(o.value)
  {
    match o
    case Some(s) => Str(s)
    case None => Undefined
  }

  /** The last step of a string field's `setValue` (lib/form.js:117-119):
      any absent value is shown as the empty string, so a derived value is
      never `'-'`, `'0'`, `'off'` and so on. */
  function Collapse(v: Value): (r: Value)
    ensures r == Str("") || HasValue(r)
    ensures HasValue(r) <==> HasValue(v)
    ensures HasValue(v) ==> r == v
  {
    if HasValue(v) then v else Str("")
  }

  /** The presence test the source applies to strings read from a store. */
  predicate Present(o: Option<string>) {
    HasValue(FromOption(o))
  }

  lemma PresentIffRealToken(o: Option<string>)
    ensures Present(o) <==> o.Some? && o.value !in FalsyTokens
  {
  }
}
