/**
 * Query parameters as the admin pages build them (a JavaScript object of
 * optional values) and as a handler reads them back (`c.DefaultQuery`).
 */
module Params {
  import opened Text

  /** A parameter value: a string, a whole number, a decimal rating, or `undefined`. */
  datatype Param = Undefined | Str(s: string) | Count(n: nat) | Score(x: real)

  type Params = map<string, Param>

  /** Survives the pages' clean-up loop: neither `undefined` nor the empty string. */
  predicate Kept(p: Param) {
    !p.Undefined? && p != Str("")
  }

  /** Deletes exactly the keys holding `undefined` or "". */
  function Clean(params: Params): (r: Params)
    ensures forall k :: k in r <==> k in params && Kept(params[k])
    ensures forall k :: k in r ==> r[k] == params[k]
  {
    map k | k in params && Kept(params[k]) :: params[k]
  }

  /** `{ a..., b... }`: the later object's keys win. */
  function Spread(a: Params, b: Params): (r: Params)
    ensures forall k :: k in r <==> k in a || k in b
    ensures forall k :: k in b ==> r[k] == b[k]
    ensures forall k :: k in a && k !in b ==> r[k] == a[k]
  {
    a + b
  }

  /** Outside `keys`, `r` and `m` hold the same keys with the same values. */
  ghost predicate SameBut(r: Params, m: Params, keys: set<string>) {
    forall k :: k !in keys ==> (k in r <==> k in m) && (k in r ==> r[k] == m[k])
  }

  /** Setting one key leaves every other key as it was. */
  lemma SameButSet(m: Params, key: string, v: Param)
    ensures SameBut(m[key := v], m, {key})
  {
  }

  /**
   * What a handler's `DefaultQuery(key, default)` reads once axios has
   * written the parameters into the URL: whole numbers in decimal, text
   * as it is, the default when the key is missing. A decimal rating is
   * read by no handler, so its text is not modelled.
   */
  function ReadQuery(params: Params, key: string, default: string): (r: string)
    ensures key !in params || params[key].Undefined? ==> r == default
    ensures key in params && params[key].Str? ==> r == params[key].s
    ensures key in params && params[key].Count? ==> r == NatToString(params[key].n)
  {
    if key !in params then default
    else match params[key]
      case Undefined => default
      case Str(s) => s
      case Count(n) => NatToString(n)
      case Score(_) => ""
  }
}
