/**
 * JavaScript values as the editor handles them untyped: property bags, socket payloads and
 * parsed interchange documents. An object is a map from key to value (a missing key reads as
 * `undefined`); numbers are reals (NaN and the infinities are not modelled).
 */
module JsValues {

  import opened Wrappers

  datatype Json =
    | Undefined
    | Null
    | Bool(b: bool)
    | Num(n: real)
    | Str(s: string)
    | Arr(items: seq<Json>)
    | Obj(fields: map<string, Json>)

  /** JavaScript truthiness: `undefined`, `null`, `false`, `0` and `""` are falsy. */
  predicate Truthy(j: Json) {
    match j
    case Undefined => false
    case Null => false
    case Bool(b) => b
    case Num(n) => n != 0.0
    case Str(s) => s != ""
    case _ => true
  }

  /** `a || b`. */
  function Or(a: Json, b: Json): (r: Json)
    ensures Truthy(a) ==> r == a
    ensures !Truthy(a) ==> r == b
  {
    if Truthy(a) then a else b
  }

  /** Reading `j.key`, which throws a TypeError on `null` and `undefined`. */
  function Member(j: Json, key: string): (r: Result<Json, ()>)
    ensures r.Failure? <==> j.Undefined? || j.Null?
    ensures j.Obj? && key in j.fields ==> r == Success(j.fields[key])
  {
    match j
    case Undefined => Failure(())
    case Null => Failure(())
    case Obj(m) => Success(if key in m then m[key] else Undefined)
    case _ => Success(Undefined)
  }

  /** Reading `j?.key`, which yields `undefined` on `null` and `undefined` instead of throwing. */
  function OptMember(j: Json, key: string): (r: Json)
    ensures j.Obj? && key in j.fields ==> r == j.fields[key]
    ensures !(j.Obj? && key in j.fields) ==> r == Undefined
  {
    if j.Obj? && key in j.fields then j.fields[key] else Undefined
  }

  /** The value contains no `undefined` anywhere, as every result of `JSON.parse` does. */
  predicate Defined(j: Json) {
    match j
    case Undefined => false
    case Arr(items) => forall i :: 0 <= i < |items| ==> Defined(items[i])
    case Obj(m) => forall k :: k in m ==> Defined(m[k])
    case _ => true
  }

  /**
   * `JSON.parse(JSON.stringify(j))` for a value that is not itself `undefined`:
   * object keys holding `undefined` are dropped and `undefined` array elements become `null`.
   */
  function Reparsed(j: Json): Json {
    match j
    case Arr(items) =>
      Arr(seq(|items|, i requires 0 <= i < |items| => if items[i].Undefined? then Null else Reparsed(items[i])))
    case Obj(m) => Obj(map k | k in m && !m[k].Undefined? :: Reparsed(m[k]))
    case _ => j
  }

  /** The keys of an object after a JSON round trip. */
  function ReparsedFields(m: map<string, Json>): (r: map<string, Json>)
    ensures forall k :: k in r <==> k in m && !m[k].Undefined?
    ensures forall k :: k in r ==> r[k] == Reparsed(m[k])
  {
    Reparsed(Obj(m)).fields
  }

  /** A JSON round trip never leaves an `undefined` behind. */
  lemma {:induction false} ReparsedIsDefined(j: Json)
    requires !j.Undefined?
    ensures Defined(Reparsed(j))
  {
    match j
    case Arr(items) =>
      forall i | 0 <= i < |items| && !items[i].Undefined? {
        ReparsedIsDefined(items[i]);
      }
    case Obj(m) =>
      forall k | k in m && !m[k].Undefined? {
        ReparsedIsDefined(m[k]);
      }
    case _ =>
  }

  /** A value that is already plain JSON survives a round trip unchanged. */
  lemma {:induction false} ReparsedDefinedIsIdentity(j: Json)
    requires Defined(j)
    ensures Reparsed(j) == j
  {
    match j
    case Arr(items) =>
      forall i | 0 <= i < |items| {
        ReparsedDefinedIsIdentity(items[i]);
      }
    case Obj(m) =>
      forall k | k in m {
        ReparsedDefinedIsIdentity(m[k]);
      }
      assert ReparsedFields(m) == m;
    case _ =>
  }
}
