/** The JavaScript values the front ends compare and combine: nullable ids,
    nullable strings and nullable coordinates, with JavaScript truthiness,
    `||` and `===`. */
module Js {
  import opened Wrappers

  /** An id read from JSON: absent (`undefined`), `null`, or a number.
      Datatype equality is exactly `===` on these values. */
  datatype JsId = Undefined | Null | Num(n: int)

  /** Truthiness: `undefined`, `null` and `0` are falsy. */
  predicate Truthy(v: JsId) {
    v.Num? && v.n != 0
  }

  /** `a || b`: the left operand when truthy, otherwise the right one
      (which may itself be falsy). */
  function Or(a: JsId, b: JsId): (r: JsId)
    ensures Truthy(a) ==> r == a
    ensures !Truthy(a) ==> r == b
    ensures Truthy(r) <==> Truthy(a) || Truthy(b)
  {
    if Truthy(a) then a else b
  }

  /** A nullable string is truthy when present and non-empty. */
  predicate TextTruthy(s: Option<string>) {
    s.Some? && s.value != ""
  }

  /** `a || b || ''` for nullable strings. */
  function TextOr(a: Option<string>, b: Option<string>): (r: string)
    ensures TextTruthy(a) ==> r == a.value
    ensures !TextTruthy(a) && TextTruthy(b) ==> r == b.value
    ensures !TextTruthy(a) && !TextTruthy(b) ==> r == ""
  {
    if TextTruthy(a) then a.value else if TextTruthy(b) then b.value else ""
  }

  /** A nullable coordinate (a JavaScript number); 0 is falsy. */
  predicate CoordTruthy(c: Option<real>) {
    c.Some? && c.value != 0.0
  }

  /** `a || b` for coordinates. */
  function CoordOr(a: Option<real>, b: Option<real>): (r: Option<real>)
    ensures CoordTruthy(a) ==> r == a
    ensures !CoordTruthy(a) ==> r == b
  {
    if CoordTruthy(a) then a else b
  }
}
