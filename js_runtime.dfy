/** The few pieces of JavaScript semantics the three components rely on:
    properties that may be missing or null, string truthiness, `||` with a
    string fallback, optional chaining `a?.b` and `Array.prototype.map`. */
module JsRuntime {

  /** A property read from a JavaScript object: missing (`undefined`),
      explicitly `null`, or a value. */
  datatype JsValue<+T> = Undefined | Null | Defined(value: T)

  /** `ToBoolean` on a string: only the empty string is falsy. */
  predicate Truthy(s: string) {
    s != ""
  }

  /** A possibly missing string that is truthy. */
  predicate TruthyValue(v: JsValue<string>) {
    v.Defined? && Truthy(v.value)
  }

  /** `v || fallback` where `v` is a possibly missing string: the result is
      one of the two, it is empty only when both are, and it differs from
      the fallback only by being the value itself. */
  function StringOr(v: JsValue<string>, fallback: string): (s: string)
    ensures s == fallback || (v.Defined? && s == v.value)
    ensures Truthy(s) <==> TruthyValue(v) || Truthy(fallback)
    ensures Truthy(fallback) ==> Truthy(s)
  {
    if TruthyValue(v) then v.value else fallback
  }

  /** `receiver?.member`: `undefined` when the receiver is `undefined` or
      `null`, the member otherwise. */
  function OptionalChain<A, B>(receiver: JsValue<A>, member: A -> JsValue<B>): JsValue<B> {
    match receiver
    case Defined(r) => member(r)
    case _ => Undefined
  }

  /** `xs.map(f)`: the same length, element `i` is `f(xs[i])`. */
  function Map<A, B>(f: A -> B, xs: seq<A>): (ys: seq<B>)
    ensures |ys| == |xs|
    ensures forall i :: 0 <= i < |xs| ==> ys[i] == f(xs[i])
  {
    if xs == [] then [] else [f(xs[0])] + Map(f, xs[1..])
  }
}
