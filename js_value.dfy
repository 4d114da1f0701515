/**
  JavaScript values as the travel log meets them: parsed JSON, numbers,
  `undefined`, truthiness (what `||` and `filter(Boolean)` test) and the
  `String(...)` and `Number(...)` coercions.
 */
module JsValue {
  import opened JsText

  datatype Option<T> = None | Some(value: T)

  /** A JavaScript number, abstractly: a finite value or one of the three
      non-finite ones. `-0` is not told apart from `0`. */
  datatype Num = Finite(value: real) | NaN | PosInfinity | NegInfinity

  /** `isFinite`. */
  predicate IsFinite(n: Num) {
    n.Finite?
  }

  /** `Boolean(n)`: zero and NaN are falsy. */
  predicate NumTruthy(n: Num) {
    (n.Finite? && n.value != 0.0) || n.PosInfinity? || n.NegInfinity?
  }

  /** A value `JSON.parse` can produce (and, for numbers, any JavaScript number). */
  datatype Json =
    | JNull
    | JBool(b: bool)
    | JNum(n: Num)
    | JStr(s: string)
    | JArr(elems: seq<Json>)
    | JObj(props: map<string, Json>)

  /** The two text/number conversions that are not modelled: `Number(string)` and
      `String(number)`. Everything that depends on them takes them as a parameter. */
  datatype Coercion = Coercion(parseNumber: string -> Num, numberText: Num -> string)

  /** Property access `v[key]`; `None` stands for `undefined`. Only objects have
      the properties this program reads. */
  function Prop(v: Json, key: string): Option<Json> {
    if v.JObj? && key in v.props then Some(v.props[key]) else None
  }

  /** `Boolean(v)` for a possibly undefined value. */
  predicate Truthy(v: Option<Json>) {
    match v
    case None => false
    case Some(JNull) => false
    case Some(JBool(b)) => b
    case Some(JNum(n)) => NumTruthy(n)
    case Some(JStr(s)) => s != ""
    case Some(JArr(_)) => true
    case Some(JObj(_)) => true
  }

  /** `String(v)` and `Number(v)` return without throwing: no object they reach has
      its own `toString` property. A parsed value is never callable, so such an
      object has neither a usable `toString` nor a `valueOf` that gives a
      primitive, and both conversions raise a TypeError. Arrays convert through
      `join`, which converts each element that is not null. */
  predicate Coercible(v: Json)
    decreases v
  {
    match v
    case JObj(props) => "toString" !in props
    case JArr(xs) => forall i :: 0 <= i < |xs| ==> Coercible(xs[i])
    case _ => true
  }

  /** A possibly undefined value converts without throwing. */
  predicate CoercibleOpt(v: Option<Json>) {
    v.None? || Coercible(v.value)
  }

  /** JSON.stringify writes `v` back unchanged: every number in it is finite
      (a non-finite one would be written as null). */
  predicate FiniteJson(v: Json)
    decreases v
  {
    match v
    case JNum(n) => IsFinite(n)
    case JArr(xs) => forall i :: 0 <= i < |xs| ==> FiniteJson(xs[i])
    case JObj(m) => forall k | k in m :: FiniteJson(m[k])
    case _ => true
  }

  /** `String(v)` for a `Coercible` value. For any other value JavaScript throws;
      the import and the place search test `Coercible` first, while the boundary
      dataset's properties are taken to be coercible. Arrays join their elements with ","
      and print `null` as "". */
  function ToStr(v: Json, conv: Coercion): string
    decreases v
  {
    match v
    case JNull => "null"
    case JBool(b) => if b then "true" else "false"
    case JNum(n) => conv.numberText(n)
    case JStr(s) => s
    case JArr(xs) =>
      Join(seq(|xs|, i requires 0 <= i < |xs| => if xs[i].JNull? then "" else ToStr(xs[i], conv)), ",")
    case JObj(_) => "[object Object]"
  }

  /** `String(v || "")`: the text of a truthy value, or "". */
  function TextOr(v: Option<Json>, conv: Coercion): (r: string)
    ensures !Truthy(v) ==> r == ""
    ensures v.Some? && v.value.JStr? ==> r == v.value.s
  {
    if Truthy(v) then ToStr(v.value, conv) else ""
  }

  /** `Number(v)` for a possibly undefined `Coercible` value. */
  function ToNumber(v: Option<Json>, conv: Coercion): Num {
    match v
    case None => NaN
    case Some(JNull) => Finite(0.0)
    case Some(JBool(b)) => if b then Finite(1.0) else Finite(0.0)
    case Some(JNum(n)) => n
    case Some(JStr(s)) => conv.parseNumber(s)
    case Some(other) => conv.parseNumber(ToStr(other, conv))
  }

  /** `x || 0` for a number `x`. */
  function OrZero(n: Num): (r: Num)
    ensures NumTruthy(n) ==> r == n
    ensures !NumTruthy(n) ==> r == Finite(0.0)
  {
    if NumTruthy(n) then n else Finite(0.0)
  }

  /** The first truthy property among `keys` (the chain `o[k0] || o[k1] || ...`),
      or `None` when every one of them is falsy or missing. */
  function FirstTruthy(o: map<string, Json>, keys: seq<string>): (r: Option<Json>)
    ensures r.None? <==> forall i :: 0 <= i < |keys| ==> !Truthy(Prop(JObj(o), keys[i]))
    ensures r.Some? ==> exists i :: 0 <= i < |keys| && Prop(JObj(o), keys[i]) == r && Truthy(r)
                                    && forall j :: 0 <= j < i ==> !Truthy(Prop(JObj(o), keys[j]))
    decreases |keys|
  {
    if keys == [] then None
    else if Truthy(Prop(JObj(o), keys[0])) then Prop(JObj(o), keys[0])
    else
      var r := FirstTruthy(o, keys[1..]);
      assert forall i :: 1 <= i < |keys| ==> keys[i] == keys[1..][i - 1];
      r
  }
}
