/** The JavaScript value semantics the handlers and components rely on: truthiness,
    the nullish-coalescing operator `??`, `||`, strict equality, `Number(...)` and
    `String(...)` of an integer. */
module Js {
  import opened Wrappers
  import opened Text

  /** A JavaScript value as it reaches a handler (a JSON request body, an API row,
      component state). `undefined` is modelled as a key absent from a `Record`.
      Numbers are integers; `NaN` is kept because `Number(...)` can produce it. */
  datatype JsValue = Null | Bool(b: bool) | Num(n: int) | NaN | Str(s: string)

  /** A plain object: keys that are present map to their values. */
  type Record = map<string, JsValue>

  /** `FormData` restricted to text entries: `fd.get(k)` is `fd[k]` or `null`. */
  type FormData = map<string, string>

  /** JavaScript truthiness; `undefined` (an absent value) is falsy as well. */
  predicate Truthy(v: JsValue)
  {
    match v
    case Null => false
    case Bool(b) => b
    case Num(n) => n != 0
    case NaN => false
    case Str(s) => s != []
  }

  /** The value of `r.key`, `None` standing for `undefined`. */
  function Field(r: Record, key: string): Option<JsValue>
  {
    if key in r then Some(r[key]) else None
  }

  /** `r.key` is `null` or `undefined`, so `??` skips it. */
  predicate Nullish(r: Record, key: string)
  {
    key !in r || r[key] == Null
  }

  predicate FieldTruthy(r: Record, key: string)
  {
    key in r && Truthy(r[key])
  }

  /** `r[keys[0]] ?? r[keys[1]] ?? ... ?? fallback`: the first alternative that is
      neither `null` nor `undefined`, else the fallback. */
  function Coalesce(r: Record, keys: seq<string>, fallback: JsValue): (v: JsValue)
    ensures (forall i :: 0 <= i < |keys| ==> Nullish(r, keys[i])) ==> v == fallback
    ensures forall i :: (0 <= i < |keys| && !Nullish(r, keys[i])
                         && (forall j :: 0 <= j < i ==> Nullish(r, keys[j]))) ==> v == r[keys[i]]
    ensures v == fallback || exists i :: 0 <= i < |keys| && keys[i] in r && v == r[keys[i]] != Null
    ensures fallback != Null ==> v != Null
  {
    if keys == [] then fallback
    else if !Nullish(r, keys[0]) then r[keys[0]]
    else
      var v := Coalesce(r, keys[1..], fallback);
      assert forall i :: 1 <= i < |keys| ==> keys[1..][i - 1] == keys[i];
      v
  }

  /** `??` stops at a first alternative that is present and not `null`. */
  lemma CoalesceFirst(r: Record, keys: seq<string>, fallback: JsValue)
    requires keys != [] && keys[0] in r && r[keys[0]] != Null
    ensures Coalesce(r, keys, fallback) == r[keys[0]]
  {
  }

  /** `r.a ?? r.b ?? fallback` when `r.b` is absent or repeats `r.a`. */
  lemma CoalescePair(r: Record, a: string, b: string, fallback: JsValue)
    requires a in r && (b !in r || r[b] == r[a])
    ensures Coalesce(r, [a, b], fallback) == if r[a] == Null then fallback else r[a]
  {
    var keys := [a, b];
    assert keys[0] == a && keys[1] == b;
    assert keys[1..][1..] == [];
  }

  /** `r.a ?? r.b ?? fallback`, alternative by alternative. */
  lemma CoalesceTwo(r: Record, a: string, b: string, fallback: JsValue)
    ensures Coalesce(r, [a, b], fallback)
              == if !Nullish(r, a) then r[a] else if !Nullish(r, b) then r[b] else fallback
  {
    var keys := [a, b];
    assert keys[0] == a && keys[1] == b;
  }

  /** `r.a ?? r.b ?? r.c ?? fallback`, alternative by alternative. */
  lemma CoalesceThree(r: Record, a: string, b: string, c: string, fallback: JsValue)
    ensures Coalesce(r, [a, b, c], fallback)
              == if !Nullish(r, a) then r[a] else if !Nullish(r, b) then r[b]
                 else if !Nullish(r, c) then r[c] else fallback
  {
    var keys := [a, b, c];
    assert keys[0] == a && keys[1] == b && keys[2] == c;
  }

  /** `a || b` */
  function Or(a: JsValue, b: JsValue): (v: JsValue)
  {
    if Truthy(a) then a else b
  }

  /** Strict equality `a === b` on the modelled values: structural, except that
      `NaN` equals nothing. */
  predicate StrictEquals(a: JsValue, b: JsValue)
  {
    a == b && !a.NaN?
  }

  /** `String(n)` for an integer `n`. */
  function IntToString(n: int): (s: string)
    ensures |s| >= 1
  {
    if n < 0 then "-" + NatToDigits(-n) else NatToDigits(n)
  }

  /** Numeric conversion of an already trimmed string: empty is 0, an optional sign
      followed by decimal digits is that integer, anything else is NaN. */
  function ParseNumber(t: string): (v: JsValue)
    ensures v.Num? || v.NaN?
  {
    if t == [] then Num(0)
    else if AllDigits(t) then Num(DigitsValue(t))
    else if |t| >= 2 && t[0] == '-' && AllDigits(t[1..]) then Num(0 - DigitsValue(t[1..]))
    else if |t| >= 2 && t[0] == '+' && AllDigits(t[1..]) then Num(DigitsValue(t[1..]))
    else NaN
  }

  /** `Number(v)`. */
  function Number(v: JsValue): (r: JsValue)
    ensures r.Num? || r.NaN?
    ensures v.Num? ==> r == v
    ensures v == Null ==> r == Num(0)
  {
    match v
    case Null => Num(0)
    case Bool(b) => Num(if b then 1 else 0)
    case Num(n) => v
    case NaN => NaN
    case Str(s) => ParseNumber(Trim(s))
  }

  /** `Number(x)` where `x` may be `undefined` (which converts to NaN). */
  function NumberOf(x: Option<JsValue>): (r: JsValue)
    ensures r.Num? || r.NaN?
  {
    match x
    case None => NaN
    case Some(v) => Number(v)
  }

  /** `Number(x) || 0`: an integer, 0 whenever the conversion gives NaN. */
  function NumberOrZero(v: JsValue): (n: int)
    ensures Number(v).NaN? ==> n == 0
    ensures Number(v).Num? ==> n == Number(v).n
  {
    match Number(v)
    case Num(k) => k
    case _ => 0
  }

  /** `String(n)` converts back to `n` under `Number(...)`. */
  lemma NumberOfIntToString(n: int)
    ensures Number(Str(IntToString(n))) == Num(n)
  {
    var s := IntToString(n);
    var d := NatToDigits(if n < 0 then -n else n);
    DigitsRoundTrip(if n < 0 then -n else n);
    assert !IsSpace(s[0]) && !IsSpace(s[|s| - 1]);
    TrimOfTrimmed(s);
    if n < 0 {
      assert s[1..] == d;
      assert !AllDigits(s);
    }
  }

  /** The sum `a + b` of two numbers; NaN absorbs. */
  function Add(a: JsValue, b: JsValue): (r: JsValue)
    requires (a.Num? || a.NaN?) && (b.Num? || b.NaN?)
    ensures r.NaN? <==> a.NaN? || b.NaN?
    ensures r.Num? ==> r.n == a.n + b.n
  {
    if a.Num? && b.Num? then Num(a.n + b.n) else NaN
  }
}
