/** The JSON-like JavaScript values the thali functions receive. Records are
    not typed in the source: every field read is checked at run time with
    `typeof` or `Array.isArray`, so the model keeps values untyped too. */
module JsValue {
  import opened Outcomes
  import opened JsString
  import opened JsNumber

  /** A JavaScript value; numbers are integers (see README). */
  datatype Value =
    | Undefined
    | Null
    | Bool(b: bool)
    | Num(n: int)
    | Str(s: string)
    | Arr(elems: seq<Value>)
    | Obj(fields: map<string, Value>)

  /** `null` or `undefined`: reading a property of either throws. */
  predicate Nullish(v: Value) {
    v.Undefined? || v.Null?
  }

  /** `typeof v === "object" && v !== null`: plain objects and arrays. */
  predicate IsObject(v: Value) {
    v.Obj? || v.Arr?
  }

  /** Some element of the array is `null` or `undefined`. */
  predicate HasNullish(a: seq<Value>) {
    exists i :: 0 <= i < |a| && Nullish(a[i])
  }

  /** `v[key]` for a value that is not nullish: an own field of an object,
      `undefined` for a missing field and for every non-object (none of
      strings, numbers, booleans or arrays has a property with the names
      the thali functions read). */
  function Prop(v: Value, key: string): Value {
    match v
    case Obj(fields) => if key in fields then fields[key] else Undefined
    case _ => Undefined
  }

  /** `String(v)`, which a template literal applies to what it interpolates. */
  function ToStr(v: Value): (r: string)
    ensures v.Num? ==> ParseInt(r) == Some(v.n)
    ensures v.Str? ==> r == v.s
    decreases v
  {
    match v
    case Undefined => "undefined"
    case Null => "null"
    case Bool(b) => if b then "true" else "false"
    case Num(n) => IntToStrRoundTrip(n); IntToStr(n)
    case Str(s) => s
    case Arr(elems) => Join(ElementTexts(elems), ",")
    case Obj(_) => "[object Object]"
  }

  /** How `Array.prototype.join` renders each element: nullish elements as
      the empty string, all others as `String(e)`. */
  function ElementTexts(es: seq<Value>): (r: seq<string>)
    ensures |r| == |es|
    ensures forall i :: 0 <= i < |es| ==> r[i] == (if Nullish(es[i]) then "" else ToStr(es[i]))
    decreases es
  {
    if |es| == 0 then []
    else [if Nullish(es[0]) then "" else ToStr(es[0])] + ElementTexts(es[1..])
  }

  /** `es.join(sep)`. */
  function JoinValues(es: seq<Value>, sep: string): string {
    Join(ElementTexts(es), sep)
  }

  /** An array of strings joins to exactly those strings, in order. */
  lemma JoinValuesOfStrings(es: seq<Value>, ss: seq<string>, sep: string)
    requires |es| == |ss|
    requires forall i :: 0 <= i < |es| ==> es[i] == Str(ss[i])
    ensures JoinValues(es, sep) == Join(ss, sep)
  {
    assert ElementTexts(es) == ss;
  }
}
