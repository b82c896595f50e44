/** Field reads shared by `getThaliStats` and `generateThaliReceipt`:
    both total the prices with the same `reduce`, counting a non-number
    price as 0. */
module ThaliRecord {
  import opened JsValue

  /** `typeof t.price === "number" ? t.price : 0` */
  function PriceOrZero(t: Value): int {
    var p := Prop(t, "price");
    if p.Num? then p.n else 0
  }

  /** `thalis.reduce((sum, t) => sum + PriceOrZero(t), 0)`, folded left to right. */
  function PriceSum(a: seq<Value>): int
    decreases |a|
  {
    if |a| == 0 then 0 else PriceSum(a[..|a| - 1]) + PriceOrZero(a[|a| - 1])
  }
}
