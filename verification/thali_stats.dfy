/** `getThaliStats`: counts, average price, price extremes and names of a
    non-empty array of thali records. Only `isVeg` and `price` are type
    checked per record; `name` is passed through raw. */
module ThaliStats {
  import opened Outcomes
  import opened JsValue
  import opened ThaliRecord

  /** A result of `Math.min` or `Math.max`: a number, or the infinity they
      return when called with no arguments. */
  datatype Extended = NegInfinity | Finite(value: int) | PosInfinity

  /** The returned summary. `avgPrice` is the exact quotient; the source then
      renders it with `toFixed(2)` (see README). */
  datatype Stats = Stats(
    totalThalis: nat,
    vegCount: nat,
    nonVegCount: nat,
    avgPrice: real,
    cheapest: Extended,
    costliest: Extended,
    names: seq<Value>)

  /** `thalis.filter(t => t.isVeg === flag).length`: strict comparison, so a
      non-boolean `isVeg` counts for neither flag. */
  function CountIsVeg(a: seq<Value>, flag: bool): (n: nat)
    ensures n <= |a|
    decreases |a|
  {
    if |a| == 0 then 0
    else CountIsVeg(a[..|a| - 1], flag) + (if Prop(a[|a| - 1], "isVeg") == Bool(flag) then 1 else 0)
  }

  /** Positions of the records whose `isVeg` is exactly the boolean `flag`. */
  ghost function IsVegPositions(a: seq<Value>, flag: bool): set<int> {
    set i | 0 <= i < |a| && Prop(a[i], "isVeg") == Bool(flag)
  }

  /** The count is the number of positions holding that flag. */
  lemma {:induction false} CountIsVegCountsPositions(a: seq<Value>, flag: bool)
    ensures CountIsVeg(a, flag) == |IsVegPositions(a, flag)|
    decreases |a|
  {
    if |a| == 0 {
      assert IsVegPositions(a, flag) == {};
    } else {
      var b := a[..|a| - 1];
      CountIsVegCountsPositions(b, flag);
      if Prop(a[|a| - 1], "isVeg") == Bool(flag) {
        assert IsVegPositions(a, flag) == IsVegPositions(b, flag) + {|a| - 1};
      } else {
        assert IsVegPositions(a, flag) == IsVegPositions(b, flag);
      }
    }
  }

  /** No record is counted both veg and non-veg. */
  lemma {:induction false} VegCountsBounded(a: seq<Value>)
    ensures CountIsVeg(a, true) + CountIsVeg(a, false) <= |a|
    decreases |a|
  {
    if |a| > 0 {
      VegCountsBounded(a[..|a| - 1]);
    }
  }

  /** `thalis.map(t => t.price).filter(p => typeof p === "number")`: the
      numeric prices, in input order. */
  function NumericPrices(a: seq<Value>): (ps: seq<int>)
    ensures |ps| <= |a|
    ensures forall p :: p in ps <==> exists i :: 0 <= i < |a| && Prop(a[i], "price") == Num(p)
    decreases |a|
  {
    if |a| == 0 then []
    else
      var p := Prop(a[|a| - 1], "price");
      var ps := NumericPrices(a[..|a| - 1]) + (if p.Num? then [p.n] else []);
      assert forall i :: 0 <= i < |a| - 1 ==> a[..|a| - 1][i] == a[i];
      ps
  }

  function Sum(ps: seq<int>): int
    decreases |ps|
  {
    if |ps| == 0 then 0 else Sum(ps[..|ps| - 1]) + ps[|ps| - 1]
  }

  /** The `reduce` that skips non-numbers totals the same prices as the
      `map`/`filter` that collects them. */
  lemma {:induction false} PriceSumIsSumOfNumericPrices(a: seq<Value>)
    ensures PriceSum(a) == Sum(NumericPrices(a))
    decreases |a|
  {
    if |a| > 0 {
      var b := a[..|a| - 1];
      PriceSumIsSumOfNumericPrices(b);
      var p := Prop(a[|a| - 1], "price");
      if p.Num? {
        var ps := NumericPrices(a);
        assert ps == NumericPrices(b) + [p.n];
        assert ps[..|ps| - 1] == NumericPrices(b);
      } else {
        assert NumericPrices(a) == NumericPrices(b);
      }
    }
  }

  /** `Math.min(...ps)`. */
  function Minimum(ps: seq<int>): (m: Extended)
    ensures m == PosInfinity <==> |ps| == 0
    ensures m != NegInfinity
    ensures m.Finite? ==> m.value in ps && forall p :: p in ps ==> m.value <= p
    decreases |ps|
  {
    if |ps| == 0 then PosInfinity
    else
      var m := Minimum(ps[..|ps| - 1]);
      var x := ps[|ps| - 1];
      assert ps == ps[..|ps| - 1] + [x];
      if m.Finite? && m.value <= x then m else Finite(x)
  }

  /** `Math.max(...ps)`. */
  function Maximum(ps: seq<int>): (m: Extended)
    ensures m == NegInfinity <==> |ps| == 0
    ensures m != PosInfinity
    ensures m.Finite? ==> m.value in ps && forall p :: p in ps ==> p <= m.value
    decreases |ps|
  {
    if |ps| == 0 then NegInfinity
    else
      var m := Maximum(ps[..|ps| - 1]);
      var x := ps[|ps| - 1];
      assert ps == ps[..|ps| - 1] + [x];
      if m.Finite? && x <= m.value then m else Finite(x)
  }

  /** `thalis.map(t => t.name)` */
  function Names(a: seq<Value>): seq<Value> {
    seq(|a|, i requires 0 <= i < |a| => Prop(a[i], "name"))
  }

  /** `totalPrice / totalThalis`, as an exact quotient. */
  function Mean(total: int, count: nat): real
    requires count > 0
  {
    total as real / count as real
  }

  /** The summary of a non-empty array with no nullish element: counts
      taken over the whole array, the average over all records (a
      non-number price counting as 0), extremes over the numeric prices,
      and every record's raw `name` in order. */
  function Summarize(a: seq<Value>): (s: Stats)
    requires |a| > 0
    ensures s.totalThalis == |a|
    ensures s.vegCount == |IsVegPositions(a, true)|
    ensures s.nonVegCount == |IsVegPositions(a, false)|
    ensures s.vegCount + s.nonVegCount <= s.totalThalis
    ensures |s.names| == |a|
    ensures forall i :: 0 <= i < |a| ==> s.names[i] == Prop(a[i], "name")
  {
    VegCountsBounded(a);
    CountIsVegCountsPositions(a, true);
    CountIsVegCountsPositions(a, false);
    var prices := NumericPrices(a);
    Stats(
      |a|,
      CountIsVeg(a, true),
      CountIsVeg(a, false),
      Mean(PriceSum(a), |a|),
      Minimum(prices),
      Maximum(prices),
      Names(a))
  }

  /** The average is the total of the numeric prices divided by the number
      of all records, numeric price or not. */
  lemma StatsAveragePrice(a: seq<Value>)
    requires |a| > 0
    ensures Summarize(a).avgPrice == Mean(Sum(NumericPrices(a)), |a|)
  {
    PriceSumIsSumOfNumericPrices(a);
  }

  /** `getThaliStats(thalis)`: `null` exactly for a non-array or an empty
      array; a TypeError exactly when some element is `null` or `undefined`
      (the first `filter` reads `t.isVeg` of every element); otherwise the
      summary of the whole array. */
  function GetThaliStats(thalis: Value): (r: Completion<Option<Stats>>)
    ensures r == Normal(None) <==> !thalis.Arr? || |thalis.elems| == 0
    ensures r == TypeError <==> thalis.Arr? && |thalis.elems| > 0 && HasNullish(thalis.elems)
    ensures r.Normal? && r.value.Some? ==> r.value.value == Summarize(thalis.elems)
  {
    if !thalis.Arr? || |thalis.elems| == 0 then Normal(None)
    else if HasNullish(thalis.elems) then TypeError
    else Normal(Some(Summarize(thalis.elems)))
  }

  /** Every numeric price lies between `cheapest` and `costliest`, both of
      which are prices of some record; with no numeric price at all they are
      the infinities `Math.min()` and `Math.max()` return. */
  lemma StatsPriceBounds(thalis: Value)
    requires thalis.Arr? && |thalis.elems| > 0 && !HasNullish(thalis.elems)
    ensures var a := thalis.elems;
            var s := GetThaliStats(thalis).value.value;
            && (forall i :: 0 <= i < |a| && Prop(a[i], "price").Num? ==>
                  && s.cheapest.Finite? && s.costliest.Finite?
                  && s.cheapest.value <= Prop(a[i], "price").n <= s.costliest.value)
            && (s.cheapest.Finite? ==>
                  exists i :: 0 <= i < |a| && Prop(a[i], "price") == Num(s.cheapest.value))
            && (s.costliest.Finite? ==>
                  exists i :: 0 <= i < |a| && Prop(a[i], "price") == Num(s.costliest.value))
            && ((forall i :: 0 <= i < |a| ==> !Prop(a[i], "price").Num?) <==>
                  s.cheapest == PosInfinity && s.costliest == NegInfinity)
  {
    var a := thalis.elems;
    var ps := NumericPrices(a);
    forall i | 0 <= i < |a| && Prop(a[i], "price").Num?
      ensures Prop(a[i], "price").n in ps
    {
    }
    if forall i :: 0 <= i < |a| ==> !Prop(a[i], "price").Num? {
      if |ps| > 0 {
        assert ps[0] in ps;
      }
    }
  }

  /** The example of two records, one veg and one non-veg. */
  lemma StatsExample()
    ensures var a := [
              Obj(map["name" := Str("A"), "price" := Num(100), "isVeg" := Bool(true)]),
              Obj(map["name" := Str("B"), "price" := Num(200), "isVeg" := Bool(false)])];
            GetThaliStats(Arr(a)) == Normal(Some(Stats(
              2, 1, 1, 150.0, Finite(100), Finite(200), [Str("A"), Str("B")])))
  {
    var x := Obj(map["name" := Str("A"), "price" := Num(100), "isVeg" := Bool(true)]);
    var y := Obj(map["name" := Str("B"), "price" := Num(200), "isVeg" := Bool(false)]);
    var a := [x, y];
    assert Prop(x, "isVeg") == Bool(true) && Prop(y, "isVeg") == Bool(false);
    assert Prop(x, "price") == Num(100) && Prop(y, "price") == Num(200);
    assert a[..1] == [x];
    assert [x][..0] == [];
    assert CountIsVeg(a, true) == 1 && CountIsVeg(a, false) == 1;
    assert PriceSum([x]) == 100;
    assert PriceSum(a) == 300;
    assert NumericPrices(a) == [100, 200];
    assert Names(a) == [Str("A"), Str("B")];
  }
}
