/** `createThaliDescription`: one display line for a well-typed thali record,
    the empty string for anything else. */
module ThaliDescription {
  import opened Outcomes
  import opened JsString
  import opened JsNumber
  import opened JsValue

  /** A record that passed every type check of `createThaliDescription`. */
  datatype Thali = Thali(name: string, items: seq<Value>, price: int, isVeg: bool)

  /** The checks: an object (not null) whose `name` is a string, `items` an
      array, `price` a number and `isVeg` a boolean. */
  predicate WellTyped(v: Value) {
    && IsObject(v)
    && Prop(v, "name").Str?
    && Prop(v, "items").Arr?
    && Prop(v, "price").Num?
    && Prop(v, "isVeg").Bool?
  }

  /** The type guard as a parsing step: the typed record exactly when the
      checks pass, carrying the fields unchanged. */
  function Validate(v: Value): (r: Option<Thali>)
    ensures r.Some? <==> WellTyped(v)
    ensures r.Some? ==> r.value == Thali(Prop(v, "name").s, Prop(v, "items").elems,
                                         Prop(v, "price").n, Prop(v, "isVeg").b)
  {
    if !IsObject(v) then None
    else
      match (Prop(v, "name"), Prop(v, "items"), Prop(v, "price"), Prop(v, "isVeg"))
      case (Str(name), Arr(items), Num(price), Bool(isVeg)) => Some(Thali(name, items, price, isVeg))
      case _ => None
  }

  function VegLabel(isVeg: bool): string {
    if isVeg then "Veg" else "Non-Veg"
  }

  /** The template `${NAME} (${label}) - Items: ${items} - Rs.${price}`. */
  function Line(t: Thali): string {
    Upper(t.name) + " (" + VegLabel(t.isVeg) + ") - Items: " + JoinValues(t.items, ", ")
      + " - Rs." + Fixed2(t.price)
  }

  /** `createThaliDescription(thali)`: the empty string exactly when a check
      fails, otherwise the line built from the record's own fields. */
  function CreateThaliDescription(thali: Value): (r: string)
    ensures r == "" <==> !WellTyped(thali)
    ensures WellTyped(thali) ==>
      r == Upper(Prop(thali, "name").s) + " (" + VegLabel(Prop(thali, "isVeg").b)
           + ") - Items: " + JoinValues(Prop(thali, "items").elems, ", ")
           + " - Rs." + IntToStr(Prop(thali, "price").n) + ".00"
  {
    match Validate(thali)
    case None => ""
    case Some(t) => Line(t)
  }

  /** The line opens with the name upper-cased: lower-casing that prefix
      gives the lower-cased name back. */
  lemma DescriptionStartsWithName(thali: Value)
    requires WellTyped(thali)
    ensures var name := Prop(thali, "name").s;
            var r := CreateThaliDescription(thali);
            |name| <= |r| && r[..|name|] == Upper(name) && Lower(r[..|name|]) == Lower(name)
  {
    var name := Prop(thali, "name").s;
    LowerOfUpper(name);
  }

  /** In a line laid out as `u + " (" + lbl + ") - Items: " + j + " - Rs." + f`,
      `lbl` starts two characters after `u`. */
  lemma LabelAfterName(u: string, lbl: string, j: string, f: string)
    ensures var k := |u| + 2;
            var r := u + " (" + lbl + ") - Items: " + j + " - Rs." + f;
            && k + |lbl| <= |r|
            && r[k - 2..k] == " ("
            && r[k..k + |lbl|] == lbl
  {
    var p := u + " (" + lbl;
    var p1 := p + ") - Items: ";
    assert p1[..|p|] == p;
    var p2 := p1 + j;
    assert p2[..|p|] == p;
    var p3 := p2 + " - Rs.";
    assert p3[..|p|] == p;
    var r := p3 + f;
    assert r[..|p|] == p;
    var k := |u| + 2;
    assert r[k - 2..k] == p[k - 2..k];
    assert r[k..k + |lbl|] == p[k..k + |lbl|];
  }

  /** In a line, the label follows the name and " (", and its first letter
      is 'V' exactly when the record is vegetarian. */
  lemma LineLabel(t: Thali)
    ensures var k := |t.name| + 2;
            var r := Line(t);
            && k + |VegLabel(t.isVeg)| <= |r|
            && r[k - 2..k] == " ("
            && r[k..k + |VegLabel(t.isVeg)|] == VegLabel(t.isVeg)
            && (r[k] == 'V' <==> t.isVeg)
  {
    var u := Upper(t.name);
    var lbl := VegLabel(t.isVeg);
    LabelAfterName(u, lbl, JoinValues(t.items, ", "), Fixed2(t.price));
    assert Line(t)[|u| + 2] == lbl[0];
  }

  /** The label right after the name and " (" is "Veg" when `isVeg` is true
      and "Non-Veg" when it is false; its first letter tells them apart. */
  lemma DescriptionLabel(thali: Value)
    requires WellTyped(thali)
    ensures var k := |Prop(thali, "name").s| + 2;
            var r := CreateThaliDescription(thali);
            var lbl := VegLabel(Prop(thali, "isVeg").b);
            && k + |lbl| <= |r|
            && r[k - 2..k] == " ("
            && r[k..k + |lbl|] == lbl
            && (r[k] == 'V' <==> Prop(thali, "isVeg").b)
  {
    LineLabel(Validate(thali).value);
  }

  /** The price is written last, as "Rs." + digits + ".00", and the digits
      read back as the record's price. */
  lemma DescriptionPriceReadsBack(thali: Value)
    requires WellTyped(thali)
    ensures var p := Prop(thali, "price").n;
            var r := CreateThaliDescription(thali);
            var d := |IntToStr(p)|;
            && d + 6 <= |r|
            && r[|r| - d - 6..|r| - d - 3] == "Rs."
            && r[|r| - 3..] == ".00"
            && ParseInt(r[|r| - d - 3..|r| - 3]) == Some(p)
  {
    var t := Validate(thali).value;
    var h := Upper(t.name) + " (" + VegLabel(t.isVeg) + ") - Items: " + JoinValues(t.items, ", ");
    assert CreateThaliDescription(thali) == h + " - Rs." + (IntToStr(t.price) + ".00");
    PriceAtEnd(h, IntToStr(t.price));
    IntToStrRoundTrip(t.price);
  }

  /** In `h + " - Rs." + (x + ".00")`, `x` sits between "Rs." and the final ".00". */
  lemma PriceAtEnd(h: string, x: string)
    ensures var r := h + " - Rs." + (x + ".00");
            var d := |x|;
            && d + 6 <= |r|
            && r[|r| - d - 6..|r| - d - 3] == "Rs."
            && r[|r| - 3..] == ".00"
            && r[|r| - d - 3..|r| - 3] == x
  {
    var r := h + " - Rs." + (x + ".00");
    var d := |x|;
    assert r[|r| - d - 6..|r| - d - 3] == (h + " - Rs.")[|h| + 3..];
    assert r[|r| - d - 3..] == x + ".00";
  }

  /** Items are the array's elements joined with ", " in order; an empty
      array leaves an empty segment between "Items: " and " - Rs.". */
  lemma DescriptionItems(thali: Value, names: seq<string>)
    requires WellTyped(thali)
    requires var items := Prop(thali, "items").elems;
             |items| == |names| && forall i :: 0 <= i < |items| ==> items[i] == Str(names[i])
    ensures var r := CreateThaliDescription(thali);
            var name := Prop(thali, "name").s;
            var kind := VegLabel(Prop(thali, "isVeg").b);
            r == Upper(name) + " (" + kind + ") - Items: " + Join(names, ", ")
                 + " - Rs." + Fixed2(Prop(thali, "price").n)
    ensures names == [] ==>
            var r := CreateThaliDescription(thali);
            var name := Prop(thali, "name").s;
            var kind := VegLabel(Prop(thali, "isVeg").b);
            r == Upper(name) + " (" + kind + ") - Items: " + " - Rs." + Fixed2(Prop(thali, "price").n)
  {
    var t := Validate(thali).value;
    JoinValuesOfStrings(t.items, names, ", ");
    assert CreateThaliDescription(thali) == Line(t);
    if names == [] {
      assert Join(names, ", ") == "";
    }
  }

  /** The parts of the documented example, each computed on its own. */
  lemma ExampleParts()
    ensures Upper("Rajasthani Thali") == "RAJASTHANI THALI"
    ensures JoinValues([Str("dal"), Str("churma")], ", ") == "dal, churma"
    ensures Fixed2(250) == "250.00"
  {
    JoinValuesOfStrings([Str("dal"), Str("churma")], ["dal", "churma"], ", ");
    assert IntToStr(250) == "250";
  }

  lemma ExampleText()
    ensures "RAJASTHANI THALI" + " (" + "Veg" + ") - Items: " + "dal, churma" + " - Rs." + "250.00"
            == "RAJASTHANI THALI (Veg) - Items: dal, churma - Rs.250.00"
  {
  }

  /** A vegetarian line, assembled from its already computed parts. */
  lemma VegLineFromParts(t: Thali, u: string, j: string, f: string)
    requires t.isVeg
    requires Upper(t.name) == u && JoinValues(t.items, ", ") == j && Fixed2(t.price) == f
    ensures Line(t) == u + " (" + "Veg" + ") - Items: " + j + " - Rs." + f
  {
  }

  /** The documented example, as a typed record. */
  lemma LineExample()
    ensures Line(Thali("Rajasthani Thali", [Str("dal"), Str("churma")], 250, true))
            == "RAJASTHANI THALI (Veg) - Items: dal, churma - Rs.250.00"
  {
    ExampleParts();
    ExampleText();
    VegLineFromParts(Thali("Rajasthani Thali", [Str("dal"), Str("churma")], 250, true),
                     "RAJASTHANI THALI", "dal, churma", "250.00");
  }

  /** The documented example. */
  lemma DescriptionExample()
    ensures CreateThaliDescription(Obj(map[
              "name" := Str("Rajasthani Thali"),
              "items" := Arr([Str("dal"), Str("churma")]),
              "price" := Num(250),
              "isVeg" := Bool(true)]))
            == "RAJASTHANI THALI (Veg) - Items: dal, churma - Rs.250.00"
  {
    var v := Obj(map[
              "name" := Str("Rajasthani Thali"),
              "items" := Arr([Str("dal"), Str("churma")]),
              "price" := Num(250),
              "isVeg" := Bool(true)]);
    assert Prop(v, "name") == Str("Rajasthani Thali");
    assert Prop(v, "items") == Arr([Str("dal"), Str("churma")]);
    assert Prop(v, "price") == Num(250);
    assert Prop(v, "isVeg") == Bool(true);
    assert Validate(v) == Some(Thali("Rajasthani Thali", [Str("dal"), Str("churma")], 250, true));
    LineExample();
  }

  /** The second documented example: a single item. */
  lemma OneItemExampleText()
    ensures "RAJASTHANI THALI" + " (" + "Veg" + ") - Items: " + "dal" + " - Rs." + "250.00"
            == "RAJASTHANI THALI (Veg) - Items: dal - Rs.250.00"
  {
  }

  lemma DescriptionOneItemExample()
    ensures CreateThaliDescription(Obj(map[
              "name" := Str("Rajasthani Thali"),
              "items" := Arr([Str("dal")]),
              "price" := Num(250),
              "isVeg" := Bool(true)]))
            == "RAJASTHANI THALI (Veg) - Items: dal - Rs.250.00"
  {
    var v := Obj(map[
              "name" := Str("Rajasthani Thali"),
              "items" := Arr([Str("dal")]),
              "price" := Num(250),
              "isVeg" := Bool(true)]);
    var t := Thali("Rajasthani Thali", [Str("dal")], 250, true);
    assert Prop(v, "name") == Str("Rajasthani Thali");
    assert Prop(v, "items") == Arr([Str("dal")]);
    assert Prop(v, "price") == Num(250);
    assert Prop(v, "isVeg") == Bool(true);
    assert Validate(v) == Some(t);
    ExampleParts();
    JoinValuesOfStrings([Str("dal")], ["dal"], ", ");
    VegLineFromParts(t, "RAJASTHANI THALI", "dal", "250.00");
    OneItemExampleText();
  }
}
