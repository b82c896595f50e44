/** `generateThaliReceipt`: a fixed multi-line bill for a customer and a
    non-empty array of records. Names and prices are interpolated raw;
    only the total skips non-number prices. */
module ThaliReceipt {
  import opened Outcomes
  import opened JsString
  import opened JsNumber
  import opened JsValue
  import opened ThaliRecord
  import ThaliStats

  /** `- ${t.name} x Rs.${t.price}`: both fields as `String` renders them. */
  function LineItem(t: Value): string {
    "- " + ToStr(Prop(t, "name")) + " x Rs." + ToStr(Prop(t, "price"))
  }

  /** `thalis.map(LineItem)` */
  function LineItems(a: seq<Value>): seq<string> {
    seq(|a|, i requires 0 <= i < |a| => LineItem(a[i]))
  }

  /** The text so far, a newline, then one more line. */
  function AddLine(text: string, line: string): string {
    text + "\n" + line
  }

  /** The receipt template literal, line by line. */
  function Receipt(upperName: string, lineItems: string, total: int, count: int): string {
    var text := AddLine("THALI RECEIPT", "---");
    var text := AddLine(text, "Customer: " + upperName);
    var text := AddLine(text, lineItems);
    var text := AddLine(text, "---");
    var text := AddLine(text, "Total: Rs." + IntToStr(total));
    AddLine(text, "Items: " + IntToStr(count))
  }

  /** `generateThaliReceipt(customerName, thalis)`: `""` exactly when the name
      is not a string or `thalis` is not a non-empty array; a TypeError
      exactly when some element is `null` or `undefined` (its `name` is
      read); otherwise the bill, which is never empty. */
  function GenerateThaliReceipt(customerName: Value, thalis: Value): (r: Completion<string>)
    ensures r == Normal("") <==> !customerName.Str? || !thalis.Arr? || |thalis.elems| == 0
    ensures r == TypeError <==>
      customerName.Str? && thalis.Arr? && |thalis.elems| > 0 && HasNullish(thalis.elems)
  {
    if !customerName.Str? || !thalis.Arr? || |thalis.elems| == 0 then Normal("")
    else if HasNullish(thalis.elems) then TypeError
    else
      var a := thalis.elems;
      Normal(Receipt(Upper(customerName.s), Join(LineItems(a), "\n"), PriceSum(a), |a|))
  }

  /** The receipt, written as the one template literal of the source:
      title, rule, customer, the line items, rule, total, item count. */
  lemma ReceiptTemplate(upperName: string, lineItems: string, total: int, count: int)
    ensures Receipt(upperName, lineItems, total, count)
            == "THALI RECEIPT\n---\nCustomer: " + upperName + "\n" + lineItems
               + "\n---\nTotal: Rs." + IntToStr(total) + "\nItems: " + IntToStr(count)
  {
    var t := IntToStr(total);
    var n := IntToStr(count);
    var t1 := AddLine("THALI RECEIPT", "---");
    assert t1 == "THALI RECEIPT\n---";
    var t2 := AddLine(t1, "Customer: " + upperName);
    assert t2 == "THALI RECEIPT\n---\nCustomer: " + upperName by {
      assert t1 + "\n" == "THALI RECEIPT\n---\n";
      assert "THALI RECEIPT\n---\n" + "Customer: " == "THALI RECEIPT\n---\nCustomer: ";
    }
    var t3 := AddLine(t2, lineItems);
    var t4 := AddLine(t3, "---");
    var t5 := AddLine(t4, "Total: Rs." + t);
    assert t5 == t3 + "\n---\nTotal: Rs." + t by {
      assert "\n" + "---" + "\n" + "Total: Rs." == "\n---\nTotal: Rs.";
    }
    assert AddLine(t5, "Items: " + n) == t5 + "\nItems: " + n by {
      assert "\n" + "Items: " == "\nItems: ";
    }
  }

  /** A receipt that is produced is exactly the template filled with the
      upper-cased name, one line item per record joined by newlines, the
      total of the numeric prices and the number of records. */
  lemma ReceiptText(customerName: Value, thalis: Value)
    requires customerName.Str? && thalis.Arr? && |thalis.elems| > 0 && !HasNullish(thalis.elems)
    ensures var a := thalis.elems;
            GenerateThaliReceipt(customerName, thalis)
            == Normal("THALI RECEIPT\n---\nCustomer: " + Upper(customerName.s) + "\n"
                      + Join(LineItems(a), "\n") + "\n---\nTotal: Rs." + IntToStr(PriceSum(a))
                      + "\nItems: " + IntToStr(|a|))
  {
    var a := thalis.elems;
    ReceiptTemplate(Upper(customerName.s), Join(LineItems(a), "\n"), PriceSum(a), |a|);
  }

  /** Splitting at an added line: the text's pieces, then the line's. */
  lemma SplitAddLine(text: string, line: string)
    ensures SplitOn(AddLine(text, line), '\n') == SplitOn(text, '\n') + SplitOn(line, '\n')
  {
    SplitOnConcat(text, line, '\n');
  }

  /** An added line without a newline stays one piece. */
  lemma SplitAddPlainLine(text: string, line: string)
    requires '\n' !in line
    ensures SplitOn(AddLine(text, line), '\n') == SplitOn(text, '\n') + [line]
  {
    SplitAddLine(text, line);
    SplitOnWithoutSeparator(line, '\n');
  }

  /** Seven lines, of which only the third and fourth may themselves hold
      newlines, split back into those lines. */
  lemma SplitSevenLines(p0: string, p1: string, p2: string, p3: string, p4: string, p5: string, p6: string)
    requires '\n' !in p0 && '\n' !in p1 && '\n' !in p4 && '\n' !in p5 && '\n' !in p6
    ensures SplitOn(AddLine(AddLine(AddLine(AddLine(AddLine(AddLine(p0, p1), p2), p3), p4), p5), p6), '\n')
            == [p0, p1] + SplitOn(p2, '\n') + SplitOn(p3, '\n') + [p4, p5, p6]
  {
    var t1 := AddLine(p0, p1);
    var t2 := AddLine(t1, p2);
    var t3 := AddLine(t2, p3);
    var t4 := AddLine(t3, p4);
    var t5 := AddLine(t4, p5);
    SplitOnWithoutSeparator(p0, '\n');
    SplitAddPlainLine(p0, p1);
    SplitAddLine(t1, p2);
    SplitAddLine(t2, p3);
    SplitAddPlainLine(t3, p4);
    SplitAddPlainLine(t4, p5);
    SplitAddPlainLine(t5, p6);
  }

  /** Split into lines, every receipt starts with the title and a rule and
      ends with a rule, the total and the item count, whatever the names
      contain. */
  lemma ReceiptFrame(upperName: string, lineItems: string, total: int, count: int)
    ensures SplitOn(Receipt(upperName, lineItems, total, count), '\n')
            == ["THALI RECEIPT", "---"]
               + SplitOn("Customer: " + upperName, '\n') + SplitOn(lineItems, '\n')
               + ["---", "Total: Rs." + IntToStr(total), "Items: " + IntToStr(count)]
  {
    SplitSevenLines("THALI RECEIPT", "---", "Customer: " + upperName, lineItems, "---",
                    "Total: Rs." + IntToStr(total), "Items: " + IntToStr(count));
  }

  /** Whatever the names contain, the receipt's lines begin with the title
      and a rule and end with a rule, the total of the numeric prices and
      the number of records, and the two numbers read back exactly. */
  lemma ReceiptLines(customerName: Value, thalis: Value)
    requires customerName.Str? && thalis.Arr? && |thalis.elems| > 0 && !HasNullish(thalis.elems)
    ensures GenerateThaliReceipt(customerName, thalis).Normal?
    ensures var a := thalis.elems;
            var lines := SplitOn(GenerateThaliReceipt(customerName, thalis).value, '\n');
            && |lines| >= 7
            && lines[..2] == ["THALI RECEIPT", "---"]
            && lines[|lines| - 3..] == ["---", "Total: Rs." + IntToStr(PriceSum(a)), "Items: " + IntToStr(|a|)]
            && ParseInt(lines[|lines| - 2][10..]) == Some(PriceSum(a))
            && ParseInt(lines[|lines| - 1][7..]) == Some(|a|)
  {
    var a := thalis.elems;
    var t := "Total: Rs." + IntToStr(PriceSum(a));
    var n := "Items: " + IntToStr(|a|);
    ReceiptFrame(Upper(customerName.s), Join(LineItems(a), "\n"), PriceSum(a), |a|);
    assert t[10..] == IntToStr(PriceSum(a));
    assert n[7..] == IntToStr(|a|);
    IntToStrRoundTrip(PriceSum(a));
    IntToStrRoundTrip(|a|);
  }

  /** Upper-casing neither creates nor removes newlines. */
  lemma UpperKeepsNoNewline(s: string)
    requires '\n' !in s
    ensures '\n' !in Upper(s)
  {
    forall i | 0 <= i < |s|
      ensures Upper(s)[i] != '\n'
    {
      assert s[i] != '\n';
    }
  }

  /** When neither the customer name nor any line item holds a newline, the
      receipt is exactly: title, rule, customer, one line per record in
      input order, rule, total, item count. */
  lemma ReceiptLinesExact(customerName: Value, thalis: Value)
    requires customerName.Str? && thalis.Arr? && |thalis.elems| > 0 && !HasNullish(thalis.elems)
    requires '\n' !in customerName.s
    requires forall i :: 0 <= i < |thalis.elems| ==> '\n' !in LineItem(thalis.elems[i])
    ensures GenerateThaliReceipt(customerName, thalis).Normal?
    ensures var a := thalis.elems;
            SplitOn(GenerateThaliReceipt(customerName, thalis).value, '\n')
            == ["THALI RECEIPT", "---", "Customer: " + Upper(customerName.s)]
               + LineItems(a)
               + ["---", "Total: Rs." + IntToStr(PriceSum(a)), "Items: " + IntToStr(|a|)]
  {
    var a := thalis.elems;
    var c := "Customer: " + Upper(customerName.s);
    assert GenerateThaliReceipt(customerName, thalis)
           == Normal(Receipt(Upper(customerName.s), Join(LineItems(a), "\n"), PriceSum(a), |a|));
    ReceiptFrame(Upper(customerName.s), Join(LineItems(a), "\n"), PriceSum(a), |a|);
    CustomerLine(customerName.s);
    SplitOnJoin(LineItems(a), '\n');
    assert ["THALI RECEIPT", "---"] + [c] == ["THALI RECEIPT", "---", c];
  }

  /** A customer name without newlines gives a single customer line. */
  lemma CustomerLine(name: string)
    requires '\n' !in name
    ensures SplitOn("Customer: " + Upper(name), '\n') == ["Customer: " + Upper(name)]
  {
    var c := "Customer: " + Upper(name);
    UpperKeepsNoNewline(name);
    assert '\n' !in c;
    SplitOnWithoutSeparator(c, '\n');
  }

  /** The number a receipt's total line shows: the second-to-last line must
      start with "Total: Rs." and the rest must read as an integer. */
  function ReadTotal(receipt: string): Option<int> {
    var lines := SplitOn(receipt, '\n');
    if |lines| >= 2 && |lines[|lines| - 2]| >= 10 && lines[|lines| - 2][..10] == "Total: Rs."
    then ParseInt(lines[|lines| - 2][10..])
    else None
  }

  /** The total read back from a receipt is the price sum `getThaliStats`
      works from: divided by the receipt's item count it is the reported
      average, and it totals exactly the numeric prices. */
  lemma ReceiptTotalAgreesWithStats(customerName: Value, thalis: Value)
    requires customerName.Str? && thalis.Arr? && |thalis.elems| > 0 && !HasNullish(thalis.elems)
    ensures GenerateThaliReceipt(customerName, thalis).Normal?
    ensures ReadTotal(GenerateThaliReceipt(customerName, thalis).value).Some?
    ensures var a := thalis.elems;
            var total := ReadTotal(GenerateThaliReceipt(customerName, thalis).value).value;
            && ThaliStats.GetThaliStats(thalis) == Normal(Some(ThaliStats.Summarize(a)))
            && ThaliStats.Summarize(a).avgPrice == ThaliStats.Mean(total, |a|)
            && total == ThaliStats.Sum(ThaliStats.NumericPrices(a))
  {
    var a := thalis.elems;
    ReceiptLines(customerName, thalis);
    var lines := SplitOn(GenerateThaliReceipt(customerName, thalis).value, '\n');
    var t := "Total: Rs." + IntToStr(PriceSum(a));
    assert lines[|lines| - 2] == t;
    assert t[..10] == "Total: Rs.";
    ThaliStats.PriceSumIsSumOfNumericPrices(a);
  }

  /** The record of the example, and its rendered parts. */
  lemma ReceiptExampleParts()
    ensures var x := Obj(map["name" := Str("Thali1"), "price" := Num(100)]);
            && Upper("ravi") == "RAVI"
            && Join(LineItems([x]), "\n") == "- Thali1 x Rs.100"
            && PriceSum([x]) == 100
            && !HasNullish([x])
  {
    var x := Obj(map["name" := Str("Thali1"), "price" := Num(100)]);
    assert Prop(x, "name") == Str("Thali1") && Prop(x, "price") == Num(100);
    assert IntToStr(100) == "100";
    assert LineItem(x) == "- Thali1 x Rs.100";
    assert LineItems([x]) == ["- Thali1 x Rs.100"];
    assert [x][..0] == [];
  }

  lemma ReceiptExampleText()
    ensures Receipt("RAVI", "- Thali1 x Rs.100", 100, 1)
            == AddLine(AddLine(AddLine(AddLine(AddLine(AddLine("THALI RECEIPT", "---"),
                 "Customer: RAVI"), "- Thali1 x Rs.100"), "---"), "Total: Rs.100"), "Items: 1")
  {
    assert IntToStr(100) == "100" && IntToStr(1) == "1";
    assert "Customer: " + "RAVI" == "Customer: RAVI";
    assert "Total: Rs." + "100" == "Total: Rs.100";
    assert "Items: " + "1" == "Items: 1";
  }

  lemma ReceiptExampleLines()
    ensures AddLine(AddLine(AddLine(AddLine(AddLine(AddLine("THALI RECEIPT", "---"),
              "Customer: RAVI"), "- Thali1 x Rs.100"), "---"), "Total: Rs.100"), "Items: 1")
            == "THALI RECEIPT\n---\nCustomer: RAVI\n- Thali1 x Rs.100\n---\nTotal: Rs.100\nItems: 1"
  {
    var t1 := AddLine("THALI RECEIPT", "---");
    assert t1 == "THALI RECEIPT\n---";
    var t2 := AddLine(t1, "Customer: RAVI");
    assert t2 == "THALI RECEIPT\n---\nCustomer: RAVI";
    var t3 := AddLine(t2, "- Thali1 x Rs.100");
    assert t3 == "THALI RECEIPT\n---\nCustomer: RAVI\n- Thali1 x Rs.100";
    var t4 := AddLine(t3, "---");
    assert t4 == "THALI RECEIPT\n---\nCustomer: RAVI\n- Thali1 x Rs.100\n---";
    var t5 := AddLine(t4, "Total: Rs.100");
    assert t5 == "THALI RECEIPT\n---\nCustomer: RAVI\n- Thali1 x Rs.100\n---\nTotal: Rs.100";
  }

  /** An example with one record. */
  lemma ReceiptExample()
    ensures GenerateThaliReceipt(Str("ravi"), Arr([Obj(map["name" := Str("Thali1"), "price" := Num(100)])]))
            == Normal("THALI RECEIPT\n---\nCustomer: RAVI\n- Thali1 x Rs.100\n---\nTotal: Rs.100\nItems: 1")
  {
    var x := Obj(map["name" := Str("Thali1"), "price" := Num(100)]);
    ReceiptExampleParts();
    assert GenerateThaliReceipt(Str("ravi"), Arr([x])) == Normal(Receipt("RAVI", "- Thali1 x Rs.100", 100, 1));
    ReceiptExampleText();
    ReceiptExampleLines();
  }
}
