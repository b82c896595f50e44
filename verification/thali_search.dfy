/** `searchThaliMenu`: an order-preserving, case-insensitive substring
    filter over each record's `name` and `items`. */
module ThaliSearch {
  import opened Outcomes
  import opened JsString
  import opened JsValue

  /** `items.some(item => typeof item === "string" && item.toLowerCase().includes(lq))` */
  function AnyItemMatches(items: seq<Value>, lq: string): bool
    decreases |items|
  {
    |items| > 0 &&
    ((items[0].Str? && Contains(Lower(items[0].s), lq)) || AnyItemMatches(items[1..], lq))
  }

  /** The filter's callback for the lower-cased query `lq`: the name is a
      string containing it, or `items` is an array with a string element
      containing it. */
  predicate Matches(t: Value, lq: string) {
    var name := Prop(t, "name");
    var items := Prop(t, "items");
    (name.Str? && Contains(Lower(name.s), lq)) || (items.Arr? && AnyItemMatches(items.elems, lq))
  }

  /** `thalis.filter(thali => Matches(thali, lq))` */
  function Filter(a: seq<Value>, lq: string): (r: seq<Value>)
    ensures |r| <= |a|
    decreases |a|
  {
    if |a| == 0 then []
    else (if Matches(a[0], lq) then [a[0]] else []) + Filter(a[1..], lq)
  }

  /** `searchThaliMenu(thalis, query)`: `[]` for a non-array or a non-string
      query; a TypeError exactly when some element is `null` or `undefined`
      (the callback reads `thali.name` of every element); otherwise the
      records that match, in input order. */
  function SearchThaliMenu(thalis: Value, query: Value): (r: Completion<seq<Value>>)
    ensures !thalis.Arr? || !query.Str? ==> r == Normal([])
    ensures thalis.Arr? && query.Str? ==> (r == TypeError <==> HasNullish(thalis.elems))
    ensures r.Normal? && thalis.Arr? && query.Str? ==>
      && |r.value| <= |thalis.elems|
      && forall x :: x in r.value <==> x in thalis.elems && Matches(x, Lower(query.s))
  {
    if !thalis.Arr? || !query.Str? then Normal([])
    else if HasNullish(thalis.elems) then TypeError
    else
      FilterMembership(thalis.elems, Lower(query.s));
      Normal(Filter(thalis.elems, Lower(query.s)))
  }

  /** A record is kept exactly when it occurs in the input and matches. */
  lemma {:induction false} FilterMembership(a: seq<Value>, lq: string)
    ensures forall x :: x in Filter(a, lq) <==> x in a && Matches(x, lq)
    decreases |a|
  {
    if |a| > 0 {
      FilterMembership(a[1..], lq);
      assert a == [a[0]] + a[1..];
    }
  }

  /** `idx` lists, in increasing order, the positions of `a` that `r` takes. */
  ghost predicate PicksPositions(r: seq<Value>, a: seq<Value>, idx: seq<int>) {
    && |idx| == |r|
    && (forall k :: 0 <= k < |idx| ==> 0 <= idx[k] < |a| && r[k] == a[idx[k]])
    && (forall k, l :: 0 <= k < l < |idx| ==> idx[k] < idx[l])
  }

  function Shift(idx: seq<int>): seq<int> {
    seq(|idx|, k requires 0 <= k < |idx| => idx[k] + 1)
  }

  /** Positions picked from the tail `a[1..]` are the shifted positions in `a`. */
  lemma ShiftPicks(r: seq<Value>, a: seq<Value>, idx: seq<int>)
    requires |a| > 0
    requires PicksPositions(r, a[1..], idx)
    ensures PicksPositions(r, a, Shift(idx))
    ensures forall j :: 0 < j < |a| ==> (j in Shift(idx) <==> j - 1 in idx)
    ensures 0 !in Shift(idx)
    ensures forall k :: 0 <= k < |idx| ==> Shift(idx)[k] > 0
  {
    var sh := Shift(idx);
    forall k | 0 <= k < |sh|
      ensures 0 <= sh[k] < |a| && r[k] == a[sh[k]]
    {
      assert a[1..][idx[k]] == a[idx[k] + 1];
    }
    forall j | 0 < j < |a|
      ensures j in sh <==> j - 1 in idx
    {
      if j - 1 in idx {
        var k :| 0 <= k < |idx| && idx[k] == j - 1;
        assert sh[k] == j;
      }
    }
  }

  /** Taking position 0 first keeps the positions increasing. */
  lemma ConsPick(r: seq<Value>, a: seq<Value>, idx: seq<int>)
    requires |a| > 0
    requires PicksPositions(r, a, idx)
    requires forall k :: 0 <= k < |idx| ==> idx[k] > 0
    ensures PicksPositions([a[0]] + r, a, [0] + idx)
  {
  }

  /** The filter is exact: it takes, in input order, precisely the positions
      whose record matches. So the result is a subsequence of the input in
      which every matching record appears as often as in the input. */
  lemma {:induction false} FilterPicksMatchingPositions(a: seq<Value>, lq: string) returns (idx: seq<int>)
    ensures PicksPositions(Filter(a, lq), a, idx)
    ensures forall j :: 0 <= j < |a| ==> (j in idx <==> Matches(a[j], lq))
    decreases |a|
  {
    if |a| == 0 {
      idx := [];
    } else {
      var rest := FilterPicksMatchingPositions(a[1..], lq);
      idx := PickHead(a, lq, rest);
    }
  }

  /** One filter step: the positions the filter takes from `a[1..]`, shifted
      by one, and position 0 in front of them when the head matches. */
  lemma PickHead(a: seq<Value>, lq: string, rest: seq<int>) returns (idx: seq<int>)
    requires |a| > 0
    requires PicksPositions(Filter(a[1..], lq), a[1..], rest)
    requires forall j :: 0 <= j < |a[1..]| ==> (j in rest <==> Matches(a[1..][j], lq))
    ensures PicksPositions(Filter(a, lq), a, idx)
    ensures forall j :: 0 <= j < |a| ==> (j in idx <==> Matches(a[j], lq))
  {
    var tail := Filter(a[1..], lq);
    ShiftPicks(tail, a, rest);
    ShiftedMatches(a, lq, rest);
    if Matches(a[0], lq) {
      ConsPick(tail, a, Shift(rest));
      idx := [0] + Shift(rest);
      assert Filter(a, lq) == [a[0]] + tail;
    } else {
      idx := Shift(rest);
      assert Filter(a, lq) == tail;
    }
  }

  /** The shifted tail positions are exactly the matching positions after 0. */
  lemma ShiftedMatches(a: seq<Value>, lq: string, rest: seq<int>)
    requires |a| > 0
    requires forall j :: 0 <= j < |a[1..]| ==> (j in rest <==> Matches(a[1..][j], lq))
    ensures forall j :: 0 < j < |a| ==> (j in Shift(rest) <==> Matches(a[j], lq))
  {
    forall j | 0 < j < |a|
      ensures j in Shift(rest) <==> j - 1 in rest
    {
      if j - 1 in rest {
        var k :| 0 <= k < |rest| && rest[k] == j - 1;
        assert Shift(rest)[k] == j;
      }
    }
    forall j | 0 < j < |a|
      ensures j - 1 in rest <==> Matches(a[j], lq)
    {
      assert a[1..][j - 1] == a[j];
    }
  }

  /** A successful search returns exactly the matching records of the input,
      in input order: the positions it takes are increasing and are precisely
      those whose record matches the lower-cased query. */
  lemma SearchKeepsMatchesInOrder(thalis: Value, query: Value) returns (idx: seq<int>)
    requires thalis.Arr? && query.Str? && !HasNullish(thalis.elems)
    ensures SearchThaliMenu(thalis, query).Normal?
    ensures PicksPositions(SearchThaliMenu(thalis, query).value, thalis.elems, idx)
    ensures forall j :: 0 <= j < |thalis.elems| ==>
              (j in idx <==> Matches(thalis.elems[j], Lower(query.s)))
  {
    idx := FilterPicksMatchingPositions(thalis.elems, Lower(query.s));
  }

  /** Search is case-insensitive in the query: queries that lower-case to the
      same string give the same result. */
  lemma SearchIgnoresQueryCase(thalis: Value, q1: string, q2: string)
    requires Lower(q1) == Lower(q2)
    ensures SearchThaliMenu(thalis, Str(q1)) == SearchThaliMenu(thalis, Str(q2))
  {
  }

  /** In particular an upper-cased query finds what the query finds. */
  lemma SearchUpperQuery(thalis: Value, q: string)
    ensures SearchThaliMenu(thalis, Str(Upper(q))) == SearchThaliMenu(thalis, Str(q))
  {
    LowerOfUpper(q);
  }

  /** Some string item contains the query at some offset. */
  ghost predicate SomeItemOccurs(items: seq<Value>, lq: string) {
    exists j, k :: 0 <= j < |items| && items[j].Str? && OccursAt(Lower(items[j].s), lq, k)
  }

  lemma {:induction false} AnyItemMatchesIffOccurs(items: seq<Value>, lq: string)
    ensures AnyItemMatches(items, lq) <==> SomeItemOccurs(items, lq)
    decreases |items|
  {
    if |items| > 0 {
      AnyItemMatchesIffOccurs(items[1..], lq);
      if items[0].Str? {
        ContainsIffOccurs(Lower(items[0].s), lq);
      }
      if SomeItemOccurs(items, lq) {
        var j, k :| 0 <= j < |items| && items[j].Str? && OccursAt(Lower(items[j].s), lq, k);
        if j > 0 {
          assert items[1..][j - 1] == items[j];
        }
      }
      if SomeItemOccurs(items[1..], lq) {
        var j, k :| 0 <= j < |items[1..]| && items[1..][j].Str? && OccursAt(Lower(items[1..][j].s), lq, k);
        assert items[1..][j] == items[j + 1];
      }
    }
  }

  /** Soundness and completeness of the match rule: a record matches exactly
      when its lower-cased string `name`, or the lower-cased form of some
      string element of its `items` array, contains the lower-cased query. */
  lemma MatchesIffOccurs(t: Value, lq: string)
    ensures Matches(t, lq) <==>
      (Prop(t, "name").Str? && exists k :: OccursAt(Lower(Prop(t, "name").s), lq, k))
      || (Prop(t, "items").Arr? && SomeItemOccurs(Prop(t, "items").elems, lq))
  {
    if Prop(t, "name").Str? {
      ContainsIffOccurs(Lower(Prop(t, "name").s), lq);
    }
    if Prop(t, "items").Arr? {
      AnyItemMatchesIffOccurs(Prop(t, "items").elems, lq);
    }
  }

  /** The empty query keeps exactly the records with a string `name` or at
      least one string item. */
  lemma EmptyQueryMatches(t: Value)
    ensures Matches(t, "") <==>
      Prop(t, "name").Str?
      || (Prop(t, "items").Arr? && exists j :: 0 <= j < |Prop(t, "items").elems| && Prop(t, "items").elems[j].Str?)
  {
    MatchesIffOccurs(t, "");
    if Prop(t, "name").Str? {
      assert OccursAt(Lower(Prop(t, "name").s), "", 0);
    }
    if Prop(t, "items").Arr? {
      var items := Prop(t, "items").elems;
      if j :| 0 <= j < |items| && items[j].Str? {
        assert OccursAt(Lower(items[j].s), "", 0);
      }
    }
  }

  /** A record with a string name and an items array matches through one or
      the other. */
  lemma MatchesNameAndItems(name: string, items: seq<Value>, lq: string)
    ensures Matches(Obj(map["name" := Str(name), "items" := Arr(items)]), lq)
            <==> Contains(Lower(name), lq) || AnyItemMatches(items, lq)
  {
    var t := Obj(map["name" := Str(name), "items" := Arr(items)]);
    assert Prop(t, "name") == Str(name);
    assert Prop(t, "items") == Arr(items);
  }

  /** A one-item list matches exactly when its item does. */
  lemma AnyOfOneItem(item: string, lq: string)
    ensures AnyItemMatches([Str(item)], lq) <==> Contains(Lower(item), lq)
  {
    assert [Str(item)][1..] == [];
  }

  lemma DalBaatiItemMatches()
    ensures AnyItemMatches([Str("Dal Baati")], "dal")
  {
    AnyOfOneItem("Dal Baati", "dal");
    assert LowerChar('D') == 'd' && LowerChar('B') == 'b';
    assert Lower("Dal Baati") == "dal baati";
    assert Contains("dal baati", "dal");
  }

  /** A record found through its item `"Dal Baati"`. */
  lemma DalBaatiMatches()
    ensures Matches(Obj(map["name" := Str("Combo"), "items" := Arr([Str("Dal Baati")])]), "dal")
  {
    MatchesNameAndItems("Combo", [Str("Dal Baati")], "dal");
    DalBaatiItemMatches();
  }

  lemma ComboNameMisses()
    ensures !Contains(Lower("Combo"), "dal")
  {
    assert Lower("Combo") == "combo";
    MissingFirstChar("combo", "dal");
  }

  lemma PaneerItemMisses()
    ensures !AnyItemMatches([Str("paneer")], "dal")
  {
    AnyOfOneItem("paneer", "dal");
    assert Lower("paneer") == "paneer";
    MissingFirstChar("paneer", "dal");
  }

  /** A record with no 'd' anywhere is not found by `"dal"`. */
  lemma PaneerMisses()
    ensures !Matches(Obj(map["name" := Str("Combo"), "items" := Arr([Str("paneer")])]), "dal")
  {
    MatchesNameAndItems("Combo", [Str("paneer")], "dal");
    ComboNameMisses();
    PaneerItemMisses();
  }

  /** Searching a one-record array keeps the record exactly when it matches. */
  lemma SearchOne(x: Value, q: string)
    requires !Nullish(x)
    ensures SearchThaliMenu(Arr([x]), Str(q)) == Normal(if Matches(x, Lower(q)) then [x] else [])
  {
    var kept := if Matches(x, Lower(q)) then [x] else [];
    assert [x][1..] == [];
    assert Filter([x], Lower(q)) == kept + Filter([], Lower(q));
    assert kept + [] == kept;
    assert !HasNullish([x]);
  }

  /** The kind of search the source documents: `"DAL"` finds a record by its
      item `"Dal Baati"`. */
  lemma SearchExample(t: Value)
    requires t == Obj(map["name" := Str("Combo"), "items" := Arr([Str("Dal Baati")])])
    ensures SearchThaliMenu(Arr([t]), Str("DAL")) == Normal([t])
  {
    SearchOne(t, "DAL");
    assert Lower("DAL") == "dal";
    DalBaatiMatches();
  }

  /** ... and drops a record that mentions no dal. */
  lemma SearchDropsExample(u: Value)
    requires u == Obj(map["name" := Str("Combo"), "items" := Arr([Str("paneer")])])
    ensures SearchThaliMenu(Arr([u]), Str("DAL")) == Normal([])
  {
    SearchOne(u, "DAL");
    assert Lower("DAL") == "dal";
    PaneerMisses();
  }
}
