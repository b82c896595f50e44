# Thali combo platter, modelled in Dafny

A model of the four functions of the thali combo platter
(`src/12-thali-combo.js`). Each function receives loosely shaped records of
the form `{ name, items, price, isVeg }`:

- `createThaliDescription(thali)` renders one record as the line
  `NAME (Veg|Non-Veg) - Items: a, b - Rs.250.00`. It returns `""` when the
  record is malformed.
- `getThaliStats(thalis)` reports the record count, the veg and non-veg
  counts, the average price, the cheapest and costliest numeric prices and
  the names. It returns `null` for a non-array or an empty array.
- `searchThaliMenu(thalis, query)` keeps, in order, the records whose name or
  one of whose string items contains the query, ignoring case. It returns
  `[]` for bad arguments.
- `generateThaliReceipt(customerName, thalis)` renders a multi-line bill. It
  returns `""` for bad arguments.

JavaScript's untyped values are the `JsValue.Value` datatype. A value is
`undefined`, `null`, a boolean, an integer number, a string, an array or an
object with own fields. `Prop` reads a field, and `ToStr` is `String(v)` as
a template literal applies it. `JoinValues` is `Array.prototype.join`.

Reading a property of `null` or `undefined` throws in JavaScript. Three of
the functions read a field of every array element without a guard:
`t.isVeg` at line 81, `thali.name` at line 111 and `t.name` at line 129.
Their results are therefore `Outcomes.Completion` values: `Normal(v)` or
`TypeError`. Each contract says exactly when the `TypeError` happens, which
is when some element is `null` or `undefined`.

Modules, in dependency order:

- `Outcomes`: `Option` and `Completion`.
- `JsString`: ASCII `toUpperCase` and `toLowerCase`, `includes`, `join`, and
  a one-character `split` used to read a receipt back line by line.
- `JsNumber`: `String(n)` and `n.toFixed(2)` for integers, and `ParseInt`,
  which reads the digits back.
- `JsValue`: values, property reads and string conversion.
- `ThaliRecord`: the price `reduce` that both stats and receipt use.
- `ThaliDescription`, `ThaliStats`, `ThaliSearch` and `ThaliReceipt`: one
  module per exported function.

Every operation has a partner that it is proved against:

- Validation is paired with the `WellTyped` predicate.
- Rendered numbers are paired with `ParseInt`.
- Rendered text is paired with `SplitOn`.
- `includes` is paired with an occurrence-at-offset predicate.
- The `reduce` over prices is paired with the `map`/`filter` list of numeric
  prices.
- The vegetarian counts are paired with sets of positions.
- The search filter is paired with an explicit list of the increasing
  positions it keeps.

## Model

| member | source | states |
|---|---|---|
| ThaliDescription.WellTyped | src/12-thali-combo.js:57-62 | Definition of the guard. The value is a plain object or an array, since `typeof` says `"object"` for both and `null` is excluded. Its `name` is a string, `items` an array, `price` a number and `isVeg` a boolean. |
| ThaliDescription.Validate | src/12-thali-combo.js:57-65 | A typed record is produced exactly when the value is a non-null object whose `name` is a string, `items` an array, `price` a number and `isVeg` a boolean. Its fields are those four values. |
| ThaliDescription.CreateThaliDescription | src/12-thali-combo.js:55-73 | The result is `""` exactly when one of the five checks fails. Otherwise it is the upper-cased name, `" ("`, the label, `") - Items: "`, the items joined with `", "`, `" - Rs."` and the price's digits followed by `".00"`. |
| ThaliDescription.VegLabel | src/12-thali-combo.js:68 | Definition of `thali.isVeg ? "Veg" : "Non-Veg"`: `"Veg"` for `true` and `"Non-Veg"` for `false`. |
| ThaliDescription.Line | src/12-thali-combo.js:67-72 | Definition of the line for a typed record: the upper-cased name, `" ("`, `VegLabel(isVeg)`, `") - Items: "`, the items joined with `", "`, `" - Rs."` and `Fixed2(price)`. |
| ThaliDescription.DescriptionStartsWithName | src/12-thali-combo.js:67-72 | The line starts with the upper-cased name. Lower-casing that prefix gives the same string as lower-casing the original name. |
| ThaliDescription.LineLabel | src/12-thali-combo.js:68-72 | In a typed record's line, the label comes right after the name and `" ("`. Its first letter is `V` exactly when `isVeg` is true. |
| ThaliDescription.DescriptionLabel | src/12-thali-combo.js:68-72 | For any valid record the label is `"Veg"` when `isVeg` is true and `"Non-Veg"` when it is false. It sits right after the name and `" ("`. |
| ThaliDescription.DescriptionPriceReadsBack | src/12-thali-combo.js:70-72 | The line ends with `"Rs."`, the price's digits and `".00"`. The digits read back as the record's price. |
| ThaliDescription.DescriptionItems | src/12-thali-combo.js:69-72 | When every item is a string, the items segment is those strings joined by `", "` in input order. An empty items array leaves an empty segment between `"Items: "` and `" - Rs."`. |
| ThaliDescription.LineExample | src/12-thali-combo.js:24-25 | The documented vegetarian record renders as `RAJASTHANI THALI (Veg) - Items: dal, churma - Rs.250.00`. |
| ThaliDescription.DescriptionExample | src/12-thali-combo.js:24-25 | The documented example, given as an untyped object, gives that same line. |
| ThaliDescription.DescriptionOneItemExample | src/12-thali-combo.js:51-53 | The second documented example, with `items: ["dal"]`, gives `RAJASTHANI THALI (Veg) - Items: dal - Rs.250.00`. |
| JsNumber.IntToStr | src/12-thali-combo.js:140-141 | `String(n)` of an integer is never empty and never holds a newline, so it stays on its own receipt line. |
| JsNumber.Fixed2 | src/12-thali-combo.js:70 | `price.toFixed(2)` of an integer ends in `".00"`, and what comes before it reads back as the price. |
| JsNumber.IntToStrRoundTrip | src/12-thali-combo.js:140-141 | The decimal text that a template literal writes for an integer reads back as the same integer, negative numbers included. |
| JsValue.Nullish | src/12-thali-combo.js:111 | Definition of a value whose property read throws, as `thali.name` does here and `t.isVeg` and `t.name` do at lines 81 and 129: `undefined` or `null`. |
| JsValue.IsObject | src/12-thali-combo.js:58 | Definition of `typeof v === "object" && v !== null`: a plain object or an array. |
| JsValue.HasNullish | src/12-thali-combo.js:81 | Definition of the throw condition of the first unguarded field read over an array, shared with lines 111 and 129: some element is `undefined` or `null`. |
| JsValue.Prop | src/12-thali-combo.js:58-62 | Definition of a property read. It gives an own field of a plain object, and `undefined` for a missing field or for any value that is not a plain object. Strings, numbers, booleans and arrays have no property with these names. |
| JsValue.ToStr | src/12-thali-combo.js:129 | `String(v)` as a template literal applies it. A number's text reads back as that number. A string is interpolated unchanged. By definition, `undefined` and `null` give `"undefined"` and `"null"`, an array gives its elements joined with `","`, and an object gives `"[object Object]"`. |
| JsValue.ElementTexts | src/12-thali-combo.js:69 | `join` writes one text per element. A `null` or `undefined` element becomes the empty string, and any other element becomes `String(e)`. |
| JsValue.JoinValuesOfStrings | src/12-thali-combo.js:69 | An array of strings joins to exactly those strings, in order, separated by the separator. |
| JsValue.JoinValues | src/12-thali-combo.js:69 | Definition of `es.join(sep)`: the element texts of `ElementTexts` joined by `sep`. |
| JsString.Join | src/12-thali-combo.js:129 | Definition of `join` over strings: `""` for no parts, the single part for one part, otherwise the parts in order with `sep` between neighbours. |
| JsString.SplitOnJoin | src/12-thali-combo.js:129 | Splitting the newline-joined line items at newlines gives the line items back when none of them holds a newline. |
| JsString.Contains | src/12-thali-combo.js:111 | `includes` is true when the needle is a prefix of `hay`, and it can only be true when the needle is no longer than `hay`. Its exact meaning is `ContainsIffOccurs`. |
| JsString.Upper | src/12-thali-combo.js:67 | `toUpperCase` keeps the length. By definition it maps each ASCII lower-case letter to its capital and leaves every other character unchanged. |
| JsString.Lower | src/12-thali-combo.js:108 | `toLowerCase` keeps the length. By definition it maps each ASCII capital to its lower-case letter and leaves every other character unchanged. |
| JsString.ContainsIffOccurs | src/12-thali-combo.js:111 | `hay.includes(needle)` holds exactly when `needle` occurs in `hay` at some offset. |
| JsString.LowerOfUpper | src/12-thali-combo.js:108-111 | Lower-casing an upper-cased string gives the same result as lower-casing the original. |
| ThaliRecord.PriceOrZero | src/12-thali-combo.js:84 | Definition of the `reduce` callback's term `typeof t.price === "number" ? t.price : 0`, which the receipt repeats at line 131. |
| ThaliRecord.PriceSum | src/12-thali-combo.js:84 | Definition of the `reduce`, folded left to right from 0. Each record adds its `price` when that is a number and 0 otherwise. The receipt uses the same fold at line 131. |
| ThaliStats.CountIsVeg | src/12-thali-combo.js:81-82 | The count of records whose `isVeg` is strictly (`===`) the given boolean is at most the number of records. A non-boolean `isVeg` counts for neither flag. |
| ThaliStats.CountIsVegCountsPositions | src/12-thali-combo.js:81-82 | The count for a flag is the number of positions whose `isVeg` is strictly that boolean. |
| ThaliStats.VegCountsBounded | src/12-thali-combo.js:81-82 | `vegCount + nonVegCount` never exceeds the number of records. |
| ThaliStats.NumericPrices | src/12-thali-combo.js:87 | The filtered price list is no longer than the input. It holds a number exactly when some record's `price` is that number. |
| ThaliStats.PriceSumIsSumOfNumericPrices | src/12-thali-combo.js:84-87 | The `reduce` that counts non-number prices as 0 equals the sum of the numeric price list. |
| ThaliStats.Minimum | src/12-thali-combo.js:88 | `Math.min(...ps)` is a member of `ps` that is at most every member. With no arguments it is positive infinity, and only then. |
| ThaliStats.Maximum | src/12-thali-combo.js:89 | `Math.max(...ps)` is a member of `ps` that is at least every member. With no arguments it is negative infinity, and only then. |
| ThaliStats.Names | src/12-thali-combo.js:91 | Definition of `thalis.map(t => t.name)`: one raw `name` per record, in order, `undefined` where it is missing. |
| ThaliStats.Mean | src/12-thali-combo.js:85 | Definition of `totalPrice / totalThalis` as an exact quotient of reals. |
| ThaliStats.Summarize | src/12-thali-combo.js:79-101 | `totalThalis` is the input length. `vegCount` and `nonVegCount` are the sizes of the strict-`true` and strict-`false` position sets, and together they are at most the total. `names[i]` is record `i`'s raw `name`. |
| ThaliStats.StatsAveragePrice | src/12-thali-combo.js:84-85 | The average is the sum of the numeric prices divided by the count of all records. |
| ThaliStats.GetThaliStats | src/12-thali-combo.js:75-102 | The result is `null` exactly for a non-array or an empty array. It is a `TypeError` exactly when a non-empty array holds `null` or `undefined`. Otherwise it is the summary. |
| ThaliStats.StatsPriceBounds | src/12-thali-combo.js:87-89 | Every numeric price lies between `cheapest` and `costliest`, and both are prices of some record. They are the two infinities exactly when no price is numeric. |
| ThaliStats.StatsExample | src/12-thali-combo.js:79-101 | Records A (100, veg) and B (200, non-veg) give 2 records, 1 veg, 1 non-veg, average 150, cheapest 100, costliest 200 and names `["A", "B"]`. |
| ThaliSearch.AnyItemMatches | src/12-thali-combo.js:113-115 | Definition of `items.some(...)`: some element is a string whose lower-cased form includes the query. Non-string elements never match. |
| ThaliSearch.Matches | src/12-thali-combo.js:111-117 | Definition of the filter callback: the `name` is a string that includes the query once lower-cased, or `items` is an array with a matching string element. |
| ThaliSearch.Filter | src/12-thali-combo.js:110-118 | The filter result is never longer than its input. |
| ThaliSearch.SearchThaliMenu | src/12-thali-combo.js:104-119 | The result is `[]` for a non-array or a non-string query. It is a `TypeError` exactly when an element is `null` or `undefined`. Otherwise a record is in the result exactly when it is in the input and matches the lower-cased query, and the result is no longer than the input. |
| ThaliSearch.FilterMembership | src/12-thali-combo.js:110-118 | A value is kept exactly when it occurs in the input and matches. |
| ThaliSearch.FilterPicksMatchingPositions | src/12-thali-combo.js:110-118 | The result is the input at an increasing list of positions, and those positions are exactly the positions whose record matches. |
| ThaliSearch.SearchKeepsMatchesInOrder | src/12-thali-combo.js:106-118 | A search over valid arguments succeeds and returns the matching records in input order, each matching position taken once. |
| ThaliSearch.SearchIgnoresQueryCase | src/12-thali-combo.js:108-115 | Two queries with the same lower-case form give the same result. |
| ThaliSearch.SearchUpperQuery | src/12-thali-combo.js:108 | An upper-cased query finds the same records as the original query. |
| ThaliSearch.AnyItemMatchesIffOccurs | src/12-thali-combo.js:113-115 | `items.some(...)` holds exactly when some string item, lower-cased, contains the query at some offset. |
| ThaliSearch.MatchesIffOccurs | src/12-thali-combo.js:111-117 | A record matches exactly when its string `name`, or one of the string elements of its `items` array, contains the lower-cased query once lower-cased. |
| ThaliSearch.EmptyQueryMatches | src/12-thali-combo.js:111-115 | The empty query keeps exactly the records with a string `name` or at least one string item. |
| ThaliSearch.SearchExample | src/12-thali-combo.js:41 | The query `"DAL"` keeps a record whose only item is `"Dal Baati"`. |
| ThaliSearch.SearchDropsExample | src/12-thali-combo.js:41 | The query `"DAL"` drops a record whose name and items contain no `d`. |
| ThaliReceipt.LineItem | src/12-thali-combo.js:129 | Definition of one line item: `"- "`, `String(name)`, `" x Rs."` and `String(price)`. Both fields are interpolated raw, so a missing field shows as `undefined`. |
| ThaliReceipt.LineItems | src/12-thali-combo.js:129 | Definition of `thalis.map(t => ...)`: one `LineItem` per record, in input order, as many as there are records. |
| ThaliReceipt.Receipt | src/12-thali-combo.js:135-141 | Definition of the bill, built one line at a time: the title, `---`, the customer, the line items, `---`, the total and the item count. |
| ThaliReceipt.GenerateThaliReceipt | src/12-thali-combo.js:121-142 | The result is `""` exactly when the name is not a string or `thalis` is not a non-empty array. It is a `TypeError` exactly when some element is `null` or `undefined`. |
| ThaliReceipt.ReceiptText | src/12-thali-combo.js:127-141 | A produced receipt is exactly `"THALI RECEIPT\n---\nCustomer: "` + upper-cased name + `"\n"` + line items joined by `"\n"` + `"\n---\nTotal: Rs."` + total of numeric prices + `"\nItems: "` + record count. |
| ThaliReceipt.ReceiptTemplate | src/12-thali-combo.js:135-141 | Adding the receipt's lines one at a time gives the single template literal. |
| ThaliReceipt.ReceiptFrame | src/12-thali-combo.js:135-141 | Split at newlines, a receipt is the title and a rule, then the customer line's and the items' pieces, then a rule, the total and the count. |
| ThaliReceipt.ReceiptLines | src/12-thali-combo.js:131-141 | Whatever the names contain, the lines start with `THALI RECEIPT` and `---` and end with `---`, the total and the count, and both numbers read back. The total is the sum of numeric prices. The count is the unfiltered length. |
| ThaliReceipt.ReceiptLinesExact | src/12-thali-combo.js:127-141 | When no text holds a newline, the receipt's lines are the title, the rule and the customer, then one `- name x Rs.price` line per record in input order, then the rule, the total and the count. |
| ThaliReceipt.ReadTotal | src/12-thali-combo.js:140 | Definition of reading a bill back: the number after `"Total: Rs."` on the second-to-last line, if that line starts that way and the rest reads as an integer. |
| ThaliReceipt.ReceiptTotalAgreesWithStats | src/12-thali-combo.js:131-140 | For the same records, the total read back from the receipt, divided by the record count, is the `avgPrice` that `getThaliStats` reports. That total is the sum of the numeric prices. |
| ThaliReceipt.ReceiptExample | src/12-thali-combo.js:121-142 | Customer `ravi` with one record `{name: "Thali1", price: 100}` gives `THALI RECEIPT\n---\nCustomer: RAVI\n- Thali1 x Rs.100\n---\nTotal: Rs.100\nItems: 1`. |

## Left out

- Numbers are integers. Fractional prices, `NaN` and the infinities all
  pass `typeof price === "number"` in the source, but they are not
  modelled, and neither is the rounding of `toFixed(2)`. This also covers
  exponent notation above `1e21` and the precision limit at `2^53`.
- ThaliStats.Summarize: `avgPrice` is the exact quotient `Mean(total, count)`
  as a real, not the two-decimal string that `toFixed(2)` makes of the
  floating-point quotient. Its decimal rendering is left out because it
  needs floating-point rounding.
- JsString.Upper, JsString.Lower: `toUpperCase` and `toLowerCase` map
  ASCII letters only. Their contracts state only that the length is kept.
  The per-character mapping is their definition. The full Unicode case tables, and case maps that change a string's
  length, are left out.
- Strings are sequences of characters, not UTF-16 code units, so
  surrogate pairs are not modelled.
- JsValue.Prop reads own fields of plain objects only. Inherited
  properties, getters, `toString` overrides, functions, symbols, sparse
  arrays and the `length`-like properties of strings and arrays are not
  modelled. None of the names the functions read (`name`, `items`,
  `price`, `isVeg`) is such a property of a built-in value.
- `String(v)` of an object is always `[object Object]`. Custom
  conversions are left out for the same reason.
- ThaliStats.GetThaliStats: `Math.min(...prices)` and `Math.max(...prices)`
  spread the price list into arguments, and an engine throws a `RangeError`
  once that list exceeds its argument limit. The limit depends on the
  engine, so the model returns a summary for arrays of every length.
- ThaliSearch.SearchThaliMenu: values are compared structurally, while the
  source returns the very same record objects. Object identity is not
  modelled.
- Module exports and the surrounding test files are not part of this
  model.
- A reading in which these functions never raise does not match the code.
  `getThaliStats`, `searchThaliMenu` and `generateThaliReceipt` read a
  field of every element, so a `null` or `undefined` element throws a
  `TypeError`. The model follows the code.
- `createThaliDescription` joins whatever the `items` array holds: numbers,
  nested arrays, `null`. It does not restrict items to strings, and the
  model follows the code.
