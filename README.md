# Restaurant ordering core, in Dafny

This project models the core of a restaurant ordering system. The system has a Node/MySQL
back end and a React front end. The model covers the following:

- **Order store** (`Orders`, `OrderSchema`, `OrderNormalize`). `createFull` runs as a
  transaction over the `orders`, `order_items` and `payments` tables. It inserts the header,
  writes the optional header columns, inserts the kept item lines, reads the total back,
  writes it, and records one payment row. It rolls back on any failing statement. The store
  also covers the memoised column probe, the `enum(...)` column parser, the item-type and
  payment-method normalisers, and `updateStatus`, `pay` and `remove`.
- **Order controller** (`OrderController`). Coerces the request, filters the lines and
  guards the status, pay and delete handlers.
- **Drink handlers** (`DrinkController`, `DrinkBasePrice`, `ColumnFallback`). Price
  selection by temperature, with a fallback to the smallest positive price. The
  base-price map built per drink. The SET-clause builders of the update handlers. The
  loops that try id columns one after another.
- **Tables and bookings** (`TableModel`, `BookingsController`, `BookingsModel`). The
  status and zone validators, the partial-update builder, the booking status whitelist,
  the mapping from booking status to table status, and the assembly of the booking
  date-time.
- **Snacks** (`SnackModel`). Clamping of limit and offset, lookup by any id column,
  and update and delete with column fallback.
- **Customer pages** (`ConfirmFoods`, `DrinkPayment`, `BookingPage`). Coercion of cart
  lines, the selection and its total, the payment label and status, and picking a free
  table on the booking map.
- **Admin pages** (`AdminTable`, `AdminReports`, with `TableLabels` shared by the table
  pages). Zone derivation from a table label, status normalisation, ordering by the
  label's first number, filters and counts. Also the per-day report rows, the summary
  and the chart series.

`Js` holds the part of JavaScript's value semantics these handlers rely on: truthiness,
`||` and `??`, `Number(...)` and `String(...)`, `trim`, ASCII `toLowerCase`, and `| 0`.

The database is explicit state. `Orders.Database` is a class whose fields are the three
tables and the next AUTO_INCREMENT value; its methods change them. `OrderSchema.ColumnCache`
holds the column memo. The schema catalogue (which tables and columns exist, and the enum
column types) is a fixed value of the store. A statement that fails is chosen by a
`failAt` position parameter, and a failed transaction restores the saved tables.
Database reads made by the handlers outside a transaction appear as inputs.

Prices, quantities and totals are integers, so arithmetic is exact. `Number(...)` on a
string follows JavaScript's grammar for numeric strings: blank text is 0; `0x`, `0o` and
`0b` introduce hex, octal and binary integers; otherwise an optional sign comes before
`Infinity` or a decimal literal with an optional fraction and exponent. Any other text is
NaN. A value at or beyond the double overflow threshold is an infinity, and a value at or
below half the smallest positive double is 0. A fraction is rounded away from zero to an
integer.

Behaviour worth knowing:

- `normalizeType` returns any other non-empty input trimmed and lower-cased; it does not
  map it to `"drink"` (backend/models/orderModel.js:42-48).
- `normalizeMethod` can map an option that is itself a payment alias to a different
  option of the same group, so a canonical enum value is not always returned unchanged
  (backend/models/orderModel.js:50-76). For example, with the options `cash` and `เงินสด`,
  the input `เงินสด` gives `cash`.
- The admin table page keeps only two statuses: anything other than a trimmed ว่าง
  becomes กำลังใช้งาน, so the server's จองแล้ว is shown as busy
  (frontend/src/pages/admin/AdminTable.jsx:59-61).
- The booking page takes a zone from the row's `zone`, `area` or `section` using
  `(zone || area || section) ?? derived` (frontend/src/pages/booking.jsx:43). The derived
  zone is used only when `section` is null or undefined, not whenever no zone is given.
- The drink payment page posts only the table and the payment status, with no items, so
  the order handler answers 400 `NO_ITEMS` and no order is recorded (see "## Findings").

## Model

| member | source | states |
|---|---|---|
| Js.Trim | backend/models/orderModel.js:43 | `trim()` leaves no white space at either end, returns an already trimmed string unchanged, and never lengthens the string |
| Js.Lower | backend/models/orderModel.js:43 | `toLowerCase()` keeps the length; `Js.LowerAt` and `Js.LowerPointwise` state that it works character by character |
| Js.LowerIdempotent | backend/models/orderModel.js:43 | lower-casing twice is lower-casing once |
| Js.CanonIdempotent | backend/models/orderModel.js:51 | `String(x).trim().toLowerCase()` applied to its own result changes nothing |
| Js.LowerHasNoUpper | backend/models/orderModel.js:63 | lower-casing leaves no ASCII capital, so comparing lower-cased synonyms is case-insensitive |
| Js.NatToStringRoundTrip | frontend/src/pages/admin/AdminTable.jsx:65 | `String(n)` of a natural number reads back as `n` |
| Js.StringToNumber | backend/controllers/orderController.js:4 | `Number(s)` of a blank string is 0 |
| Js.ToNumber | backend/controllers/orderController.js:4 | `Number(v)`: null and blank text are 0, undefined and objects NaN, a boolean 1 or 0, a number itself |
| Js.DigitStringToNumber | backend/controllers/orderController.js:4 | `Number(s)` of a trimmed run of decimal digits is its value, below the overflow bound |
| Js.DigitsAsDecimal | backend/controllers/orderController.js:4 | a run of digits is a decimal literal with no fraction and no exponent |
| Js.IndexOfAny | backend/controllers/orderController.js:4 | the split point of a literal (its exponent marker or its point) is the first such character, or the end |
| Js.IndexOfAnyAbsent | backend/controllers/orderController.js:4 | a literal without the marker is not split |
| Js.RoundDecimal | backend/controllers/orderController.js:4 | a non-negative decimal reads as a non-negative integer or Infinity, never NaN, and 0 reads as 0 |
| Js.FractionIsFinite | backend/controllers/orderController.js:4 | `Number("12.5")` is finite (rounded to 13), so `toNum` keeps it |
| Js.ExponentIsFinite | backend/controllers/orderController.js:4 | `Number("1e3")` is 1000 |
| Js.HexIsFinite | backend/controllers/orderController.js:4 | `Number("0x10")` is 16, while `Number("-0x10")` is NaN |
| Js.ToInt32 | backend/models/snackModel.js:21-22 | `n \| 0` is a 32-bit value, 0 for NaN and the infinities, equal to `n` modulo 2^32, and `n` itself when it already fits |
| Js.OptNum | backend/controllers/drinkController.js:6 | a possibly-null number written back as a value reads back through `toNum` unchanged, and is nullish exactly when it is null |
| Js.TrimOfBlanks | backend/controllers/orderController.js:47 | a string of white space only trims to "" |
| Js.NatToString | frontend/src/pages/admin/AdminTable.jsx:65 | the decimal numeral of a natural number is a non-empty string of digits |
| OrderSchema.CacheKeyInjective | backend/models/orderModel.js:7 | the memo key `${table}.${column}` identifies the pair when the table name holds no dot |
| OrderSchema.ColumnCache.ColumnExists | backend/models/orderModel.js:6-22 | a cached key is answered from the memo with no query and no change; an uncached key is queried once and its answer stored; with a sound memo the answer is the catalogue's |
| OrderSchema.ColumnCache.constructor | backend/models/orderModel.js:5 | the memo starts empty |
| OrderSchema.EnumBody | backend/models/orderModel.js:35-36 | the text matched by `^enum\((.+)\)$` is non-empty and holds no line terminator |
| OrderSchema.FirstSplit | backend/models/orderModel.js:38 | the split position is the first comma followed by an even number of quotes, at or after the start |
| OrderSchema.GetEnumOptions | backend/models/orderModel.js:24-40 | a missing column, or a type that is not `enum(...)`, gives [] |
| OrderSchema.SplitJoinQuoted | backend/models/orderModel.js:38 | splitting `'v1','v2',...` at the top-level commas gives one piece per literal, each the quoted literal |
| OrderSchema.StripQuotesOfQuote | backend/models/orderModel.js:39 | trimming and removing the surrounding quotes of a quoted literal gives the literal |
| OrderSchema.EnumOptionsRoundTrip | backend/models/orderModel.js:24-40 | for a column of type `enum('v1',...,'vn')` with plain literals, the options are exactly `v1..vn` in declaration order |
| OrderSchema.DotIndexOfKey | backend/models/orderModel.js:7 | the first dot of a memo key sits right after a dot-free table name |
| OrderSchema.NoSplitInsideQuote | backend/models/orderModel.js:38 | no comma inside a quoted plain literal is a split point when an even number of quotes follows the literal |
| OrderSchema.SplitAfterQuote | backend/models/orderModel.js:38 | the first split point of a quoted literal followed by a comma is that comma |
| OrderSchema.JoinQuotedNoLineTerminator | backend/models/orderModel.js:35 | a list of quoted plain literals holds no line terminator, so `.+` matches all of it |
| OrderNormalize.NormalizeType | backend/models/orderModel.js:42-48 | the drink, snack and main-dish synonym lists map to drink, snack and main_dish; a blank type is drink; any other type comes back trimmed and lower-cased |
| OrderNormalize.NormalizeTypeCanonical | backend/models/orderModel.js:42-48 | every result is its own trimmed lower-case form |
| OrderNormalize.NormalizeTypeIdempotent | backend/models/orderModel.js:42-48 | normalising a normalised type changes nothing |
| OrderNormalize.NormalizeTypeKeepsUnknown | backend/models/orderModel.js:47 | an unknown type such as " dessert " comes back as "dessert", not as drink |
| OrderNormalize.LastGroupKey | backend/models/orderModel.js:62-63 | the loop leaves the key of a group that has a synonym equal to the input, or null when no group has one |
| OrderNormalize.FindGroup | backend/models/orderModel.js:67 | the group found by key is in the table and carries that key; none is found only when no group has the key |
| OrderNormalize.FindLowerEq | backend/models/orderModel.js:65-73 | the option found matches case-insensitively; none is found only when no option does |
| OrderNormalize.FindLowerIn | backend/models/orderModel.js:68 | the option found is the first one whose lower-cased spelling is a synonym of the group; none is found only when no option is |
| OrderNormalize.NormalizeMethod | backend/models/orderModel.js:50-76 | with no options the raw input is returned (null when empty); with options the result is null or a non-empty member of the options |
| OrderNormalize.GroupsWellFormed | backend/models/orderModel.js:54-60 | the synonym table lists each key among its synonyms, spells every synonym in lower case without surrounding blanks, and never lists one spelling under two groups |
| OrderNormalize.NormalizeMethodGrouped | backend/models/orderModel.js:62-70 | for a synonym of a group: when an option is spelled as the key, ignoring case, the result is the first such option; otherwise, when an option is a synonym of the group, the result is the first such option; with neither the result is null |
| OrderNormalize.AliasesNormalizeAlike | backend/models/orderModel.js:62-75 | all synonyms of one group, "cash" and "เงินสด" among them, give the same result |
| OrderNormalize.NormalizeMethodUngrouped | backend/models/orderModel.js:72-75 | an input no group knows is matched only directly: the result is an option equal to it ignoring case, and there is one exactly when such an option exists |
| OrderNormalize.NormalizeMethodIdempotent | backend/models/orderModel.js:50-76 | normalising a returned option against the same options returns it again |
| OrderNormalize.ThaiCashPrefersKey | backend/models/orderModel.js:64-66 | with the options `cash` and `เงินสด`, the input `เงินสด` is stored as `cash`: an enum value is not always returned unchanged |
| OrderNormalize.CanonicalTypeNames | backend/models/orderModel.js:44-46 | drink, snack and main_dish are their own canonical forms |
| OrderNormalize.CanonOfPaddedDessert | backend/models/orderModel.js:43 | " dessert " canonicalises to "dessert" |
| OrderNormalize.GroupKeyCases | backend/models/orderModel.js:62-63 | no group key is found exactly when no group lists the input among its synonyms |
| OrderNormalize.SynonymFallbacksAgree | backend/models/orderModel.js:68-73 | two synonyms of one group reach the same option through the synonym search and the direct match |
| OrderNormalize.DirectMissesGroup | backend/models/orderModel.js:68-73 | when no option is a synonym of the group, a synonym of the group matches no option directly either |
| OrderNormalize.CashSynonyms | backend/models/orderModel.js:55 | the first group is cash, and เงินสด is one of its synonyms |
| OrderNormalize.FirstOptionIsCash | backend/models/orderModel.js:65 | an option list starting with cash finds cash for the key cash |
| Orders.InitialStatus | backend/models/orderModel.js:108 | the order starts paid exactly when the payment method is the string "cash" or "card", and pending otherwise |
| Orders.HeaderTable | backend/models/orderModel.js:113 | `table_number \|\| null` stores the number unless it is missing or 0 |
| Orders.NormalizeLine | backend/models/orderModel.js:133-139 | the line's id is its trimmed reference id ("" when missing); quantity and price are kept |
| Orders.FilterKept | backend/models/orderModel.js:140 | a line is kept exactly when it has a non-empty id and a positive quantity |
| Orders.KeptLinesSpec | backend/models/orderModel.js:133-140 | the inserted lines are exactly the normalised input lines with an id and a positive quantity, and no others |
| Orders.ItemRowsFor | backend/models/orderModel.js:148-150 | one item row per kept line, in order, under the new order id |
| Orders.TotalFromInsertedRows | backend/models/orderModel.js:153-157 | the sum read back under a fresh id is Σ qty × price over the lines just inserted |
| Orders.PatchOrders | backend/models/orderModel.js:187-189 | `UPDATE orders ... WHERE order_id = ?` changes the rows with that id and keeps every other row |
| Orders.PatchFresh | backend/models/orderModel.js:118-126 | patching the header just inserted under a fresh id changes that row alone |
| Orders.Without | backend/models/orderModel.js:196-198 | `DELETE ... WHERE order_id = ?` keeps exactly the rows with another order id |
| Orders.CommittedPayments | backend/models/orderModel.js:163-175 | one payment row exactly when the `payments` table exists; it carries the total for cash and card and 0 otherwise |
| Orders.Database.constructor | backend/models/orderModel.js:79 | an empty store whose next id is 1 |
| Orders.Database.Rollback | backend/models/orderModel.js:179-181 | ROLLBACK restores the three tables saved at BEGIN and keeps the next id |
| Orders.Database.PatchHeader | backend/models/orderModel.js:118-126 | one optional-column UPDATE changes the new header alone |
| Orders.Database.OptionalColumn | backend/models/orderModel.js:118-126 | an optional header column is written exactly when its value is truthy and the column exists |
| Orders.Database.OptionalColumns | backend/models/orderModel.js:117-131 | after the three optional columns the header holds the label, note and method that are truthy and have a column; a failing UPDATE is reported at its position |
| Orders.Database.InsertLines | backend/models/orderModel.js:144-150 | the loop appends one row per kept line, unless the INSERT at the failing position fails |
| Orders.Database.CreateFull | backend/models/orderModel.js:103-185 | on success the result is the new id, the total Σ qty × price of the kept lines, and the initial status; the tables gain the header, the item rows and the payment rows; with no kept line it throws NO_ITEMS; any failure leaves all three tables as they were |
| Orders.Database.Commit | backend/models/orderModel.js:144-177 | inserting the lines, reading the sum, writing `total_amount` and recording the payment either commits all of it or rolls every table back |
| Orders.Database.RecordPayment | backend/models/orderModel.js:162-177 | the payment row is written with the enum-normalised method when the `payments` table exists, then the transaction commits |
| Orders.Database.UpdateStatus | backend/models/orderModel.js:187-189 | any status string replaces the order's status, with no transition check; no other table changes |
| Orders.Database.Pay | backend/models/orderModel.js:191-193 | the order's status becomes ชำระเงินแล้ว, whatever it was |
| Orders.Database.Remove | backend/models/orderModel.js:195-199 | items, then payments, then the header are deleted by three separate statements; a failure keeps the deletions made before it |
| Orders.CommittedRowsValid | backend/models/orderModel.js:111-115 | committing a header and its rows under the fresh AUTO_INCREMENT id keeps ids positive, distinct and below the next id |
| Orders.PayMakesPaid | backend/models/orderModel.js:191-193 | after pay the order is paid and every other field and row is unchanged |
| Orders.RemoveLeavesNoTrace | backend/models/orderModel.js:195-199 | after a complete remove no row of any table refers to the order, and every other row is kept |
| Orders.NormalizedLines | backend/models/orderModel.js:133-139 | one normalised line per input line, in order |
| Orders.ApplyPatch | backend/models/orderModel.js:118-126 | a header patch never changes the order id |
| Orders.SumForOrderOthers | backend/models/orderModel.js:153-157 | rows of other orders add nothing to an order's sum |
| Orders.SavedRowsFresh | backend/models/orderModel.js:111-115 | no saved row carries the next AUTO_INCREMENT id |
| Orders.WithoutKeepsDistinct | backend/models/orderModel.js:195-199 | deleting an order keeps the remaining order ids distinct |
| OrderController.ToNum | backend/controllers/orderController.js:4 | `toNum(v, fb)` is `Number(v)` when that is finite, and the fallback otherwise |
| OrderController.TableNumberOf | backend/controllers/orderController.js:34 | the table number is `Number(body.table_number)` exactly when that is finite, and null otherwise |
| OrderController.TextOr | backend/controllers/orderController.js:35-37 | `asStr(v \|\| fallback)`: a falsy value gives the fallback, a truthy string itself, and a truthy non-string "" |
| OrderController.CoerceItem | backend/controllers/orderController.js:40-46 | the reference id is present exactly when `ref_id` is not null or undefined, and is then `String(ref_id)`; a non-numeric price or quantity reads as 0 |
| OrderController.FilterSurvivors | backend/controllers/orderController.js:47 | a line survives exactly when its quantity is positive and its reference id is a non-empty string |
| OrderController.CoerceEntries | backend/controllers/orderController.js:40 | the map fails exactly when some entry is null or undefined; otherwise it gives one line per entry |
| OrderController.PrepareItems | backend/controllers/orderController.js:39-47 | an `items` that is not an array counts as empty; every line passed on survives the filter |
| OrderController.PrepareArgs | backend/controllers/orderController.js:34-37 | the label and the payment method default to "unknown"; a string payment method is lower-cased; the table number is the finite `Number(...)` or null |
| OrderController.CreateOrder | backend/controllers/orderController.js:31-69 | a null item answers 500; no surviving line answers 400 NO_ITEMS and the store is not called, and 400 is answered for nothing else; surviving lines that createFull drops all (blank ids) answer 500 NO_ITEMS; success answers 201 with the store's id, total and status, and the store gains the header, item rows and payments; any other answer leaves the tables as they were |
| OrderController.StatusRequest | backend/controllers/orderController.js:73-75 | the request is rejected exactly when the id is 0 or NaN or the status from the body or query is empty |
| OrderController.UpdateOrderStatus | backend/controllers/orderController.js:71-82 | a bad request answers 400 and changes nothing; a failing UPDATE answers 500; otherwise the status is overwritten and the answer is `{ ok: true }` |
| OrderController.PayOrder | backend/controllers/orderController.js:84-94 | an id of 0 or NaN answers 400 and changes nothing; otherwise the order is paid and the answer is `{ ok: true }`, or 500 when the UPDATE fails |
| OrderController.DeleteOrder | backend/controllers/orderController.js:96-106 | an id of 0 or NaN answers 400 and changes nothing; otherwise the answer is 200 `{ ok: true }` exactly when no statement fails, and 500 otherwise; the items of the order are gone unless the first statement failed, its payments unless the first or second failed, and its header only on 200 |
| OrderController.SurvivorsArePositive | backend/controllers/orderController.js:44-47 | every line passed on has a positive quantity and a present, non-empty reference id; a line whose quantity is not a finite number is dropped |
| OrderController.TrimmedIdsAllKept | backend/models/orderModel.js:133-140 | when every surviving reference id is already trimmed, createFull keeps every line the controller passed on |
| OrderController.StoreKeepsNonBlank | backend/models/orderModel.js:133-140 | of the lines the controller passes on, createFull keeps none exactly when every reference id trims to "", and all of them when every id is already trimmed |
| OrderController.BlankRefIdPassesController | backend/controllers/orderController.js:47 | a reference id of blanks passes the controller's filter but is dropped by createFull, which trims it; the request is therefore answered 500 NO_ITEMS, never 400 or 201 |
| OrderController.FilterKeepsAll | backend/models/orderModel.js:140 | createFull's filter keeps a list whose every line has an id and a positive quantity |
| OrderController.BlankTrimsToEmpty | backend/models/orderModel.js:135 | a blank reference id trims to "" |
| ColumnFallback.FindByAnyColumn | backend/controllers/drinkController.js:50-62 | the loop tries the id columns in order and answers exactly what `FirstRow`, the column-by-column reading of the query, answers |
| ColumnFallback.FirstRowFinds | backend/controllers/drinkController.js:52-55 | a row found on column k, after columns that all found nothing or were missing, is the answer |
| ColumnFallback.FirstRowFails | backend/controllers/drinkController.js:56-58 | any error other than a missing column, after columns that all missed, is rethrown with that column |
| ColumnFallback.FirstRowNull | backend/controllers/drinkController.js:61 | the lookup answers null exactly when every column found nothing or was missing |
| ColumnFallback.AffectByAnyColumn | backend/controllers/drinkController.js:224-239 | the loop runs one statement per id column, stops at the first that touched rows, and answers exactly what `Affect`, the column-by-column reading of the statements, answers |
| ColumnFallback.AffectHits | backend/controllers/drinkController.js:227-229 | the first column that touched rows, after columns that all touched none or were missing, gives the count |
| ColumnFallback.AffectFails | backend/controllers/drinkController.js:230-232 | any error other than a missing column is rethrown with that column |
| ColumnFallback.AffectFromAllZero | backend/controllers/drinkController.js:236-238 | when every later column touched no row, the remembered missing-column error is rethrown, and 0 is the answer when there is none |
| ColumnFallback.AffectRethrowsLast | backend/controllers/drinkController.js:231-237 | when nothing was touched, the error of the LAST missing column is the one rethrown |
| ColumnFallback.AffectNoMatch | backend/controllers/drinkController.js:236-238 | the loop answers 0 exactly when every column exists and touched no row |
| ColumnFallback.AffectNeverZeroAfterMiss | backend/controllers/drinkController.js:236-237 | once some column was missing, failed or touched rows, the loop never answers 0 |
| DrinkController.NormalizeIdFirstPresent | backend/controllers/drinkController.js:9-10 | the id is the first of item_id, drink_id, id, menu_id, m_id that is neither null nor undefined, and null when all are |
| DrinkController.NormalizePrices | backend/controllers/drinkController.js:12-16 | a price column is null exactly when it is "", null or undefined |
| DrinkController.Positives | backend/controllers/drinkController.js:25-27 | the candidates are exactly the non-null prices greater than 0 |
| DrinkController.MinOf | backend/controllers/drinkController.js:28 | `Math.min` over the candidates is one of them and no greater than any of them |
| DrinkController.ComputePriceSelected | backend/controllers/drinkController.js:18-30 | with ร้อน, เย็น or ปั่น and a non-null price in that column, the price is that column's |
| DrinkController.ComputePriceFallback | backend/controllers/drinkController.js:22-29 | when the temperature selects nothing, the price is the smallest positive price, and null exactly when no price is positive |
| DrinkController.ComputePriceInherited | backend/controllers/drinkController.js:20-22 | a temperature that names an inherited member of the object literal gives NaN, not the fallback |
| DrinkController.FallbackReply | backend/controllers/drinkController.js:236-241 | 200 exactly when rows were touched, 404 exactly when the loop answered 0, 500 exactly on an error |
| DrinkController.GetDrinkPrice | backend/controllers/drinkController.js:95-117 | a non-finite id answers 400; a lookup error 500; no row 404; no price 400 with the temperature or "-"; otherwise 200 with the id, the temperature and the computed price |
| DrinkController.TextSets | backend/controllers/drinkController.js:207-208 | `name` and `sweetness` are set exactly when they were sent, each bound to its own parameter |
| DrinkController.PriceSets | backend/controllers/drinkController.js:209-211 | a price is set exactly when it was sent and is not null |
| DrinkController.ImageSets | backend/controllers/drinkController.js:213-217 | the image is set exactly when either image key was sent |
| DrinkController.DrinkSets | backend/controllers/drinkController.js:204-217 | each column is in the SET list exactly when the body supplies it, each clause bound to its own parameter; the list is empty exactly when nothing was supplied |
| DrinkController.UpdateDrink | backend/controllers/drinkController.js:188-246 | a non-finite id answers 400; an empty SET list 400; otherwise the reply follows the column loop, and the SET list holds exactly the supplied columns, each bound to its parameter |
| DrinkController.DeleteDrink | backend/controllers/drinkController.js:249-279 | a non-finite id answers 400; otherwise the reply follows the column loop |
| DrinkController.NotFoundNeedsEveryIdColumn | backend/controllers/drinkController.js:221-239 | an update or delete answers 404 exactly when all five id columns exist and none matched |
| DrinkController.OnlyItemIdColumnUnmatched | backend/controllers/drinkController.js:221-239 | with only `item_id` present and nothing matching, the answer is 500 with the error of `m_id`, the last column tried |
| DrinkBasePrice.TempKeyShape | backend/controllers/drinkBasePriceController.js:5-12 | the key is null exactly for a falsy temperature; otherwise it is hot, cold, blend or the trimmed, lower-cased text |
| DrinkBasePrice.KeyOfTextShape | backend/controllers/drinkBasePriceController.js:8-11 | the key of trimmed text is one of the three keys or the text lower-cased |
| DrinkBasePrice.TempKeyIgnoresPadding | backend/controllers/drinkBasePriceController.js:7 | white space around a non-blank name does not change its key |
| DrinkBasePrice.BlankTemperatureKey | backend/controllers/drinkBasePriceController.js:6-7 | a blank but non-empty name is truthy and its key is the empty string |
| DrinkBasePrice.TempKeyIdempotent | backend/controllers/drinkBasePriceController.js:5-12 | a non-empty key is its own key |
| DrinkBasePrice.KeyOfTextIdempotent | backend/controllers/drinkBasePriceController.js:7-11 | the key of trimmed text is trimmed and is its own key |
| DrinkBasePrice.KeysAreOwnKeys | backend/controllers/drinkBasePriceController.js:8-10 | hot, cold and blend map to themselves |
| DrinkBasePrice.LowerOfOtherName | backend/controllers/drinkBasePriceController.js:8-11 | lower-casing a name that is not listed gives no listed name other than the three English keys |
| DrinkBasePrice.FiniteOrNull | backend/controllers/drinkBasePriceController.js:14-17 | null exactly when `Number(n)` is not finite, and that number otherwise |
| DrinkBasePrice.NullPriceIsZero | backend/controllers/drinkBasePriceController.js:14-17 | a null price reads as 0, which is finite |
| DrinkBasePrice.PriceMap | backend/controllers/drinkBasePriceController.js:30-48 | the map has one entry per distinct drink id, and each key of an entry holds the price of the last row with a non-empty key and a finite price, or else the initial value (the id as name, the three keys null) |
| DrinkBasePrice.LastStoredNamesRow | backend/controllers/drinkBasePriceController.js:35-41 | a stored price always belongs to a drink the rows name |
| DrinkBasePrice.AddDrinkBasePrice | backend/controllers/drinkBasePriceController.js:51-62 | 400 exactly when drink_id or temperature is falsy or base_price is null or undefined; 200 with the insert id exactly when the fields are complete and the insert succeeds; 500 otherwise |
| DrinkBasePrice.UpdateDrinkBasePrice | backend/controllers/drinkBasePriceController.js:65-81 | 400 exactly when a field is missing; 404 exactly when no row was touched; 200 exactly when rows were touched |
| TableModel.StatusValidatorCases | backend/models/tableModel.js:9-14 | blank after trimming gives null; an allowed status gives the trimmed status; anything else throws |
| TableModel.StatusValidatorIdempotent | backend/models/tableModel.js:9-14 | an accepted status is accepted again unchanged |
| TableModel.ZoneValidatorCases | backend/models/tableModel.js:16-21 | a falsy zone gives null; a zone whose trimmed text is allowed gives that text; anything else throws |
| TableModel.ZoneValidatorIdempotent | backend/models/tableModel.js:16-21 | an accepted zone is accepted again unchanged |
| TableModel.BlankStatusAndZone | backend/models/tableModel.js:9-21 | blank text is an empty status but an invalid zone, because the zone validator tests truthiness before trimming |
| TableModel.Create | backend/models/tableModel.js:49-57 | the insert happens exactly when the defaulted status and zone both validate; it stores the table number as a string and the defaulted zone and status as sent, untrimmed |
| TableModel.CreateDefaultsAndRawValues | backend/models/tableModel.js:49-57 | without zone or status a table is created free and inside; a padded valid status is stored as sent, not trimmed |
| TableModel.NumberZoneStatusSets | backend/models/tableModel.js:63-65 | number, zone and status are set exactly when not null; a bad zone or status throws, the zone checked first |
| TableModel.QrSets | backend/models/tableModel.js:66-67 | the QR fields are set exactly when sent at all |
| TableModel.Update | backend/models/tableModel.js:59-75 | a rejected patch throws; an empty patch answers 0 with no statement; otherwise one UPDATE by id sets exactly the supplied columns, each bound to its own parameter, and answers the affected-row count |
| TableModel.SetStatusByNumber | backend/models/tableModel.js:77-84 | fails exactly when the status does not validate; otherwise writes the status as sent |
| TableModel.UpdateStatusAfterApproval | backend/models/tableModel.js:91-98 | an approved table becomes in use, a rejected one free |
| TableModel.ApprovalStatusIsAllowed | backend/models/tableModel.js:91-98 | the status written after an approval always passes the status validator |
| BookingsController.TableStatusAccepted | backend/controllers/bookingsController.js:7-13 | whatever the booking status, the table status it implies passes the table status validator |
| BookingsController.TableStatusHolds | backend/controllers/bookingsController.js:7-13 | an allowed booking holds its table exactly while pending, confirmed or seated, and marks it reserved exactly while pending |
| BookingsController.MapBooking | backend/controllers/bookingsController.js:15-29 | id, name, phone, table, date, time, zone and created_at are copied; the slip flag is the truthiness of `has_slip` and the slip URL is present exactly with it; guests is 1; a falsy status reads as pending; a truthy note is kept and a falsy one reads as "" |
| BookingsController.Create | backend/controllers/bookingsController.js:41-61 | 400 exactly when name, phone, table number, date or time is falsy, and then nothing is written; 500 exactly when the insert fails; 201 with the new id otherwise; the table status is only written after a successful insert |
| BookingsController.CreateReservesTable | backend/controllers/bookingsController.js:48-57 | a successful booking is inserted pending with the defaulted zone and marks its table reserved |
| BookingsController.CreateStartMatchesUpdate | backend/controllers/bookingsController.js:52 | for an HH:MM time the start time `create` writes is the one a full update writes, short of the seconds |
| BookingsController.Update | backend/controllers/bookingsController.js:63-112 | a non-finite id answers 400; a truthy status that is not allowed answers 400 with the allowed list; an allowed one updates only the status, answers 404 when no row changed, sets the table status it implies exactly when the stored booking has a table, and answers 200 with the id and status; a failing query answers 500 with its message; without a status, missing fields answer 400, and otherwise the booking is rewritten by id with the table number, the zone forced to one of the two zones, the name, the phone and the start time, plus the slip columns exactly when a file came, answering 200 with the id, or 500 when the UPDATE fails |
| BookingsModel.ToDateTimeOfClock | backend/models/bookingsModel.js:4-8 | an HH:MM or HH:MM:SS time comes out after the date and a space as a full HH:MM:SS with the same hours and minutes |
| BookingsModel.ToDateTimeOfOther | backend/models/bookingsModel.js:6-7 | any other time keeps its first five characters, with ":00" added when there are exactly five |
| BookingsModel.ToDateTimeNeedsBoth | backend/models/bookingsModel.js:5 | the start time is null exactly when the date or the time is falsy |
| BookingsModel.Create | backend/models/bookingsModel.js:34-52 | every booking is inserted pending; the zone defaults to the inside zone; the four slip parameters are all null exactly when there is no slip |
| BookingsModel.UpdateById | backend/models/bookingsModel.js:54-73 | the five booking columns are always set, in order, with their parameters; the four slip columns are added exactly when a slip argument is passed, as nulls when it is null |
| SnackModel.SanitizeLimitOffset | backend/models/snackModel.js:20-24 | the limit lies in [0, 1000] and the offset in [0, 2^31); a value that is not a finite number gives 0 |
| SnackModel.SanitizeKeepsValid | backend/models/snackModel.js:20-24 | a limit in [0, 1000] and a non-negative 32-bit offset are kept |
| SnackModel.SanitizeIdempotent | backend/models/snackModel.js:20-24 | sanitizing twice changes nothing more |
| SnackModel.SanitizeWrapsAndRejects | backend/models/snackModel.js:21 | `\| 0` wraps modulo 2^32 before the clamp, so a limit of 2^32 + 5 asks for 5 rows; a non-numeric limit asks for none |
| SnackModel.LikeFilter | backend/models/snackModel.js:51 | a search filters exactly when `q` is truthy, with the pattern `%q%` |
| SnackModel.CountAll | backend/models/snackModel.js:48-60 | the filter is the search's; a query error is rethrown; no row or a falsy count gives 0 |
| SnackModel.CountOfNumber | backend/models/snackModel.js:55 | a count reported as a number is returned as that number, and NaN never comes out |
| SnackModel.GetByIdFlexible | backend/models/snackModel.js:62-79 | the id columns are tried in order and the answer is the first row found, the first other error, or null |
| SnackModel.FoundBySnackId | backend/models/snackModel.js:63-71 | a snack found under `snack_id` is returned when `item_id` found nothing or is not a column |
| SnackModel.KeepMembers | backend/models/snackModel.js:97-105 | a column is kept exactly when it is listed and the patch supplies it |
| SnackModel.KeepAscending | backend/models/snackModel.js:97-105 | keeping supplied columns preserves the order of the list |
| SnackModel.SetListShape | backend/models/snackModel.js:96-106 | every supplied field has exactly one clause, in the order name, description, price, image; the list is empty exactly when nothing is supplied |
| SnackModel.Params | backend/models/snackModel.js:96-105 | one bound value per clause |
| SnackModel.Push | backend/models/snackModel.js:97-100 | one guarded push adds the clause exactly when the patch supplies the field, and keeps the values in step |
| SnackModel.SnackSets | backend/models/snackModel.js:96-105 | the pushes build exactly the specified SET list, each clause with its own value |
| SnackModel.SetListByColumn | backend/models/snackModel.js:96-105 | the SET list is, column by column in table order, each column the patch supplies |
| SnackModel.KeepCons | backend/models/snackModel.js:96-105 | one more column in front adds its clause exactly when the patch supplies it |
| SnackModel.Update | backend/models/snackModel.js:95-123 | nothing supplied answers 0 with no statement; otherwise the id columns are tried in order as the column loop describes |
| SnackModel.RemoveFlexible | backend/models/snackModel.js:125-141 | the id columns are tried in order as the column loop describes |
| SnackModel.MissingItemIdColumnIsRethrown | backend/models/snackModel.js:121 | when `item_id` is not a column and no other column matches, the call fails with the `item_id` error instead of answering 0 |
| ConfirmFoods.ToNum | frontend/src/pages/ConfirmFoods.jsx:14-17 | the page's `toNum` agrees with the server's `toNum(v, 0)` on every value |
| ConfirmFoods.CoerceItem | frontend/src/pages/ConfirmFoods.jsx:25-43 | an entry becomes a line exactly when it is an object with an id (from id, food_id, item_id, main_id or "name:" and the name), a non-blank name and a positive quantity; the line is then valid and carries that id |
| ConfirmFoods.NamedItemsAreKept | frontend/src/pages/ConfirmFoods.jsx:27-32 | a named entry with a positive quantity is always kept, and without any id field its id is "name:" and the name |
| ConfirmFoods.SavedRoundTrip | frontend/src/pages/ConfirmFoods.jsx:97-104 | a line saved under the selection key and read back through `coerceItem` is the same line |
| ConfirmFoods.CoerceAll | frontend/src/pages/ConfirmFoods.jsx:65-68 | the surviving entries are valid lines, no more than there were entries |
| ConfirmFoods.SafeParse | frontend/src/pages/ConfirmFoods.jsx:44-52 | a missing, empty or non-string text, or text that does not parse, gives []; a parsed array is returned as is |
| ConfirmFoods.PrePassThrows | frontend/src/pages/ConfirmFoods.jsx:72-76 | the full cart's pre-pass throws exactly when an entry is null or undefined |
| ConfirmFoods.PrePassChangesNothing | frontend/src/pages/ConfirmFoods.jsx:72-76 | the pre-pass throws exactly on a null or undefined entry, and otherwise keeps exactly the lines `coerceItem` would keep |
| ConfirmFoods.InitialItems | frontend/src/pages/ConfirmFoods.jsx:63-82 | the lines the page starts with are the navigation state's lines when it has entries, else the saved selection's lines when any survive, else [] when the full cart holds a null entry (the pre-pass throws and the page falls back to []), else the full cart's lines; all are valid |
| ConfirmFoods.Selected | frontend/src/pages/ConfirmFoods.jsx:134-137 | a line is selected exactly when it is held and its quantity is positive |
| ConfirmFoods.ValidAllSelected | frontend/src/pages/ConfirmFoods.jsx:134-137 | every line the page holds is selected, in order |
| ConfirmFoods.TotalAppend | frontend/src/pages/ConfirmFoods.jsx:138-139 | the total of two carts put together is the sum of their totals |
| ConfirmFoods.RemoveOneTotal | frontend/src/pages/ConfirmFoods.jsx:145 | removing an item lowers the total by exactly that item's lines, and no line with its id is left |
| ConfirmFoods.PaymentLabel | frontend/src/pages/ConfirmFoods.jsx:157-159 | เงินสด posts cash, พร้อมเพย์ posts promptpay, anything else unknown |
| ConfirmFoods.PaymentStartsOrder | frontend/src/pages/ConfirmFoods.jsx:157-164 | the label is already lower case, and the server starts the order paid exactly for cash |
| ConfirmFoods.HandleConfirm | frontend/src/pages/ConfirmFoods.jsx:149-175 | nothing is posted exactly when the selection is empty; otherwise the amount is the selection's total, the lines posted are the selected lines in order as main dishes with their id, name, price, quantity and note, the table number is null, the note is the order note, the payment method is the choice's label, and the table label defaults to "unknown" |
| ConfirmFoods.AllSurvive | backend/controllers/orderController.js:47 | a list whose every line survives the server's filter is kept whole |
| ConfirmFoods.LineReachesStore | frontend/src/pages/ConfirmFoods.jsx:167-174 | a posted line is coerced by the server to the same id, quantity and price, and passes its filter |
| ConfirmFoods.PostedLinesReachStore | frontend/src/pages/ConfirmFoods.jsx:161-175 | every line the page posts passes the server's filter with its id, quantity and price; createFull keeps none of them (and the order is answered 500 NO_ITEMS) exactly when every id is blank, and keeps them all when every id is already trimmed |
| ConfirmFoods.PersistCart | frontend/src/pages/ConfirmFoods.jsx:106-126 | the persist loop writes every confirmed line over its stored entry, in order, exactly as `Merge` describes |
| ConfirmFoods.MergeKeys | frontend/src/pages/ConfirmFoods.jsx:109-125 | the merged cart holds exactly the stored keys and the non-empty ids of the confirmed lines |
| ConfirmFoods.MergeKeepsOthers | frontend/src/pages/ConfirmFoods.jsx:112-125 | a stored entry that no confirmed line names is left as it was |
| ConfirmFoods.MergeLastWins | frontend/src/pages/ConfirmFoods.jsx:112-125 | the entry of a confirmed line carries the fields of the last line with that id, and keeps every other field its stored entry had |
| ConfirmFoods.KeepsExtraFields | frontend/src/pages/ConfirmFoods.jsx:115-123 | fields outside a line's own survive every write of that id |
| DrinkPayment.TempKey | frontend/src/pages/DrinkPayment.jsx:111-118 | a line names a matrix key exactly when its temperature is ร้อน, เย็น or ปั่น |
| DrinkPayment.TempKeysMatchServer | frontend/src/pages/DrinkPayment.jsx:111-118 | for the three Thai temperatures the page looks up the key the server files prices under |
| DrinkPayment.UnitPriceChoice | frontend/src/pages/DrinkPayment.jsx:108-123 | the unit price is the matrix price for the line's temperature when it is a number, else the entry's base price when it is a number, else the line's own price when it is a number, else 0; a line missing from the matrix pays its own price |
| DrinkPayment.ServerEntryWithoutPrice | frontend/src/pages/DrinkPayment.jsx:119-121 | an entry the server built has no base price, so when its price for the chosen temperature is still null the line's own price is used |
| DrinkPayment.Selected | frontend/src/pages/DrinkPayment.jsx:126-129 | a line is selected exactly when it is held and its quantity is a positive number |
| DrinkPayment.Calculate | frontend/src/pages/DrinkPayment.jsx:132-141 | the loop prices every selected line in order, and its running sum is the sum of unit price times quantity |
| DrinkPayment.SumAppend | frontend/src/pages/DrinkPayment.jsx:132-141 | the sum over two carts put together is the sum of their sums |
| DrinkPayment.SelectionKeepsPositive | frontend/src/pages/DrinkPayment.jsx:126-129 | a line whose quantity is not a finite number is dropped, and a cart of positive lines is kept whole |
| DrinkPayment.SelectedIdempotent | frontend/src/pages/DrinkPayment.jsx:126-129 | selecting again changes nothing |
| DrinkPayment.AllPositiveSelected | frontend/src/pages/DrinkPayment.jsx:126-129 | a cart whose every quantity is positive is selected whole |
| DrinkPayment.SumNonNegative | frontend/src/pages/DrinkPayment.jsx:132-141 | with every unit price non-negative, the sum is non-negative |
| DrinkPayment.SubmitStatus | frontend/src/pages/DrinkPayment.jsx:165 | the status posted is paid exactly for เงินสด, and pending otherwise |
| DrinkPayment.SubmitNeverStartsOrder | frontend/src/pages/DrinkPayment.jsx:161-165 | as written, the body the page posts gives the order handler no lines at all |
| DrinkPayment.SubmitToServer | frontend/src/pages/DrinkPayment.jsx:153-170 | as written, a submit with a non-empty selection is answered 400 NO_ITEMS and the store is left unchanged; an empty selection posts nothing |
| DrinkPayment.OrderEntries | frontend/src/pages/DrinkPayment.jsx:126-141 | the intended request lines: one per selected line, in order, carrying its matrix key, unit price and quantity |
| DrinkPayment.PostedAll | backend/controllers/orderController.js:39-46 | the lines the handler makes of the intended entries: one per selected line, in order |
| DrinkPayment.OrderEntryCoerced | backend/controllers/orderController.js:39-47 | the handler coerces an intended entry to a drink line with the matrix key, unit price and quantity, and keeps it exactly when the key is not empty |
| DrinkPayment.EntriesKept | backend/controllers/orderController.js:39-47 | the handler passes on exactly the intended lines that survive its filter, in order |
| DrinkPayment.KeyedLineSurvives | backend/controllers/orderController.js:47 | a selected line with a matrix key reaches the store |
| DrinkPayment.IntendedBodyStartsOrder | backend/controllers/orderController.js:31-49 | the intended body reaches the store with every keyed selected line, and the order starts in the status the page chose |
| DrinkPayment.SubmitPayment | frontend/src/pages/DrinkPayment.jsx:153-166 | nothing is posted exactly when the selection is empty; otherwise the status follows the payment choice and the table is left out exactly when the label is empty |
| DrinkPayment.CanSubmitPosts | frontend/src/pages/DrinkPayment.jsx:150 | the button is enabled exactly when a submit made now would post something, and never while a submit is in flight |
| TableLabels.TakeDigits | frontend/src/pages/admin/AdminTable.jsx:75 | the digits taken from the start of a text are digits only |
| TableLabels.TakeDigitsSpec | frontend/src/pages/admin/AdminTable.jsx:75 | the digits taken are the longest all-digit prefix |
| TableLabels.FirstDigitAtSpec | frontend/src/pages/admin/AdminTable.jsx:18 | no digit precedes the first digit position, and the first run is the digits taken from there |
| TableLabels.FirstDigitRunNone | frontend/src/pages/admin/AdminTable.jsx:18 | `match(/\d+/)` finds nothing exactly when the label has no digit |
| TableLabels.TakeDigitsRunAt | frontend/src/pages/admin/AdminTable.jsx:18 | the digits taken from a digit form the maximal run there |
| TableLabels.FirstDigitRunSome | frontend/src/pages/admin/AdminTable.jsx:18 | a match is the maximal digit run that starts at the label's first digit |
| TableLabels.FirstDigitRunSpec | frontend/src/pages/admin/AdminTable.jsx:18 | no match exactly without digits; otherwise the leftmost maximal run of digits |
| TableLabels.FirstNumberSpec | frontend/src/pages/admin/AdminTable.jsx:18-19 | the first number exists exactly when the label has a digit, and is the value of the first digit run |
| TableLabels.DeriveZoneByFirstRun | frontend/src/pages/admin/AdminTable.jsx:17-22 | the derived zone is inside exactly when the first number is at most 18 |
| TableLabels.DeriveZoneWithoutDigits | frontend/src/pages/admin/AdminTable.jsx:19-20 | a label without digits is placed inside |
| TableLabels.FirstRunUnique | frontend/src/pages/admin/AdminTable.jsx:18 | only one maximal run can follow a digit-free prefix, and it is the match |
| TableLabels.DeriveZoneExamples | frontend/src/pages/booking.jsx:7-17 | A7 and T18 are inside, B19 outside, and a label without digits inside |
| TableLabels.InsertMultiset | frontend/src/pages/admin/AdminTable.jsx:74-78 | inserting adds exactly the one element |
| TableLabels.InsertSorted | frontend/src/pages/admin/AdminTable.jsx:74-78 | inserting into a list ascending by key keeps it ascending and adds nothing else |
| TableLabels.InsertSpec | frontend/src/pages/admin/AdminTable.jsx:74-78 | inserting into a sorted list gives a sorted permutation of the list and the element |
| TableLabels.SortBySpec | frontend/src/pages/admin/AdminTable.jsx:74-78 | the ordered tables are a permutation of the tables, ascending by first number |
| TableLabels.NumberedBeforeUnnumbered | frontend/src/pages/admin/AdminTable.jsx:75-77 | a label without a number sorts after every label whose first number is below 1e9 |
| TableLabels.UnnumberedLast | frontend/src/pages/booking.jsx:54-58 | in the ordered list no label without digits comes before a label numbered below 1e9 |
| AdminTable.NormalizeStatus | frontend/src/pages/admin/AdminTable.jsx:59-61 | the page keeps two statuses: free exactly when the trimmed status is ว่าง, busy otherwise |
| AdminTable.ServerStatusesNormalized | frontend/src/pages/admin/AdminTable.jsx:58-61 | the server's free table stays free, while reserved, in use and a missing status all show as busy |
| AdminTable.NormalizeStatusIdempotent | frontend/src/pages/admin/AdminTable.jsx:59-61 | normalising a normalised status changes nothing |
| AdminTable.ZoneOf | frontend/src/pages/admin/AdminTable.jsx:67-70 | the server's zone, trimmed, when it is not blank, else the zone derived from the table number; never empty and always trimmed |
| AdminTable.UnnumberedTableInside | frontend/src/pages/admin/AdminTable.jsx:67-70 | a table with neither number nor zone is placed inside |
| AdminTable.Normalize | frontend/src/pages/admin/AdminTable.jsx:63-71 | the id is the table id; the number is the table number, or "T" and the id when it is falsy; status and zone as normalised |
| AdminTable.NormalizeAll | frontend/src/pages/admin/AdminTable.jsx:57-72 | one normalised table per row, in order |
| AdminTable.OrderedSpec | frontend/src/pages/admin/AdminTable.jsx:57-80 | the held list is a permutation of the normalised rows, ascending by first number, each with one of the two statuses and a non-empty trimmed zone |
| AdminTable.SearchFindsOwnNumber | frontend/src/pages/admin/AdminTable.jsx:114-116 | searching for a table's number, in any case and with spaces around it, finds the table |
| AdminTable.Visible | frontend/src/pages/admin/AdminTable.jsx:107-123 | a table is shown exactly when its trimmed zone is the chosen one, the search is empty or part of its lower-cased number, and the status filter admits it |
| AdminTable.CountsAddUp | frontend/src/pages/admin/AdminTable.jsx:125-127 | with every status free or busy, the free and busy counts add up to the count of all |
| AdminTable.CountBounds | frontend/src/pages/admin/AdminTable.jsx:126-127 | a count is at most the number of tables, and zero exactly when no table has the status |
| AdminTable.PageCounts | frontend/src/pages/admin/AdminTable.jsx:113-127 | on the page's own list the counts always add up, the free filter shows no busy table, and the busy filter no free one |
| AdminTable.BlankSearchShowsZone | frontend/src/pages/admin/AdminTable.jsx:107-123 | an empty search with the "all" filter shows exactly the tables of the zone |
| AdminTable.ClearSelection | frontend/src/pages/admin/AdminTable.jsx:129-131 | a selection is dropped exactly when it is non-empty and no visible table carries it (both directions) |
| AdminTable.OnPick | frontend/src/pages/admin/AdminTable.jsx:133-135 | every table can be picked; picking the selected table clears the selection |
| BookingPage.SeatNumber | frontend/src/pages/booking.jsx:41 | the number is the first of table_number, tableNo and number that is present, else "T" and the id; it is never null |
| BookingPage.SeatZone | frontend/src/pages/booking.jsx:43 | the zone is the first truthy of zone and area, else section when it is not nullish, else the zone derived from the number |
| BookingPage.Normalize | frontend/src/pages/booking.jsx:40-51 | number and zone as above; the id is the first present id field; a missing status reads as ว่าง; a missing QR code as null |
| BookingPage.NormalizeAll | frontend/src/pages/booking.jsx:40-51 | one seat per row, in order |
| BookingPage.OrderedSpec | frontend/src/pages/booking.jsx:54-58 | the held seats are a permutation of the normalised rows, ascending by first number, none without a number or status |
| BookingPage.Visible | frontend/src/pages/booking.jsx:71-74 | a seat is shown exactly when its zone is exactly the chosen one |
| BookingPage.MissingStatusIsFree | frontend/src/pages/booking.jsx:47 | a row listed without a status can be picked |
| BookingPage.ReservedByBooking | frontend/src/pages/booking.jsx:83 | a seat whose status is the table status an allowed booking status implies is taken exactly while that booking status is pending, confirmed or seated |
| BookingPage.OnPick | frontend/src/pages/booking.jsx:85-88 | a taken seat changes nothing; a free seat is selected, or unselected when it was the selection |
| BookingPage.ClearSelection | frontend/src/pages/booking.jsx:77-81 | a selection is dropped exactly when it is truthy and no visible seat carries it |
| BookingPage.SelectionStaysInZone | frontend/src/pages/booking.jsx:76-81 | after a zone switch, a selection that survives belongs to a seat of the new zone |
| AdminReports.ToNum | frontend/src/pages/admin/AdminReports.jsx:15-18 | the page's `toNum` agrees with the server's on every value and fallback |
| AdminReports.FirstTruthySpec | frontend/src/pages/admin/AdminReports.jsx:65-68 | an `\|\|` chain yields its first truthy link, or the fallback when every link is falsy |
| AdminReports.FirstPresentSpec | frontend/src/pages/admin/AdminReports.jsx:70-73 | a `??` chain yields its first link that is neither null nor undefined, or its last link |
| AdminReports.FirstTruthyCons | frontend/src/pages/admin/AdminReports.jsx:65-68 | one more `\|\|` link in front is `Or` of it and the rest |
| AdminReports.FirstPresentCons | frontend/src/pages/admin/AdminReports.jsx:70-73 | one more `??` link in front is `Coalesce` of it and the rest |
| AdminReports.OrChain | frontend/src/pages/admin/AdminReports.jsx:65-68 | a five-link `\|\|` chain with a fallback is the first truthy of its links |
| AdminReports.CoalesceChain | frontend/src/pages/admin/AdminReports.jsx:70-73 | a five- or four-link `??` chain is the first present of its links |
| AdminReports.MapReportRow | frontend/src/pages/admin/AdminReports.jsx:65-78 | the date is the first truthy of date, day, period, ymd and the first ten characters of created_at, else ""; the item is the first truthy of item, name, category, title and label, else "—"; income is the first present of income, revenue, total, amount and total_price, expense of expense, cost, outcome and 0, each read as a number; profit is the given one, else income less expense |
| AdminReports.DateKey | frontend/src/pages/admin/AdminReports.jsx:85-89 | every order is grouped under a non-empty day: its date, else the first ten characters of its creation or order date, else ไม่ทราบวันที่ |
| AdminReports.OrderAmounts | frontend/src/pages/admin/AdminReports.jsx:90-91 | an order's income is the first present of total, total_price and amount, else 0, and its expense the first present of expense and cost, else 0, each read as a number |
| AdminReports.AmountOnSnoc | frontend/src/pages/admin/AdminReports.jsx:93-96 | one more order adds its amount to its own day's sum only |
| AdminReports.LexTrans | frontend/src/pages/admin/AdminReports.jsx:99 | the order on day keys is transitive |
| AdminReports.LexTotal | frontend/src/pages/admin/AdminReports.jsx:99 | of two different day keys, one is smaller |
| AdminReports.LexIrreflexive | frontend/src/pages/admin/AdminReports.jsx:99 | no day key is smaller than itself |
| AdminReports.InsertKeySpec | frontend/src/pages/admin/AdminReports.jsx:99 | inserting a new key into ascending keys keeps them ascending and adds exactly that key |
| AdminReports.SortKeysSpec | frontend/src/pages/admin/AdminReports.jsx:98-99 | distinct keys come out as a permutation of themselves, strictly ascending |
| AdminReports.DayRowSpec | frontend/src/pages/admin/AdminReports.jsx:100-107 | the row built for a day carries the day, the item สรุปต่อวัน, the day's income and expense, and their difference as profit |
| AdminReports.DaySetMember | frontend/src/pages/admin/AdminReports.jsx:84-92 | a day is in the day set exactly when some order falls on it |
| AdminReports.AmountOnAbsent | frontend/src/pages/admin/AdminReports.jsx:84-97 | a day no order falls on sums to 0 |
| AdminReports.GroupMapAt | frontend/src/pages/admin/AdminReports.jsx:83-97 | the map has an entry, and the key list an element, exactly for the days the orders fall on, and each entry holds that day's income and expense sums |
| AdminReports.KeysOfDistinct | frontend/src/pages/admin/AdminReports.jsx:93 | each day is listed once |
| AdminReports.GroupByDay | frontend/src/pages/admin/AdminReports.jsx:83-97 | the loop builds exactly the grouping map and the days in the order they were first met |
| AdminReports.DayRows | frontend/src/pages/admin/AdminReports.jsx:100-108 | one summary row per listed day, in order, with that day's sums |
| AdminReports.DaySetNonEmpty | frontend/src/pages/admin/AdminReports.jsx:85-89 | since no order falls on the empty day, no day in the set is empty |
| AdminReports.SortedDaysSpec | frontend/src/pages/admin/AdminReports.jsx:98-99 | the sorted days are exactly the days the orders fall on, strictly ascending, each with an entry in the map |
| AdminReports.DayRowsCarrySums | frontend/src/pages/admin/AdminReports.jsx:98-108 | each row of the sorted days is a day some order falls on, with that day's sums |
| AdminReports.DayRowsAscend | frontend/src/pages/admin/AdminReports.jsx:98-108 | the rows ascend strictly by day, so no day has two rows |
| AdminReports.DayRowsCover | frontend/src/pages/admin/AdminReports.jsx:98-108 | every order's day has a row |
| AdminReports.SortedDayRows | frontend/src/pages/admin/AdminReports.jsx:98-109 | the rows are one per day, ascending, each with its day's sums, and cover every order |
| AdminReports.RowsFromOrders | frontend/src/pages/admin/AdminReports.jsx:81-110 | the fallback's rows are one per day any order falls on, strictly ascending by day, each with that day's income and expense sums and their difference |
| AdminReports.Summarize | frontend/src/pages/admin/AdminReports.jsx:201-212 | the reduce adds up income, expense and profit over the rows, and gives zeros for no rows |
| AdminReports.SummaryProfit | frontend/src/pages/admin/AdminReports.jsx:201-212 | rows whose profit is income less expense sum to a profit that is income less expense |
| AdminReports.KeySumSnoc | frontend/src/pages/admin/AdminReports.jsx:93-96 | one more order adds its amount to the day sums once when its day is listed |
| AdminReports.KeySumTotal | frontend/src/pages/admin/AdminReports.jsx:84-97 | summing the day sums over distinct days that cover every order gives the sum over all orders |
| AdminReports.KeySumEmpty | frontend/src/pages/admin/AdminReports.jsx:83 | no orders give zero day sums |
| AdminReports.Dates | frontend/src/pages/admin/AdminReports.jsx:100-108 | the days of the rows, in order |
| AdminReports.RowSumsAreKeySums | frontend/src/pages/admin/AdminReports.jsx:201-212 | the rows' income and expense totals are the day sums over their days |
| AdminReports.DatesDistinct | frontend/src/pages/admin/AdminReports.jsx:98-99 | rows ascending by day have distinct days |
| AdminReports.DatesCover | frontend/src/pages/admin/AdminReports.jsx:98-108 | every order's day is among the rows' days |
| AdminReports.FallbackSummary | frontend/src/pages/admin/AdminReports.jsx:194-216 | the fallback summary's income and expense are the totals over every order, and its profit is their difference |
| AdminReports.ServerSummary | frontend/src/pages/admin/AdminReports.jsx:181-185 | each summary field is the server's, read as a number, when it is given, else the sum over the rows |
| AdminReports.MaxFrom | frontend/src/pages/admin/AdminReports.jsx:250 | the maximum is at least the start and every income, and is the start or one of the incomes |
| AdminReports.Bars | frontend/src/pages/admin/AdminReports.jsx:251-255 | one bar per row, with the date less its year as caption, the income as value and the income's share of the maximum in percent |
| AdminReports.ChartData | frontend/src/pages/admin/AdminReports.jsx:247-256 | a bar for each of the last ten rows at most, in order, with its caption, income and percentage (Bars), scaled by the largest income of those rows and never by less than 1 (MaxFrom) |
| AdminReports.MaxBoundsEach | frontend/src/pages/admin/AdminReports.jsx:250 | no income exceeds the maximum |
| AdminReports.BarsWithinChart | frontend/src/pages/admin/AdminReports.jsx:247-256 | no bar is longer than the chart, and a bar with non-negative income is not negative |
| AdminReports.ScaleBound | frontend/src/pages/admin/AdminReports.jsx:254 | an income no larger than the maximum is at most 100 percent of it |

## Left out
- The MySQL pool and all SQL text are not modelled. The database is abstract state: the `Orders.Database` tables, or the affected-row counts and rows a query answers, which the handlers take as inputs.
- The INFORMATION_SCHEMA lookups are not modelled. Which columns exist and a column's type text are fixed schema facts given as inputs.
- Concurrency is not modelled: connection-pool contention, interleaved transactions and races on the shared column cache are outside a sequential model.
- Image and base64 handling (`asBase64`, `bufferToBase64`, `base64ToBuffer`, `imgFromBackend`, `getDrinkImage`, the main-dish image helper) is not modelled. Image and slip bytes are opaque values.
- QR generation, the table approval controller and the password hashing of the admin controller are left out, because they are calls into foreign libraries.
- Routing, CORS, server start-up and the plain readers (`getAll`, `getById`, the snack list query and snack create) are left out, because they only pass SQL results through.
- The SQL report and metric aggregations are left out, because their logic lives in SQL.
- Date and time code is left out: the report's date-range picker, the dashboard and the rounding of booking times to the next half hour.
- The report page's free-text search filter and its money formatting (`fmt2`, the baht formatter) are left out. They only affect display.
- React rendering, `fetch`, timers, alerts and navigation are left out: the page handlers answer with the request they would post, and the server's answer is an input.
- JSON parsing and `sessionStorage` are left out: `ConfirmFoods.SafeParse` takes the outcome of `JSON.parse` as an input.
- The other pages (users, reservation detail, food menu, login, the food, snack and drink lists and the other confirm pages) are left out, because they repeat the cart logic modelled for the food and drink pages. The food menu's text normaliser also relies on Unicode NFKD.
- Floating point is not modelled: prices, quantities and totals are exact integers, and the chart's percentage is an exact real.
- Js.StringToNumber: a fraction is rounded away from zero to an integer. This keeps the sign, whether the value is 0 and whether it is finite, but not the value. A decimal in range keeps all its digits, where a double keeps 53 bits.
- Js.RoundDecimal: its contract states the sign, the zero case and that the result is never NaN; the overflow and underflow thresholds are stated in its body only.
- `Js.Lower`: lower-casing covers ASCII letters only, where `toLowerCase` also maps non-ASCII letters.
- AdminReports.SortKeysSpec: dates are compared by code point, where JavaScript compares UTF-16 code units. The two orders differ only outside the Basic Multilingual Plane.
- DrinkPayment.UnitPriceChoice: an infinite price is read as 0, while JavaScript keeps `Infinity` as the unit price.
- DrinkPayment.Selected: a quantity of `Infinity` is not selected, while JavaScript selects it.
- AdminTable.Normalize: a table number or zone that is not a string is read with `String()`, where the page calls `.match` or `.trim` on it and would throw.
- TableLabels.SortBySpec: a label without digits gets the key 1e9 and so ties with labels whose first number is 1e9 or more. The ordering lemmas are stated for numbers below 1e9.
- TableLabels.SortBySpec: the stability of the sort is not stated.
- BookingsController.Update: the branch that sets the table status when `payload.status` is truthy is not modelled. The payload never has a `status` field, so the branch never runs.
- DrinkController.ComputePrice: a temperature that names a property inherited from `Object.prototype` is modelled through a fixed set of inherited names. The lookup is not a real prototype chain.
- AdminReports.MapReportRow: the row's `label` field is named `caption`, because `label` is a reserved word.
- AdminReports.Slice10: a `created_at` or `order_date` that is present but not a string reads as missing, where `.slice` on it throws (frontend/src/pages/admin/AdminReports.jsx:66 and 87). The same holds for AdminReports.MapReportRow.
- AdminReports.DateKey: a present `created_at` or `order_date` that is not a string reads as missing where the page throws, and a truthy `date` that is not a string is keyed by its String() text, so `5` and `"5"` fall on one day where the page's Map keeps two groups and its chart then throws on `.slice` (frontend/src/pages/admin/AdminReports.jsx:86-96, 252); days are modelled as strings.
- AdminReports.BarCaption: a `date` that is present but not a string gives "", where `.slice` on it throws (frontend/src/pages/admin/AdminReports.jsx:252).
- BookingPage.IsReserved: a truthy status that is not a string is read with `String()`, where `.trim` on it throws (frontend/src/pages/booking.jsx:83).
- ConfirmFoods.PersistCart: the stored entries are given as objects, so a null stored entry, which makes the page's loop throw, is not modelled. The order in which `Object.values` lists the merged entries when they are written back is not modelled either: the result is a map keyed by id.
- Orders.Database.CreateFull: the column probe and the enum query of `normalizeMethod` cannot fail in the model. Only the INSERT, UPDATE, SELECT and COMMIT statements have `failAt` positions.
- Js.ToNumber: arrays are folded into the opaque object value and read as NaN, where `Number([])` is 0 and `Number([7])` and `Number(["7"])` are 7. A body field sent as a one-element array, such as `{ qty: [2] }`, is dropped by the model where the order handler keeps the line (backend/controllers/orderController.js:4, 44-45).
- OrderController.StatusRequest: a fractional id parameter is rounded by Js.StringToNumber, so "1.5" passes on the id 2, where the source passes 1.5 and its statement matches no row (backend/controllers/orderController.js:73-88).
- OrderController.UpdateOrderStatus: a fractional id overwrites the status of the rounded id, where the source's UPDATE matches no row (backend/models/orderModel.js:191-199).
- OrderController.PayOrder: a fractional id pays the order with the rounded id, where the source pays nothing.
- OrderController.DeleteOrder: a fractional id deletes the rows of the rounded id, where the source's DELETE statements match none.
- BookingsController.Update: a fractional id parameter is rounded, so the UPDATE and the echoed `booking_id` carry the neighbouring integer, where the source's statement matches no row.
- DrinkController.GetDrinkPrice: a fractional id parameter is echoed rounded, where the source echoes it as sent.
- BookingPage.ReservedByBooking: the page reads `/tables-in` (frontend/src/pages/booking.jsx:35), which no server mounts (backend/routes/index.js:6-17), and whose model queries a table named `tables-in` unquoted, which is not valid SQL (backend/models/tableinModel.js:6). The bookings controller writes the `tables` table instead, so the statuses the page shows are never the ones a booking sets; the lemma is stated for any seat carrying such a status.
- The admin report page's sidebar reads `isTables`, which is never declared, so the page throws on render (frontend/src/pages/admin/AdminReports.jsx:285). The order rows its fallback reads carry `order_time` and `total_amount`, not the `created_at`, `order_date` or `total` fields it looks for. Neither affects the modelled computations.
- Js.ToStr: an array prints as "[object Object]", where `String()` joins its elements with commas. No modelled path prints an array.
- DrinkBasePrice.PriceMap: a drink id that names a member inherited from `Object.prototype` is treated as a fresh key, where the page's `map[id]` would find the inherited member.
- The delete handler for drink base prices and the other controllers outside the modelled files are left out.

## Findings

| source | as written | input that shows it | evidently intended | confidence | as-written member | corrected member |
|---|---|---|---|---|---|---|
| frontend/src/pages/DrinkPayment.jsx:161-165 | the drink page posts `{ table, status }` to `POST /orders`; the order handler reads `items`, `table_label` and `payment_method` and never these two fields, so it finds no lines and answers 400 NO_ITEMS | any cart with one selected drink, for example one iced latte with quantity 1 | post the selected lines, the table label and the payment method, so that the order is recorded in the status the page chose | not executed | DrinkPayment.SubmitToServer | DrinkPayment.IntendedBodyStartsOrder |
