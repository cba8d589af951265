/** The drink checkout page: the unit price of a cart line from the price matrix, the
    selection and its running sum, and what the page posts on submit. */
module DrinkPayment {
  import opened Js
  import Orders
  import ConfirmFoods
  import DrinkBasePrice
  import OrderController
  import OrderSchema

  /** A price-matrix entry, keyed by "hot", "cold", "blend" and "base". */
  type Entry = map<string, Value>

  function Field(e: Entry, k: string): Value {
    if k in e then e[k] else Undefined
  }

  /** A working cart line: the fields the page reads, after `qty` went through
      `Number(x.qty ?? x.quantity ?? 0)`; `key` is the line's `_key`. */
  datatype DrinkItem = DrinkItem(itemId: Value, id: Value, key: string, temp: Value, price: Value, qty: Number)

  /** The temperature a line asks for, as a matrix key: ร้อน, เย็น and ปั่น only. */
  function TempKey(temp: Value): (r: Option<string>)
    ensures r.Some? <==> temp in [Str("ร้อน"), Str("เย็น"), Str("ปั่น")]
  {
    if temp == Str("ร้อน") then Some("hot")
    else if temp == Str("เย็น") then Some("cold")
    else if temp == Str("ปั่น") then Some("blend")
    else None
  }

  /** The page's keys for the three Thai temperatures are the keys the server files
      base prices under. */
  lemma TempKeysMatchServer(t: string)
    requires t in ["ร้อน", "เย็น", "ปั่น"]
    ensures TempKey(Str(t)) == DrinkBasePrice.TempKey(Str(t))
  {
    assert Trimmed(t) by {
      assert t[0] != ' ' && t[|t| - 1] != ' ';
      assert !IsSpace(t[0]) && !IsSpace(t[|t| - 1]);
    }
    assert t in DrinkBasePrice.HotNames || t in DrinkBasePrice.ColdNames || t in DrinkBasePrice.BlendNames;
  }

  /** `String(it.item_id ?? it.id ?? it._key)`: the line's key in the price matrix. */
  function MatrixKey(it: DrinkItem): string {
    ToStr(Coalesce(it.itemId, Coalesce(it.id, Str(it.key))))
  }

  /** `Number(x) || 0` of a number; an infinite price is read as 0 (see README). */
  function PriceOf(v: Value): int
    requires v.Num?
  {
    NumberOrZero(v.n)
  }

  /** `unitPriceOf`: the matrix price for the line's temperature when it is a number, else
      the entry's base price when it is a number, else the line's own price when it is a
      number, else 0. */
  function UnitPriceOf(it: DrinkItem, matrix: map<string, Entry>): int {
    var entry := if MatrixKey(it) in matrix then matrix[MatrixKey(it)] else map[];
    var t := TempKey(it.temp);
    if t.Some? && Field(entry, t.value).Num? then PriceOf(Field(entry, t.value))
    else if Field(entry, "base").Num? then PriceOf(Field(entry, "base"))
    else if it.price.Num? then PriceOf(it.price)
    else 0
  }

  /** Which price `unitPriceOf` takes, in order of preference. */
  lemma UnitPriceChoice(it: DrinkItem, matrix: map<string, Entry>)
    ensures var entry := if MatrixKey(it) in matrix then matrix[MatrixKey(it)] else map[];
      var t := TempKey(it.temp);
      var u := UnitPriceOf(it, matrix);
      && (t.Some? && Field(entry, t.value).Num? ==> u == NumberOrZero(Field(entry, t.value).n))
      && (!(t.Some? && Field(entry, t.value).Num?) && Field(entry, "base").Num? ==> u == NumberOrZero(Field(entry, "base").n))
      && (!(t.Some? && Field(entry, t.value).Num?) && !Field(entry, "base").Num? && it.price.Num? ==> u == NumberOrZero(it.price.n))
      && (!(t.Some? && Field(entry, t.value).Num?) && !Field(entry, "base").Num? && !it.price.Num? ==> u == 0)
      && (MatrixKey(it) !in matrix ==> u == (if it.price.Num? then NumberOrZero(it.price.n) else 0))
  {
  }

  /** An entry the server built carries no base price, so when its price for the chosen
      temperature is still null the page falls back to the line's own price. */
  lemma ServerEntryWithoutPrice(it: DrinkItem, matrix: map<string, Entry>, id: string)
    requires MatrixKey(it) in matrix && matrix[MatrixKey(it)] == DrinkBasePrice.InitialEntry(id)
    ensures UnitPriceOf(it, matrix) == (if it.price.Num? then NumberOrZero(it.price.n) else 0)
  {
  }

  // ---------------------------------------------------------------- selection and sum

  predicate PositiveQty(it: DrinkItem) {
    it.qty.Finite? && it.qty.x > 0
  }

  /** `selected`: the lines with a positive quantity. */
  function Selected(items: seq<DrinkItem>): (r: seq<DrinkItem>)
    ensures forall it :: it in r <==> it in items && PositiveQty(it)
  {
    if items == [] then []
    else (if PositiveQty(items[0]) then [items[0]] else []) + Selected(items[1..])
  }

  /** A line with its unit price and line total. */
  datatype PricedLine = PricedLine(item: DrinkItem, unitPrice: int, lineTotal: int)

  /** `unit * Number(it.qty || 0)`. */
  function LineTotal(it: DrinkItem, matrix: map<string, Entry>): int {
    UnitPriceOf(it, matrix) * NumberOrZero(it.qty)
  }

  /** Σ unit × qty over the lines. */
  function SumOf(lines: seq<DrinkItem>, matrix: map<string, Entry>): int {
    if lines == [] then 0 else SumOf(lines[..|lines| - 1], matrix) + LineTotal(lines[|lines| - 1], matrix)
  }

  /** `calculated`: every selected line priced, and the running sum of their totals. */
  method Calculate(selected: seq<DrinkItem>, matrix: map<string, Entry>) returns (sum: int, lines: seq<PricedLine>)
    ensures sum == SumOf(selected, matrix)
    ensures |lines| == |selected|
    ensures forall i :: 0 <= i < |lines| ==>
      lines[i] == PricedLine(selected[i], UnitPriceOf(selected[i], matrix), LineTotal(selected[i], matrix))
  {
    sum := 0;
    lines := [];
    for i := 0 to |selected|
      invariant sum == SumOf(selected[..i], matrix)
      invariant |lines| == i
      invariant forall j :: 0 <= j < i ==>
        lines[j] == PricedLine(selected[j], UnitPriceOf(selected[j], matrix), LineTotal(selected[j], matrix))
    {
      var it := selected[i];
      var unit := UnitPriceOf(it, matrix);
      var total := unit * NumberOrZero(it.qty);
      sum := sum + total;
      lines := lines + [PricedLine(it, unit, total)];
      assert selected[..i + 1][..i] == selected[..i];
    }
    assert selected[..|selected|] == selected;
  }

  lemma {:induction false} SumAppend(a: seq<DrinkItem>, b: seq<DrinkItem>, matrix: map<string, Entry>)
    ensures SumOf(a + b, matrix) == SumOf(a, matrix) + SumOf(b, matrix)
  {
    if b == [] {
      assert a + b == a;
    } else {
      var b' := b[..|b| - 1];
      assert (a + b)[..|a + b| - 1] == a + b';
      assert (a + b)[|a + b| - 1] == b[|b| - 1];
      SumAppend(a, b', matrix);
    }
  }

  /** The selection drops every line whose quantity is not a positive number, and keeps
      a cart of positive lines whole. */
  lemma SelectionKeepsPositive(items: seq<DrinkItem>)
    ensures forall it :: it in items && !it.qty.Finite? ==> it !in Selected(items)
    ensures (forall it :: it in items ==> PositiveQty(it)) ==> Selected(items) == items
  {
    if forall it :: it in items ==> PositiveQty(it) {
      AllPositiveSelected(items);
    }
  }

  /** Selecting again selects nothing less. */
  lemma {:induction false} SelectedIdempotent(items: seq<DrinkItem>)
    ensures Selected(Selected(items)) == Selected(items)
  {
    AllPositiveSelected(Selected(items));
  }

  lemma {:induction false} AllPositiveSelected(items: seq<DrinkItem>)
    requires forall it :: it in items ==> PositiveQty(it)
    ensures Selected(items) == items
  {
    if items != [] {
      assert items[0] in items;
      assert forall it :: it in items[1..] ==> it in items;
      AllPositiveSelected(items[1..]);
      assert [items[0]] + items[1..] == items;
    }
  }

  /** With every price in the cart non-negative the sum is non-negative. */
  lemma {:induction false} SumNonNegative(lines: seq<DrinkItem>, matrix: map<string, Entry>)
    requires forall it :: it in lines ==> UnitPriceOf(it, matrix) >= 0 && PositiveQty(it)
    ensures SumOf(lines, matrix) >= 0
  {
    if lines != [] {
      var pre := lines[..|lines| - 1];
      var last := lines[|lines| - 1];
      assert forall it :: it in pre ==> it in lines;
      assert last in lines;
      SumNonNegative(pre, matrix);
      ProductNonNegative(UnitPriceOf(last, matrix), NumberOrZero(last.qty));
    }
  }

  lemma ProductNonNegative(a: int, b: int)
    requires a >= 0 && b >= 0
    ensures a * b >= 0
  {
  }

  // ---------------------------------------------------------------- submitting

  /** The status posted: paid for cash, pending for anything else. */
  function SubmitStatus(choice: string): (r: string)
    ensures r == Orders.Paid <==> choice == "เงินสด"
    ensures r == Orders.Paid || r == Orders.Pending
  {
    if choice == "เงินสด" then Orders.Paid else Orders.Pending
  }

  /** `canSubmit`. */
  predicate CanSubmit(items: seq<DrinkItem>, submitting: bool) {
    |Selected(items)| > 0 && !submitting
  }

  datatype SubmitBody = SubmitBody(table: Option<string>, status: string)

  /** `submitPayment`: nothing is posted for an empty selection; otherwise the table label
      (left out when empty) and the status. */
  function SubmitPayment(items: seq<DrinkItem>, choice: string, tableLabel: string): (r: Option<SubmitBody>)
    ensures r.None? <==> Selected(items) == []
    ensures r.Some? ==> r.value.status == SubmitStatus(choice)
    ensures r.Some? ==> (r.value.table.None? <==> tableLabel == "")
  {
    if Selected(items) == [] then None
    else Some(SubmitBody(if tableLabel == "" then None else Some(tableLabel), SubmitStatus(choice)))
  }

  /** The button is enabled exactly when a submit, made now, would post something. */
  lemma CanSubmitPosts(items: seq<DrinkItem>, choice: string, tableLabel: string)
    ensures CanSubmit(items, false) <==> SubmitPayment(items, choice, tableLabel).Some?
    ensures !CanSubmit(items, true)
  {
  }

  // ---------------------------------------------------------------- what the server makes of it

  /** The submitted body as the order handler reads it: the handler reads `table_number`,
      `table_label`, `payment_method`, `order_note` and `items`, and the page sends none of
      them (`table` and `status` are not read at all). */
  function AsOrderBody(b: SubmitBody): OrderController.Body {
    OrderController.Body(Undefined, Undefined, Undefined, Undefined, None)
  }

  /** As written, the page's order never reaches the store: the handler finds no lines, so
      by `OrderController.CreateOrder`'s contract it answers 400 NO_ITEMS and the order is
      never started in the status the page chose. */
  lemma SubmitNeverStartsOrder(items: seq<DrinkItem>, choice: string, tableLabel: string)
    ensures var r := SubmitPayment(items, choice, tableLabel);
      r.Some? ==> OrderController.PrepareItems(AsOrderBody(r.value).items) == Some([])
  {
  }

  /** The page's submit as the server sees it: a non-empty selection is posted to the order
      handler, which answers 400 NO_ITEMS and records nothing. */
  method SubmitToServer(db: Orders.Database, cache: OrderSchema.ColumnCache, items: seq<DrinkItem>, choice: string,
                        tableLabel: string, failAt: Option<nat>)
    returns (resp: Option<OrderController.Response>)
    requires db.Valid() && cache.Sound(db.schema)
    modifies db, cache
    ensures resp.None? <==> Selected(items) == []
    ensures resp.Some? ==> resp.value == OrderController.Response(400, OrderController.Rejected("NO_ITEMS"))
    ensures unchanged(db)
  {
    var posted := SubmitPayment(items, choice, tableLabel);
    if posted.None? {
      return None;
    }
    SubmitNeverStartsOrder(items, choice, tableLabel);
    var r := OrderController.CreateOrder(db, cache, AsOrderBody(posted.value), failAt);
    resp := Some(r);
  }

  /** A selected line as the order handler expects it: a drink with its matrix key as the
      reference id, its unit price and its quantity. */
  function OrderEntry(it: DrinkItem, matrix: map<string, Entry>): OrderController.RawEntry {
    OrderController.Present(OrderController.RawItem(Str("drink"), Str(MatrixKey(it)), Undefined,
      Num(Finite(UnitPriceOf(it, matrix))), Num(it.qty), Undefined))
  }

  function OrderEntries(lines: seq<DrinkItem>, matrix: map<string, Entry>): (r: seq<OrderController.RawEntry>)
    ensures |r| == |lines| && forall i :: 0 <= i < |lines| ==> r[i] == OrderEntry(lines[i], matrix)
  {
    seq(|lines|, i requires 0 <= i < |lines| => OrderEntry(lines[i], matrix))
  }

  /** The body the page evidently meant to post: the selected lines, the table label and the
      payment method the server turns into the chosen status. */
  function IntendedOrderBody(items: seq<DrinkItem>, matrix: map<string, Entry>, choice: string, tableLabel: string)
    : OrderController.Body
  {
    OrderController.Body(Undefined, if tableLabel == "" then Undefined else Str(tableLabel),
      Str(ConfirmFoods.PaymentLabel(choice)), Undefined, Some(OrderEntries(Selected(items), matrix)))
  }

  /** The line the handler makes of a selected line's entry. */
  function Posted(it: DrinkItem, matrix: map<string, Entry>): Orders.LineInput
    requires PositiveQty(it)
  {
    Orders.LineInput("drink", Some(MatrixKey(it)), "-", UnitPriceOf(it, matrix), it.qty.x, "")
  }

  function PostedAll(sel: seq<DrinkItem>, matrix: map<string, Entry>): (r: seq<Orders.LineInput>)
    requires forall it :: it in sel ==> PositiveQty(it)
    ensures |r| == |sel| && forall i :: 0 <= i < |sel| ==> r[i] == Posted(sel[i], matrix)
  {
    seq(|sel|, i requires 0 <= i < |sel| => Posted(sel[i], matrix))
  }

  /** One selected line as the handler coerces it: its key, unit price and quantity. */
  lemma OrderEntryCoerced(it: DrinkItem, matrix: map<string, Entry>)
    requires PositiveQty(it)
    ensures OrderController.CoerceItem(OrderEntry(it, matrix).fields) == Posted(it, matrix)
    ensures OrderController.Survives(Posted(it, matrix)) <==> MatrixKey(it) != ""
  {
    assert Lower("drink") == "drink" by {
      assert NoUpper("drink");
      LowerOfNoUpper("drink");
    }
  }

  /** The handler keeps, of the selected lines, those with a key. */
  lemma EntriesKept(sel: seq<DrinkItem>, matrix: map<string, Entry>)
    requires forall it :: it in sel ==> PositiveQty(it)
    ensures OrderController.PrepareItems(Some(OrderEntries(sel, matrix))) ==
              Some(OrderController.FilterSurvivors(PostedAll(sel, matrix)))
  {
    var coerced := OrderController.CoerceEntries(OrderEntries(sel, matrix));
    assert coerced.Some?;
    forall i | 0 <= i < |sel|
      ensures coerced.value[i] == PostedAll(sel, matrix)[i]
    {
      assert sel[i] in sel;
      OrderEntryCoerced(sel[i], matrix);
    }
    assert coerced.value == PostedAll(sel, matrix);
  }

  /** A selected line with a key survives the handler's filter. */
  lemma KeyedLineSurvives(sel: seq<DrinkItem>, matrix: map<string, Entry>, it: DrinkItem)
    requires forall x :: x in sel ==> PositiveQty(x)
    requires it in sel && MatrixKey(it) != ""
    ensures Posted(it, matrix) in OrderController.FilterSurvivors(PostedAll(sel, matrix))
  {
    var i :| 0 <= i < |sel| && sel[i] == it;
    OrderEntryCoerced(it, matrix);
    assert PostedAll(sel, matrix)[i] == Posted(it, matrix);
  }

  /** With the intended body the handler passes on exactly the selected lines with a key, as
      drinks with their unit price and quantity, so a cart holding such a line is not
      answered NO_ITEMS by the handler; and the server starts the order in the status the
      page shows. */
  lemma IntendedBodyStartsOrder(items: seq<DrinkItem>, matrix: map<string, Entry>, choice: string, tableLabel: string)
    ensures var body := IntendedOrderBody(items, matrix, choice, tableLabel);
      var kept := OrderController.PrepareItems(body.items);
      && kept == Some(OrderController.FilterSurvivors(PostedAll(Selected(items), matrix)))
      && (forall it :: it in Selected(items) && MatrixKey(it) != "" ==> Posted(it, matrix) in kept.value)
      && Orders.InitialStatus(OrderController.PrepareArgs(body, kept.value).paymentMethod) == SubmitStatus(choice)
  {
    var sel := Selected(items);
    EntriesKept(sel, matrix);
    forall it | it in sel && MatrixKey(it) != ""
      ensures Posted(it, matrix) in OrderController.FilterSurvivors(PostedAll(sel, matrix))
    {
      KeyedLineSurvives(sel, matrix, it);
    }
    ConfirmFoods.PaymentStartsOrder(choice);
  }
}
