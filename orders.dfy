/** The order store of backend/models/orderModel.js: the `orders`, `order_items` and `payments`
    tables as explicit state, the `createFull` transaction, and the status and deletion statements.
    The catalogue is fixed (`schema`); the position of a failing statement is a parameter. */
module Orders {
  import opened Js
  import opened OrderSchema
  import opened OrderNormalize

  /** The two order statuses the model writes. */
  const Paid: string := "ชำระเงินแล้ว"
  const Pending: string := "รอดำเนินการ"

  // ---------------------------------------------------------------- rows

  /** A row of `orders`; an optional column that was never written holds NULL (None). */
  datatype OrderRow = OrderRow(
    orderId: nat,
    tableNumber: Option<int>,
    status: string,
    tableLabel: Option<string>,
    orderNote: Option<string>,
    paymentMethod: Option<string>,
    totalAmount: Option<int>)

  /** A row of `order_items`; the quantity column is `qty` or `quantity`, whichever exists. */
  datatype ItemRow = ItemRow(orderId: nat, itemType: string, itemId: string, name: string, qty: int, price: int)

  datatype PaymentRow = PaymentRow(orderId: nat, amount: int, payMethod: Option<string>)

  function ItemOrderId(r: ItemRow): nat { r.orderId }
  function PaymentOrderId(r: PaymentRow): nat { r.orderId }
  function OrderOrderId(r: OrderRow): nat { r.orderId }

  // ---------------------------------------------------------------- the call

  /** One line as the order controller passes it on: type and name are strings, price and qty
      finite numbers, the reference id a string or null. */
  datatype LineInput = LineInput(itemType: string, refId: Option<string>, name: string, price: int, qty: int, itemNote: string)

  datatype CreateArgs = CreateArgs(
    tableNumber: Option<int>,
    tableLabel: string,
    items: seq<LineInput>,
    paymentMethod: string,
    orderNote: string)

  /** A line after createFull's own normalisation. */
  datatype NormLine = NormLine(itemType: string, id: string, name: string, price: int, qty: int, itemNote: Option<string>)

  datatype Created = Created(orderId: nat, totalAmount: int, status: string)

  /** Why createFull threw: no line survived its filter, or the statement with this position
      within the transaction failed. */
  datatype CreateError = NoItems | StatementFailed(step: nat)

  /** The initial status: paid exactly for the strings "cash" and "card". */
  function InitialStatus(paymentMethod: string): (s: string)
    ensures s == Paid <==> paymentMethod == "cash" || paymentMethod == "card"
    ensures s == Paid || s == Pending
  {
    if paymentMethod == "cash" || paymentMethod == "card" then Paid else Pending
  }

  /** `table_number || null` */
  function HeaderTable(tableNumber: Option<int>): (r: Option<int>)
    ensures r.Some? <==> tableNumber.Some? && tableNumber.value != 0
    ensures r.Some? ==> r == tableNumber
  {
    if tableNumber.Some? && tableNumber.value != 0 then tableNumber else None
  }

  /** The per-line normalisation: type through normalizeType, the reference id as a trimmed
      string, an empty name replaced by "-" and trimmed, an empty note dropped. */
  function NormalizeLine(x: LineInput): (l: NormLine)
    ensures l.id == (if x.refId.Some? then Trim(x.refId.value) else "")
    ensures l.qty == x.qty && l.price == x.price
  {
    NormLine(
      NormalizeType(x.itemType),
      if x.refId.Some? then Trim(x.refId.value) else "",
      Trim(if x.name != "" then x.name else "-"),
      x.price,
      x.qty,
      if x.itemNote != "" then Some(x.itemNote) else None)
  }

  /** `.filter(x => x.id && x.qty > 0)` */
  predicate Kept(l: NormLine) {
    l.id != "" && l.qty > 0
  }

  /** `(items || []).map(...)` */
  function NormalizedLines(items: seq<LineInput>): (r: seq<NormLine>)
    ensures |r| == |items| && forall i :: 0 <= i < |items| ==> r[i] == NormalizeLine(items[i])
  {
    seq(|items|, i requires 0 <= i < |items| => NormalizeLine(items[i]))
  }

  /** The kept lines, in their original order. */
  function FilterKept(lines: seq<NormLine>): (r: seq<NormLine>)
    ensures |r| <= |lines|
    ensures forall l :: l in r <==> l in lines && Kept(l)
  {
    if lines == [] then []
    else if Kept(lines[0]) then [lines[0]] + FilterKept(lines[1..])
    else FilterKept(lines[1..])
  }

  /** The lines createFull inserts. */
  function KeptLines(items: seq<LineInput>): seq<NormLine> {
    FilterKept(NormalizedLines(items))
  }

  /** The kept lines are exactly the normalised lines with an id and a positive quantity. */
  lemma KeptLinesSpec(items: seq<LineInput>)
    ensures |KeptLines(items)| <= |items|
    ensures forall l :: l in KeptLines(items) ==> Kept(l)
    ensures forall i :: 0 <= i < |items| && Kept(NormalizeLine(items[i])) ==> NormalizeLine(items[i]) in KeptLines(items)
    ensures forall l :: l in KeptLines(items) ==> exists i :: 0 <= i < |items| && l == NormalizeLine(items[i])
  {
    var n := NormalizedLines(items);
    assert forall i :: 0 <= i < |items| ==> n[i] in n;
  }

  /** Σ qty × price over the lines. */
  function LineTotal(lines: seq<NormLine>): int {
    if lines == [] then 0 else LineTotal(lines[..|lines| - 1]) + lines[|lines| - 1].qty * lines[|lines| - 1].price
  }

  function ItemRowOf(orderId: nat, l: NormLine): ItemRow {
    ItemRow(orderId, l.itemType, l.id, l.name, l.qty, l.price)
  }

  /** The rows inserted for the lines, one per line, in order. */
  function ItemRowsFor(orderId: nat, lines: seq<NormLine>): (r: seq<ItemRow>)
    ensures |r| == |lines|
    ensures forall i :: 0 <= i < |lines| ==> r[i] == ItemRowOf(orderId, lines[i])
  {
    if lines == [] then [] else ItemRowsFor(orderId, lines[..|lines| - 1]) + [ItemRowOf(orderId, lines[|lines| - 1])]
  }

  /** `SELECT COALESCE(SUM(qty * price), 0) FROM order_items WHERE order_id = ?` */
  function SumForOrder(rows: seq<ItemRow>, orderId: nat): int {
    if rows == [] then 0
    else
      var last := rows[|rows| - 1];
      SumForOrder(rows[..|rows| - 1], orderId) + (if last.orderId == orderId then last.qty * last.price else 0)
  }

  /** Rows of other orders do not count towards an order's sum. */
  lemma {:induction false} SumForOrderOthers(rows: seq<ItemRow>, orderId: nat)
    requires forall i :: 0 <= i < |rows| ==> rows[i].orderId != orderId
    ensures SumForOrder(rows, orderId) == 0
  {
    if rows != [] {
      SumForOrderOthers(rows[..|rows| - 1], orderId);
    }
  }

  /** The total read back from the table is the total of the lines just inserted under a fresh id. */
  lemma {:induction false} TotalFromInsertedRows(saved: seq<ItemRow>, orderId: nat, lines: seq<NormLine>)
    requires forall i :: 0 <= i < |saved| ==> saved[i].orderId != orderId
    ensures SumForOrder(saved + ItemRowsFor(orderId, lines), orderId) == LineTotal(lines)
  {
    if lines == [] {
      assert saved + ItemRowsFor(orderId, lines) == saved;
      SumForOrderOthers(saved, orderId);
    } else {
      var init := lines[..|lines| - 1];
      var rows := saved + ItemRowsFor(orderId, lines);
      assert rows[..|rows| - 1] == saved + ItemRowsFor(orderId, init);
      TotalFromInsertedRows(saved, orderId, init);
    }
  }

  // ---------------------------------------------------------------- single-column updates

  /** `UPDATE orders SET <column> = ? WHERE order_id = ?` for the columns the model writes. */
  datatype OrderPatch = SetLabel(labelText: string) | SetNote(noteText: string) | SetMethod(methodText: string)
                      | SetTotal(totalValue: int) | SetStatus(statusText: string)

  function ApplyPatch(row: OrderRow, p: OrderPatch): (r: OrderRow)
    ensures r.orderId == row.orderId
  {
    match p
    case SetLabel(v) => row.(tableLabel := Some(v))
    case SetNote(v) => row.(orderNote := Some(v))
    case SetMethod(v) => row.(paymentMethod := Some(v))
    case SetTotal(v) => row.(totalAmount := Some(v))
    case SetStatus(v) => row.(status := v)
  }

  /** Every row with the id is patched, every other row is kept. */
  function PatchOrders(rows: seq<OrderRow>, orderId: int, p: OrderPatch): (r: seq<OrderRow>)
    ensures |r| == |rows|
    ensures forall i :: 0 <= i < |rows| ==> r[i] == (if rows[i].orderId == orderId then ApplyPatch(rows[i], p) else rows[i])
  {
    if rows == [] then []
    else [if rows[0].orderId == orderId then ApplyPatch(rows[0], p) else rows[0]] + PatchOrders(rows[1..], orderId, p)
  }

  /** Patching the row just inserted under a fresh id changes that row alone. */
  lemma PatchFresh(saved: seq<OrderRow>, header: OrderRow, p: OrderPatch)
    requires forall i :: 0 <= i < |saved| ==> saved[i].orderId != header.orderId
    ensures PatchOrders(saved + [header], header.orderId, p) == saved + [ApplyPatch(header, p)]
  {
  }

  /** `DELETE FROM <table> WHERE order_id = ?` */
  function Without<T(!new)>(rows: seq<T>, key: T -> nat, orderId: int): (r: seq<T>)
    ensures |r| <= |rows|
    ensures forall x :: x in r <==> x in rows && key(x) != orderId
  {
    if rows == [] then []
    else if key(rows[0]) == orderId then Without(rows[1..], key, orderId)
    else [rows[0]] + Without(rows[1..], key, orderId)
  }

  // ---------------------------------------------------------------- what a commit leaves behind

  /** The header row as it stands once the optional columns are written, before the total is known. */
  function OpenHeader(schema: SchemaFacts, args: CreateArgs, orderId: nat): OrderRow {
    OrderRow(
      orderId,
      HeaderTable(args.tableNumber),
      InitialStatus(args.paymentMethod),
      if args.tableLabel != "" && HasColumn(schema, "orders", "table_label") then Some(args.tableLabel) else None,
      if args.orderNote != "" && HasColumn(schema, "orders", "order_note") then Some(args.orderNote) else None,
      if args.paymentMethod != "" && HasColumn(schema, "orders", "payment_method") then Some(args.paymentMethod) else None,
      None)
  }

  /** The header row createFull commits: the total is stored when the column exists. */
  function CommittedHeader(schema: SchemaFacts, args: CreateArgs, orderId: nat, total: int): OrderRow {
    var h := OpenHeader(schema, args, orderId);
    if HasColumn(schema, "orders", "total_amount") then ApplyPatch(h, SetTotal(total)) else h
  }

  /** The payment rows createFull commits: one row when the `payments` table exists, carrying the
      total for cash and card and 0 otherwise, and the method normalised against the column's enum. */
  function CommittedPayments(schema: SchemaFacts, args: CreateArgs, orderId: nat, total: int): (r: seq<PaymentRow>)
    ensures |r| == (if "payments" in schema.tables then 1 else 0)
    ensures forall p :: p in r ==> p.orderId == orderId
    ensures forall p :: p in r ==> p.amount == (if InitialStatus(args.paymentMethod) == Paid then total else 0)
  {
    if "payments" in schema.tables then
      var amount := if args.paymentMethod == "cash" || args.paymentMethod == "card" then total else 0;
      [PaymentRow(orderId, amount, NormalizeMethod(args.paymentMethod, GetEnumOptions(schema, "payments", "method")))]
    else []
  }

  /** The store: three tables, the next AUTO_INCREMENT value, and the catalogue. */
  class Database {
    var orders: seq<OrderRow>
    var items: seq<ItemRow>
    var payments: seq<PaymentRow>
    var nextId: nat
    const schema: SchemaFacts

    /** Ids are positive, distinct among orders, and every row refers to an id already handed out. */
    ghost predicate Valid()
      reads this
    {
      && nextId >= 1
      && RowsBelow(orders, items, payments, nextId)
      && DistinctIds(orders)
    }

    constructor (schema: SchemaFacts)
      ensures Valid() && this.schema == schema
      ensures orders == [] && items == [] && payments == [] && nextId == 1
    {
      this.schema := schema;
      orders, items, payments, nextId := [], [], [], 1;
    }

    /** ROLLBACK: the tables go back to what they were when the transaction began. */
    method Rollback(savedOrders: seq<OrderRow>, savedItems: seq<ItemRow>, savedPayments: seq<PaymentRow>)
      requires RowsBelow(savedOrders, savedItems, savedPayments, nextId) && nextId >= 1
      requires DistinctIds(savedOrders)
      modifies this
      ensures orders == savedOrders && items == savedItems && payments == savedPayments
      ensures nextId == old(nextId) && Valid()
    {
      orders, items, payments := savedOrders, savedItems, savedPayments;
    }

    /** An `UPDATE orders SET ... WHERE order_id = ?` on the header just inserted under a fresh id. */
    method PatchHeader(header: OrderRow, p: OrderPatch, ghost savedOrders: seq<OrderRow>) returns (patched: OrderRow)
      requires orders == savedOrders + [header]
      requires forall i :: 0 <= i < |savedOrders| ==> savedOrders[i].orderId != header.orderId
      modifies this
      ensures patched == ApplyPatch(header, p) && orders == savedOrders + [patched]
      ensures items == old(items) && payments == old(payments) && nextId == old(nextId)
    {
      PatchFresh(savedOrders, header, p);
      orders := PatchOrders(orders, header.orderId, p);
      patched := ApplyPatch(header, p);
    }

    /** One of the optional header columns: written when the value is truthy and the column exists.
        `failed` reports that the UPDATE was the failing statement. */
    method OptionalColumn(cache: ColumnCache, column: string, value: string, p: OrderPatch,
                          header: OrderRow, ghost savedOrders: seq<OrderRow>, failAt: Option<nat>, step: nat)
      returns (patched: OrderRow, stepOut: nat, failed: bool)
      requires orders == savedOrders + [header] && cache.Sound(schema) && '.' !in "orders"
      requires forall i :: 0 <= i < |savedOrders| ==> savedOrders[i].orderId != header.orderId
      modifies this, cache
      ensures cache.Sound(schema)
      ensures items == old(items) && payments == old(payments) && nextId == old(nextId)
      ensures var written := value != "" && HasColumn(schema, "orders", column);
              && stepOut == step + (if written then 1 else 0)
              && (failed <==> written && failAt == Some(stepOut))
              && (!failed ==> patched == (if written then ApplyPatch(header, p) else header))
              && (!failed ==> orders == savedOrders + [patched])
    {
      patched, stepOut, failed := header, step, false;
      if value != "" {
        var has, _ := cache.ColumnExists(schema, "orders", column);
        if has {
          stepOut := step + 1;
          if failAt == Some(stepOut) {
            failed := true;
            return;
          }
          patched := PatchHeader(header, p, savedOrders);
        }
      }
    }

    /** The three optional header columns, in the order createFull writes them, then the item-table probes. */
    method OptionalColumns(args: CreateArgs, cache: ColumnCache, header: OrderRow, ghost savedOrders: seq<OrderRow>,
                           failAt: Option<nat>, step: nat)
      returns (patched: OrderRow, stepOut: nat, failed: bool)
      requires orders == savedOrders + [header] && cache.Sound(schema)
      requires forall i :: 0 <= i < |savedOrders| ==> savedOrders[i].orderId != header.orderId
      requires header == OrderRow(header.orderId, HeaderTable(args.tableNumber), InitialStatus(args.paymentMethod),
                                  None, None, None, None)
      modifies this, cache
      ensures cache.Sound(schema) && stepOut >= step
      ensures items == old(items) && payments == old(payments) && nextId == old(nextId)
      ensures failed ==> failAt == Some(stepOut)
      ensures !failed ==> patched == OpenHeader(schema, args, header.orderId) && orders == savedOrders + [patched]
    {
      patched, stepOut, failed := OptionalColumn(cache, "table_label", args.tableLabel, SetLabel(args.tableLabel),
                                                 header, savedOrders, failAt, step);
      if failed {
        return;
      }
      patched, stepOut, failed := OptionalColumn(cache, "order_note", args.orderNote, SetNote(args.orderNote),
                                                 patched, savedOrders, failAt, stepOut);
      if failed {
        return;
      }
      patched, stepOut, failed := OptionalColumn(cache, "payment_method", args.paymentMethod, SetMethod(args.paymentMethod),
                                                 patched, savedOrders, failAt, stepOut);
      if failed {
        return;
      }
      // The item-table probes that follow: the quantity column's name does not change what is
      // stored, and `price` is probed and unused.
      var hasQty, _ := cache.ColumnExists(schema, "order_items", "qty");
      var hasPrice, _ := cache.ColumnExists(schema, "order_items", "price");
    }

    /** The `for` loop inserting one row per kept line; `failed` reports the failing INSERT. */
    method InsertLines(id: nat, kept: seq<NormLine>, failAt: Option<nat>, step: nat)
      returns (stepOut: nat, failed: bool)
      modifies this
      ensures orders == old(orders) && payments == old(payments) && nextId == old(nextId)
      ensures failed ==> failAt == Some(stepOut)
      ensures !failed ==> items == old(items) + ItemRowsFor(id, kept) && stepOut == step + |kept|
    {
      stepOut, failed := step, false;
      var k := 0;
      while k < |kept|
        invariant 0 <= k <= |kept|
        invariant items == old(items) + ItemRowsFor(id, kept[..k])
        invariant orders == old(orders) && payments == old(payments) && nextId == old(nextId)
        invariant stepOut == step + k
      {
        stepOut := stepOut + 1;
        if failAt == Some(stepOut) {
          failed := true;
          return;
        }
        assert kept[..k + 1][..k] == kept[..k];
        items := items + [ItemRowOf(id, kept[k])];
        k := k + 1;
      }
      assert kept[..k] == kept;
    }

    /** createFull. Statements on the transaction's connection are counted from the header INSERT
        to the COMMIT; when the one at position `failAt` fails, every table is rolled back (an
        AUTO_INCREMENT value, once taken, is not given back). Column probes go through the shared
        cache, outside the transaction. */
    method CreateFull(args: CreateArgs, cache: ColumnCache, failAt: Option<nat>) returns (r: Result<Created, CreateError>)
      requires Valid() && cache.Sound(schema)
      modifies this, cache
      ensures Valid() && cache.Sound(schema)
      ensures nextId == old(nextId) + (if failAt == Some(1) then 0 else 1)
      ensures r.Err? ==> orders == old(orders) && items == old(items) && payments == old(payments)
      ensures r.Err? && r.error.StatementFailed? ==> failAt == Some(r.error.step)
      ensures r == Err(NoItems) ==> KeptLines(args.items) == []
      ensures KeptLines(args.items) == [] ==> r.Err?
      ensures failAt.None? ==> r.Ok? || r == Err(NoItems)
      ensures r.Ok? ==>
                var id := old(nextId);
                var kept := KeptLines(args.items);
                var total := LineTotal(kept);
                && r.value == Created(id, total, InitialStatus(args.paymentMethod))
                && orders == old(orders) + [CommittedHeader(schema, args, id, total)]
                && items == old(items) + ItemRowsFor(id, kept)
                && payments == old(payments) + CommittedPayments(schema, args, id, total)
                && total == SumForOrder(items, id)
    {
      var savedOrders, savedItems, savedPayments := orders, items, payments;
      var status := InitialStatus(args.paymentMethod);
      var step := 1;
      if failAt == Some(step) {
        return Err(StatementFailed(step));
      }
      var id := nextId;
      SavedRowsFresh(savedOrders, savedItems, savedPayments, id);
      nextId := nextId + 1;
      var header := OrderRow(id, HeaderTable(args.tableNumber), status, None, None, None, None);
      orders := orders + [header];
      var failed;

      header, step, failed := OptionalColumns(args, cache, header, savedOrders, failAt, step);
      if failed {
        Rollback(savedOrders, savedItems, savedPayments);
        return Err(StatementFailed(step));
      }

      var kept := KeptLines(args.items);
      if kept == [] {
        Rollback(savedOrders, savedItems, savedPayments);
        return Err(NoItems);
      }
      r := Commit(args, cache, failAt, step, id, kept, header, savedOrders, savedItems, savedPayments);
    }

    /** The rest of createFull once the header is written: insert the item rows, read the sum back,
        store it, insert the payment row, commit; any failing statement rolls the transaction back. */
    method Commit(args: CreateArgs, cache: ColumnCache, failAt: Option<nat>, step0: nat, id: nat, kept: seq<NormLine>,
                  header: OrderRow, savedOrders: seq<OrderRow>, savedItems: seq<ItemRow>,
                  savedPayments: seq<PaymentRow>)
      returns (r: Result<Created, CreateError>)
      requires cache.Sound(schema) && id >= 1 && nextId == id + 1
      requires RowsBelow(savedOrders, savedItems, savedPayments, id)
      requires DistinctIds(savedOrders)
      requires header == OpenHeader(schema, args, id)
      requires orders == savedOrders + [header] && items == savedItems && payments == savedPayments
      modifies this, cache
      ensures Valid() && cache.Sound(schema) && nextId == old(nextId)
      ensures r.Err? ==> orders == savedOrders && items == savedItems && payments == savedPayments
      ensures r.Err? ==> r.error.StatementFailed? && failAt == Some(r.error.step)
      ensures failAt.None? ==> r.Ok?
      ensures r.Ok? ==>
                var total := LineTotal(kept);
                && r.value == Created(id, total, InitialStatus(args.paymentMethod))
                && orders == savedOrders + [CommittedHeader(schema, args, id, total)]
                && items == savedItems + ItemRowsFor(id, kept)
                && payments == savedPayments + CommittedPayments(schema, args, id, total)
                && total == SumForOrder(items, id)
    {
      SavedRowsFresh(savedOrders, savedItems, savedPayments, id);
      var step, failed := InsertLines(id, kept, failAt, step0);
      if failed {
        Rollback(savedOrders, savedItems, savedPayments);
        return Err(StatementFailed(step));
      }
      step := step + 1;
      if failAt == Some(step) {
        Rollback(savedOrders, savedItems, savedPayments);
        return Err(StatementFailed(step));
      }
      var total := SumForOrder(items, id);
      TotalFromInsertedRows(savedItems, id, kept);

      var finalHeader := header;
      var hasTotal, _ := cache.ColumnExists(schema, "orders", "total_amount");
      if hasTotal {
        step := step + 1;
        if failAt == Some(step) {
          Rollback(savedOrders, savedItems, savedPayments);
          return Err(StatementFailed(step));
        }
        finalHeader := PatchHeader(header, SetTotal(total), savedOrders);
      }
      assert finalHeader == CommittedHeader(schema, args, id, total);
      r := RecordPayment(args, failAt, step, id, kept, total, finalHeader, savedOrders, savedItems, savedPayments);
    }

    /** The end of createFull: look for the `payments` table, insert the payment row there, commit. */
    method RecordPayment(args: CreateArgs, failAt: Option<nat>, step0: nat, id: nat, kept: seq<NormLine>, total: int,
                         header: OrderRow, savedOrders: seq<OrderRow>, savedItems: seq<ItemRow>,
                         savedPayments: seq<PaymentRow>)
      returns (r: Result<Created, CreateError>)
      requires id >= 1 && nextId == id + 1 && header.orderId == id
      requires RowsBelow(savedOrders, savedItems, savedPayments, id + 1) && RowsBelow(savedOrders, savedItems, savedPayments, id)
      requires DistinctIds(savedOrders)
      requires orders == savedOrders + [header] && items == savedItems + ItemRowsFor(id, kept)
      requires payments == savedPayments
      modifies this
      ensures Valid() && nextId == old(nextId)
      ensures r.Err? ==> orders == savedOrders && items == savedItems && payments == savedPayments
      ensures r.Err? ==> r.error.StatementFailed? && failAt == Some(r.error.step)
      ensures failAt.None? ==> r.Ok?
      ensures r.Ok? ==>
                && r.value == Created(id, total, InitialStatus(args.paymentMethod))
                && orders == old(orders) && items == old(items)
                && payments == savedPayments + CommittedPayments(schema, args, id, total)
    {
      // The INFORMATION_SCHEMA.TABLES probe for `payments` runs on the transaction's connection.
      var step := step0 + 1;
      if failAt == Some(step) {
        Rollback(savedOrders, savedItems, savedPayments);
        return Err(StatementFailed(step));
      }
      var newPayments: seq<PaymentRow> := [];
      if "payments" in schema.tables {
        var options := GetEnumOptions(schema, "payments", "method");
        var methodForDb := NormalizeMethod(args.paymentMethod, options);
        var amount := if args.paymentMethod == "cash" || args.paymentMethod == "card" then total else 0;
        step := step + 1;
        if failAt == Some(step) {
          Rollback(savedOrders, savedItems, savedPayments);
          return Err(StatementFailed(step));
        }
        newPayments := [PaymentRow(id, amount, methodForDb)];
        payments := payments + newPayments;
      }
      assert newPayments == CommittedPayments(schema, args, id, total);

      step := step + 1;
      if failAt == Some(step) {
        Rollback(savedOrders, savedItems, savedPayments);
        return Err(StatementFailed(step));
      }
      CommittedRowsValid(savedOrders, savedItems, savedPayments, id, header, kept, newPayments);
      r := Ok(Created(id, total, InitialStatus(args.paymentMethod)));
    }

    /** updateStatus: any status string replaces the current one, with no transition check. */
    method UpdateStatus(orderId: int, status: string)
      requires Valid()
      modifies this
      ensures Valid()
      ensures orders == PatchOrders(old(orders), orderId, SetStatus(status))
      ensures items == old(items) && payments == old(payments) && nextId == old(nextId)
    {
      orders := PatchOrders(orders, orderId, SetStatus(status));
    }

    /** pay: the order becomes paid, whatever its status was. */
    method Pay(orderId: int)
      requires Valid()
      modifies this
      ensures Valid()
      ensures orders == PatchOrders(old(orders), orderId, SetStatus(Paid))
      ensures items == old(items) && payments == old(payments) && nextId == old(nextId)
    {
      orders := PatchOrders(orders, orderId, SetStatus(Paid));
    }

    /** remove: three separate statements (items, then payments, then the header), each committed
        on its own; when the one at position `failAt` fails, the earlier deletions stay. */
    method Remove(orderId: int, failAt: Option<nat>) returns (failed: Option<nat>)
      requires Valid()
      modifies this
      ensures Valid() && nextId == old(nextId)
      ensures failed.Some? ==> failAt == failed && 1 <= failed.value <= 3
      ensures failed.None? ==> !(failAt == Some(1) || failAt == Some(2) || failAt == Some(3))
      ensures items == (if failAt == Some(1) then old(items) else Without(old(items), ItemOrderId, orderId))
      ensures payments == (if failAt == Some(1) || failAt == Some(2) then old(payments)
                           else Without(old(payments), PaymentOrderId, orderId))
      ensures orders == (if failed.Some? then old(orders) else Without(old(orders), OrderOrderId, orderId))
    {
      if failAt == Some(1) {
        return Some(1);
      }
      items := Without(items, ItemOrderId, orderId);
      if failAt == Some(2) {
        return Some(2);
      }
      payments := Without(payments, PaymentOrderId, orderId);
      if failAt == Some(3) {
        return Some(3);
      }
      WithoutKeepsDistinct(orders, orderId);
      orders := Without(orders, OrderOrderId, orderId);
      return None;
    }
  }

  /** Every order id is positive and below `bound`, and so is every id the other tables refer to. */
  ghost predicate RowsBelow(orders: seq<OrderRow>, items: seq<ItemRow>, payments: seq<PaymentRow>, bound: nat) {
    && (forall o :: o in orders ==> 1 <= o.orderId < bound)
    && (forall x :: x in items ==> x.orderId < bound)
    && (forall p :: p in payments ==> p.orderId < bound)
  }

  /** Rows saved before an id was handed out do not carry it, and the saved state stays below the next bound. */
  lemma SavedRowsFresh(orders: seq<OrderRow>, items: seq<ItemRow>, payments: seq<PaymentRow>, id: nat)
    requires RowsBelow(orders, items, payments, id)
    ensures RowsBelow(orders, items, payments, id + 1)
    ensures forall i :: 0 <= i < |orders| ==> orders[i].orderId != id
    ensures forall i :: 0 <= i < |items| ==> items[i].orderId != id
  {
    forall i | 0 <= i < |orders| ensures orders[i].orderId != id {
      assert orders[i] in orders;
    }
    forall i | 0 <= i < |items| ensures items[i].orderId != id {
      assert items[i] in items;
    }
  }

  /** Committing a header, its item rows and its payment rows under a fresh id keeps the store valid. */
  lemma CommittedRowsValid(orders: seq<OrderRow>, items: seq<ItemRow>, payments: seq<PaymentRow>, id: nat,
                           header: OrderRow, kept: seq<NormLine>, newPayments: seq<PaymentRow>)
    requires RowsBelow(orders, items, payments, id) && id >= 1 && header.orderId == id
    requires DistinctIds(orders)
    requires forall p :: p in newPayments ==> p.orderId == id
    ensures RowsBelow(orders + [header], items + ItemRowsFor(id, kept), payments + newPayments, id + 1)
    ensures DistinctIds(orders + [header])
  {
    SavedRowsFresh(orders, items, payments, id);
    var rows := ItemRowsFor(id, kept);
    forall x | x in rows ensures x.orderId == id {
      var k :| 0 <= k < |rows| && rows[k] == x;
    }
  }

  /** No two order headers share an id. */
  ghost predicate DistinctIds(rows: seq<OrderRow>) {
    forall i, j :: 0 <= i < j < |rows| ==> rows[i].orderId != rows[j].orderId
  }

  /** Deleting headers keeps the remaining ids distinct. */
  lemma {:induction false} WithoutKeepsDistinct(rows: seq<OrderRow>, orderId: int)
    requires DistinctIds(rows)
    ensures DistinctIds(Without(rows, OrderOrderId, orderId))
  {
    if rows != [] {
      var tail := rows[1..];
      assert DistinctIds(tail) by {
        forall i, j | 0 <= i < j < |tail| ensures tail[i].orderId != tail[j].orderId {
          assert tail[i] == rows[i + 1] && tail[j] == rows[j + 1];
        }
      }
      WithoutKeepsDistinct(tail, orderId);
      var rest := Without(tail, OrderOrderId, orderId);
      if OrderOrderId(rows[0]) != orderId {
        var r := [rows[0]] + rest;
        assert Without(rows, OrderOrderId, orderId) == r;
        forall i, j | 0 <= i < j < |r| ensures r[i].orderId != r[j].orderId {
          if i == 0 {
            assert r[j] == rest[j - 1];
            assert r[j] in tail;
            var k :| 0 <= k < |tail| && tail[k] == r[j];
            assert rows[k + 1] == r[j];
          } else {
            assert r[i] == rest[i - 1] && r[j] == rest[j - 1];
          }
        }
      }
    }
  }

  // ---------------------------------------------------------------- lemmas over the store's operations

  /** After a committed pay, the order is paid and nothing else changed. */
  lemma PayMakesPaid(rows: seq<OrderRow>, orderId: int)
    ensures var r := PatchOrders(rows, orderId, SetStatus(Paid));
            && (forall i :: 0 <= i < |r| && r[i].orderId == orderId ==> r[i].status == Paid)
            && (forall i :: 0 <= i < |r| ==> r[i].(status := rows[i].status) == rows[i])
            && (forall i :: 0 <= i < |r| && rows[i].orderId != orderId ==> r[i] == rows[i])
  {
  }

  /** After a complete remove, no row of any table refers to the order, and every other row is kept. */
  lemma RemoveLeavesNoTrace(orders: seq<OrderRow>, items: seq<ItemRow>, payments: seq<PaymentRow>, orderId: int)
    ensures forall x :: x in Without(orders, OrderOrderId, orderId) ==> x.orderId != orderId
    ensures forall x :: x in Without(items, ItemOrderId, orderId) ==> x.orderId != orderId
    ensures forall x :: x in Without(payments, PaymentOrderId, orderId) ==> x.orderId != orderId
    ensures forall x :: x in items && x.orderId != orderId ==> x in Without(items, ItemOrderId, orderId)
  {
  }
}
