/** The order handlers of backend/controllers/orderController.js: the request body is coerced and
    filtered before the store is called, and every outcome becomes a status code and a payload. */
module OrderController {
  import opened Js
  import opened OrderSchema
  import opened Orders

  // ---------------------------------------------------------------- requests and responses

  /** The fields of one entry of `body.items` as the handler reads them. */
  datatype RawItem = RawItem(itemType: Value, refId: Value, name: Value, price: Value, qty: Value, itemNote: Value)

  /** An array element: an object (a primitive reads as an object whose fields are all undefined),
      or `null`/`undefined`, on which reading a field throws. */
  datatype RawEntry = Present(fields: RawItem) | Missing

  /** The fields of `req.body` the handler reads; `items` is None when it is not an array. */
  datatype Body = Body(tableNumber: Value, tableLabel: Value, paymentMethod: Value, orderNote: Value,
                       items: Option<seq<RawEntry>>)

  datatype Payload =
    | OrderCreated(orderId: nat, totalAmount: int, status: string)
    | OkTrue
    | Rejected(error: string)
    /** `{ error: "DB_ERROR", message }`; the message is known only when the store threw NO_ITEMS. */
    | DbError(message: Option<string>)

  datatype Response = Response(code: nat, payload: Payload)

  // ---------------------------------------------------------------- coercions

  /** `toNum(v, fb)`: the number when it is finite, otherwise the fallback. */
  function ToNum(v: Value, fb: int): (r: int)
    ensures ToNumber(v).Finite? ==> r == ToNumber(v).x
    ensures !ToNumber(v).Finite? ==> r == fb
  {
    match ToNumber(v)
    case Finite(x) => x
    case _ => fb
  }

  /** `Number.isFinite(Number(v)) ? Number(v) : null` */
  function TableNumberOf(v: Value): (r: Option<int>)
    ensures r.Some? <==> ToNumber(v).Finite?
    ensures r.Some? ==> r.value == ToNumber(v).x
  {
    if ToNumber(v).Finite? then Some(ToNumber(v).x) else None
  }

  /** `asStr(v || fallback)`: a falsy value gives the fallback, a non-string truthy value gives "". */
  function TextOr(v: Value, fallback: string): (r: string)
    ensures !Truthy(v) ==> r == fallback
    ensures Truthy(v) && v.Str? ==> r == v.s
    ensures Truthy(v) && !v.Str? ==> r == ""
  {
    AsStr(Or(v, Str(fallback)), "")
  }

  /** One entry of `items` as the handler maps it. */
  function CoerceItem(it: RawItem): (l: LineInput)
    ensures l.refId.Some? <==> !Nullish(it.refId)
    ensures l.refId.Some? ==> l.refId.value == ToStr(it.refId)
    ensures l.qty == ToNum(it.qty, 0) && l.price == ToNum(it.price, 0)
  {
    LineInput(
      Lower(TextOr(it.itemType, "")),
      if !Nullish(it.refId) then Some(ToStr(it.refId)) else None,
      TextOr(it.name, "-"),
      ToNum(it.price, 0),
      ToNum(it.qty, 0),
      TextOr(it.itemNote, ""))
  }

  /** `.filter(x => x.qty > 0 && x.ref_id)` */
  predicate Survives(l: LineInput) {
    l.qty > 0 && l.refId.Some? && l.refId.value != ""
  }

  /** The surviving lines, in their original order. */
  function FilterSurvivors(lines: seq<LineInput>): (r: seq<LineInput>)
    ensures |r| <= |lines|
    ensures forall l :: l in r <==> l in lines && Survives(l)
  {
    if lines == [] then []
    else if Survives(lines[0]) then [lines[0]] + FilterSurvivors(lines[1..])
    else FilterSurvivors(lines[1..])
  }

  /** The entries mapped one by one; None when an entry is null or undefined (the map throws). */
  function CoerceEntries(entries: seq<RawEntry>): (r: Option<seq<LineInput>>)
    ensures r.None? <==> exists i :: 0 <= i < |entries| && entries[i].Missing?
    ensures r.Some? ==> |r.value| == |entries|
                        && forall i :: 0 <= i < |entries| ==> r.value[i] == CoerceItem(entries[i].fields)
  {
    if entries == [] then Some([])
    else if entries[0].Missing? then None
    else
      match CoerceEntries(entries[1..])
      case None => None
      case Some(rest) => Some([CoerceItem(entries[0].fields)] + rest)
  }

  /** The lines handed to createFull; an `items` that is not an array counts as empty. */
  function PrepareItems(items: Option<seq<RawEntry>>): (r: Option<seq<LineInput>>)
    ensures items.None? ==> r == Some([])
    ensures r.Some? ==> forall l :: l in r.value ==> Survives(l)
  {
    if items.None? then Some([])
    else
      match CoerceEntries(items.value)
      case None => None
      case Some(lines) => Some(FilterSurvivors(lines))
  }

  /** The argument object of `Orders.createFull`. */
  function PrepareArgs(body: Body, lines: seq<LineInput>): (a: CreateArgs)
    ensures a.items == lines
    ensures !Truthy(body.tableLabel) ==> a.tableLabel == "unknown"
    ensures !Truthy(body.paymentMethod) ==> a.paymentMethod == "unknown"
    ensures Truthy(body.paymentMethod) && body.paymentMethod.Str? ==> a.paymentMethod == Lower(body.paymentMethod.s)
    ensures a.tableNumber == TableNumberOf(body.tableNumber)
  {
    LowerOfNoUpper("unknown");
    CreateArgs(
      TableNumberOf(body.tableNumber),
      TextOr(body.tableLabel, "unknown"),
      lines,
      Lower(TextOr(body.paymentMethod, "unknown")),
      TextOr(body.orderNote, ""))
  }

  /** `Number(req.params.x)` as a row id: a non-finite number becomes 0, which no order
      carries. A fractional parameter has already been rounded by `StringToNumber`, so it
      names the neighbouring integer id, where the database would match no row. */
  function IdOf(n: Number): int {
    if n.Finite? then n.x else 0
  }

  // ---------------------------------------------------------------- handlers

  /** createOrder */
  method CreateOrder(db: Database, cache: ColumnCache, body: Body, failAt: Option<nat>) returns (resp: Response)
    requires db.Valid() && cache.Sound(db.schema)
    modifies db, cache
    ensures db.Valid() && cache.Sound(db.schema)
    ensures PrepareItems(body.items).None? ==> resp == Response(500, DbError(None)) && unchanged(db)
    ensures PrepareItems(body.items) == Some([]) ==> resp == Response(400, Rejected("NO_ITEMS")) && unchanged(db)
    ensures resp.code == 201 ==>
              var args := PrepareArgs(body, PrepareItems(body.items).value);
              var kept := KeptLines(args.items);
              var id := old(db.nextId);
              var total := LineTotal(kept);
              && resp.payload == OrderCreated(id, total, InitialStatus(args.paymentMethod))
              && db.orders == old(db.orders) + [CommittedHeader(db.schema, args, id, total)]
              && db.items == old(db.items) + ItemRowsFor(id, kept)
              && db.payments == old(db.payments) + CommittedPayments(db.schema, args, id, total)
    ensures resp.code != 201 ==>
              db.orders == old(db.orders) && db.items == old(db.items) && db.payments == old(db.payments)
    ensures resp.code == 201 || resp.code == 400 || resp.code == 500
    ensures resp.code == 400 ==> PrepareItems(body.items) == Some([])
    ensures PrepareItems(body.items).Some? && PrepareItems(body.items).value != [] &&
            KeptLines(PrepareItems(body.items).value) == [] && failAt.None? ==>
              resp == Response(500, DbError(Some("NO_ITEMS")))
    ensures resp.code == 500 && PrepareItems(body.items).Some? && failAt.None? ==>
              resp.payload == DbError(Some("NO_ITEMS"))
    ensures PrepareItems(body.items).Some? && PrepareItems(body.items).value != [] ==>
              (resp.code == 201 <==>
                 (KeptLines(PrepareItems(body.items).value) != [] && (failAt.None? || resp.payload.OrderCreated?)))
  {
    var prepared := PrepareItems(body.items);
    if prepared.None? {
      return Response(500, DbError(None));
    }
    if prepared.value == [] {
      return Response(400, Rejected("NO_ITEMS"));
    }
    var args := PrepareArgs(body, prepared.value);
    var r := db.CreateFull(args, cache, failAt);
    match r
    case Ok(c) =>
      resp := Response(201, OrderCreated(c.orderId, c.totalAmount, c.status));
    case Err(NoItems) =>
      resp := Response(500, DbError(Some("NO_ITEMS")));
    case Err(StatementFailed(_)) =>
      resp := Response(500, DbError(None));
  }

  /** The guard of updateOrderStatus: a falsy id (0 or NaN) or an empty status is a bad request. */
  function StatusRequest(idParam: string, bodyStatus: Value, queryStatus: Value): (r: Option<(int, string)>)
    ensures r.None? <==> !Truthy(Num(ToNumber(Str(idParam)))) || AsStr(Or(bodyStatus, Or(queryStatus, Str(""))), "") == ""
    ensures r.Some? ==> r.value.1 != "" && r.value.0 == IdOf(ToNumber(Str(idParam)))
  {
    var n := ToNumber(Str(idParam));
    var status := AsStr(Or(bodyStatus, Or(queryStatus, Str(""))), "");
    if !Truthy(Num(n)) || status == "" then None else Some((IdOf(n), status))
  }

  /** updateOrderStatus; `dbFails` says the UPDATE statement threw. */
  method UpdateOrderStatus(db: Database, idParam: string, bodyStatus: Value, queryStatus: Value, dbFails: bool)
    returns (resp: Response)
    requires db.Valid()
    modifies db
    ensures db.Valid()
    ensures StatusRequest(idParam, bodyStatus, queryStatus).None? ==> resp == Response(400, Rejected("BAD_REQUEST")) && unchanged(db)
    ensures StatusRequest(idParam, bodyStatus, queryStatus).Some? && dbFails ==> resp == Response(500, DbError(None)) && unchanged(db)
    ensures StatusRequest(idParam, bodyStatus, queryStatus).Some? && !dbFails ==>
              var (id, status) := StatusRequest(idParam, bodyStatus, queryStatus).value;
              && resp == Response(200, OkTrue)
              && db.orders == PatchOrders(old(db.orders), id, SetStatus(status))
              && db.items == old(db.items) && db.payments == old(db.payments)
  {
    var req := StatusRequest(idParam, bodyStatus, queryStatus);
    if req.None? {
      return Response(400, Rejected("BAD_REQUEST"));
    }
    if dbFails {
      return Response(500, DbError(None));
    }
    db.UpdateStatus(req.value.0, req.value.1);
    resp := Response(200, OkTrue);
  }

  /** payOrder */
  method PayOrder(db: Database, idParam: string, dbFails: bool) returns (resp: Response)
    requires db.Valid()
    modifies db
    ensures db.Valid()
    ensures !Truthy(Num(ToNumber(Str(idParam)))) ==> resp == Response(400, Rejected("BAD_ORDER_ID")) && unchanged(db)
    ensures Truthy(Num(ToNumber(Str(idParam)))) && dbFails ==> resp == Response(500, DbError(None)) && unchanged(db)
    ensures Truthy(Num(ToNumber(Str(idParam)))) && !dbFails ==>
              && resp == Response(200, OkTrue)
              && db.orders == PatchOrders(old(db.orders), IdOf(ToNumber(Str(idParam))), SetStatus(Paid))
              && db.items == old(db.items) && db.payments == old(db.payments)
  {
    var n := ToNumber(Str(idParam));
    if !Truthy(Num(n)) {
      return Response(400, Rejected("BAD_ORDER_ID"));
    }
    if dbFails {
      return Response(500, DbError(None));
    }
    db.Pay(IdOf(n));
    resp := Response(200, OkTrue);
  }

  /** deleteOrder: a failing statement answers 500, and the deletions before it stay. */
  method DeleteOrder(db: Database, idParam: string, failAt: Option<nat>) returns (resp: Response)
    requires db.Valid()
    modifies db
    ensures db.Valid()
    ensures !Truthy(Num(ToNumber(Str(idParam)))) ==> resp == Response(400, Rejected("BAD_ID")) && unchanged(db)
    ensures Truthy(Num(ToNumber(Str(idParam)))) ==>
              var id := IdOf(ToNumber(Str(idParam)));
              && (resp.code == 200 <==> !(failAt == Some(1) || failAt == Some(2) || failAt == Some(3)))
              && (resp.code != 200 ==> resp == Response(500, DbError(None)))
              && (resp.code == 200 ==> resp.payload == OkTrue)
              && db.items == (if failAt == Some(1) then old(db.items) else Without(old(db.items), ItemOrderId, id))
              && db.payments == (if failAt == Some(1) || failAt == Some(2) then old(db.payments)
                                 else Without(old(db.payments), PaymentOrderId, id))
              && db.orders == (if resp.code != 200 then old(db.orders) else Without(old(db.orders), OrderOrderId, id))
  {
    var n := ToNumber(Str(idParam));
    if !Truthy(Num(n)) {
      resp := Response(400, Rejected("BAD_ID"));
    } else {
      var failed := db.Remove(IdOf(n), failAt);
      if failed.Some? {
        resp := Response(500, DbError(None));
      } else {
        resp := Response(200, OkTrue);
      }
    }
  }

  // ---------------------------------------------------------------- properties

  /** Every line the controller passes on has a positive quantity and a present, non-empty
      reference id; a non-numeric quantity or price is read as 0. */
  lemma {:induction false} SurvivorsArePositive(entries: seq<RawEntry>)
    requires PrepareItems(Some(entries)).Some?
    ensures forall l :: l in PrepareItems(Some(entries)).value ==> l.qty > 0 && l.refId.Some? && l.refId.value != ""
    ensures forall i :: 0 <= i < |entries| && entries[i].Present? && !ToNumber(entries[i].fields.qty).Finite? ==>
              CoerceItem(entries[i].fields) !in PrepareItems(Some(entries)).value
  {
    var lines := CoerceEntries(entries).value;
    forall i | 0 <= i < |entries| && entries[i].Present? && !ToNumber(entries[i].fields.qty).Finite?
      ensures CoerceItem(entries[i].fields) !in PrepareItems(Some(entries)).value
    {
      assert lines[i] == CoerceItem(entries[i].fields);
      assert !Survives(lines[i]);
    }
  }

  /** When every surviving reference id is already trimmed, createFull keeps every line the
      controller passed on: the two filters agree. */
  lemma {:induction false} TrimmedIdsAllKept(lines: seq<LineInput>)
    requires forall l :: l in lines ==> Survives(l) && Trimmed(l.refId.value)
    ensures KeptLines(lines) == NormalizedLines(lines)
  {
    FilterKeepsAll(NormalizedLines(lines));
  }

  /** Of the lines the controller passes on, createFull keeps none exactly when every
      reference id is blank, and all of them when every reference id is already trimmed. */
  lemma StoreKeepsNonBlank(lines: seq<LineInput>)
    requires forall i :: 0 <= i < |lines| ==> lines[i].refId.Some? && Survives(lines[i])
    ensures KeptLines(lines) == [] <==> forall i :: 0 <= i < |lines| ==> Trim(lines[i].refId.value) == ""
    ensures (forall i :: 0 <= i < |lines| ==> Trimmed(lines[i].refId.value)) ==> |KeptLines(lines)| == |lines|
  {
    var norm := NormalizedLines(lines);
    if KeptLines(lines) == [] {
      forall i | 0 <= i < |lines|
        ensures Trim(lines[i].refId.value) == ""
      {
        assert norm[i] in norm;
        assert norm[i] !in FilterKept(norm);
      }
    } else {
      var l := KeptLines(lines)[0];
      assert l in FilterKept(norm);
      var i :| 0 <= i < |norm| && norm[i] == l;
      assert Trim(lines[i].refId.value) != "";
    }
    if forall i :: 0 <= i < |lines| ==> Trimmed(lines[i].refId.value) {
      forall l | l in lines
        ensures Survives(l) && Trimmed(l.refId.value)
      {
        var i :| 0 <= i < |lines| && lines[i] == l;
      }
      TrimmedIdsAllKept(lines);
    }
  }

  lemma {:induction false} FilterKeepsAll(lines: seq<NormLine>)
    requires forall l :: l in lines ==> Kept(l)
    ensures FilterKept(lines) == lines
  {
    if lines != [] {
      assert lines[0] in lines;
      assert forall l :: l in lines[1..] ==> l in lines;
      FilterKeepsAll(lines[1..]);
    }
  }

  /** A reference id of blanks passes the controller's filter but not createFull's, which trims it:
      the request reaches the store, which keeps no line, and by `CreateOrder`'s contract it
      is answered 500 NO_ITEMS (or 500 for an earlier failing statement), never 400 or 201. */
  lemma BlankRefIdPassesController()
    ensures var entry := Present(RawItem(Str("drink"), Str(" "), Str("tea"), Num(Finite(20)), Num(Finite(1)), Undefined));
            var lines := PrepareItems(Some([entry])).value;
            && PrepareItems(Some([entry])).Some?
            && |lines| == 1
            && KeptLines(lines) == []
  {
    var it := RawItem(Str("drink"), Str(" "), Str("tea"), Num(Finite(20)), Num(Finite(1)), Undefined);
    var l := CoerceItem(it);
    assert l.refId == Some(" ") && l.qty == 1;
    assert Survives(l);
    var ce := CoerceEntries([Present(it)]);
    assert ce.Some? by {
      assert forall i :: 0 <= i < |[Present(it)]| ==> [Present(it)][i] == Present(it);
    }
    assert ce.value[0] == l;
    assert ce.value == [l];
    assert FilterSurvivors([l]) == [l];
    assert NormalizedLines([l]) == [NormalizeLine(l)];
    BlankTrimsToEmpty();
    assert !Kept(NormalizeLine(l));
  }

  lemma BlankTrimsToEmpty()
    ensures Trim(" ") == ""
  {
    TrimOfBlanks(" ");
  }
}
