/** The drink handlers: id and price normalisation of a `drinks` row, the price a
    temperature selects (with a fallback to the cheapest positive price), and the
    price lookup, update and delete requests with their status codes. */
module DrinkController {
  import opened Js
  import opened ColumnFallback

  /** The columns of a `drinks` row that the handlers read; an absent column is `Undefined`. */
  datatype DrinkRow = DrinkRow(
    itemId: Value, drinkId: Value, id: Value, menuId: Value, mId: Value,
    priceHot: Value, priceIced: Value, priceFrappe: Value)

  /** The id columns, in the order every lookup tries them. */
  const DrinkIdColumns: seq<string> := ["item_id", "drink_id", "id", "menu_id", "m_id"]

  // ---------------------------------------------------------------- normalisers

  function IdFields(row: DrinkRow): seq<Value> {
    [row.itemId, row.drinkId, row.id, row.menuId, row.mId]
  }

  /** `normalizeId`: the first id column that is neither null nor undefined, else null. */
  function NormalizeId(row: DrinkRow): Value {
    Coalesce(row.itemId, Coalesce(row.drinkId, Coalesce(row.id, Coalesce(row.menuId, Coalesce(row.mId, Null)))))
  }

  /** The id is the first present id column, and null when there is none. */
  lemma NormalizeIdFirstPresent(row: DrinkRow)
    ensures var r := NormalizeId(row); var ids := IdFields(row);
      && (Nullish(r) <==> forall i :: 0 <= i < 5 ==> Nullish(ids[i]))
      && (Nullish(r) ==> r == Null)
      && (!Nullish(r) ==> exists k :: 0 <= k < 5 && r == ids[k] && forall j :: 0 <= j < k ==> Nullish(ids[j]))
  {
    var ids := IdFields(row);
    var k := if !Nullish(ids[0]) then 0 else if !Nullish(ids[1]) then 1 else if !Nullish(ids[2]) then 2
             else if !Nullish(ids[3]) then 3 else 4;
    assert forall j :: 0 <= j < k ==> Nullish(ids[j]);
    if !Nullish(NormalizeId(row)) {
      assert NormalizeId(row) == ids[k];
    }
  }

  datatype Prices = Prices(hot: Option<Number>, iced: Option<Number>, frappe: Option<Number>)

  /** `normalizePrices`: each price column through `toNum`. */
  function NormalizePrices(row: DrinkRow): (p: Prices)
    ensures p.hot.None? <==> row.priceHot == Str("") || Nullish(row.priceHot)
    ensures p.iced.None? <==> row.priceIced == Str("") || Nullish(row.priceIced)
    ensures p.frappe.None? <==> row.priceFrappe == Str("") || Nullish(row.priceFrappe)
  {
    Prices(ToNumOrNull(row.priceHot), ToNumOrNull(row.priceIced), ToNumOrNull(row.priceFrappe))
  }

  function PriceList(p: Prices): seq<Option<Number>> {
    [p.hot, p.iced, p.frappe]
  }

  // ---------------------------------------------------------------- computePrice

  /** `n > 0` for a number: NaN compares false, +Infinity is greater than 0. */
  predicate Positive(n: Number) {
    (n.Finite? && n.x > 0) || n.Infinity?
  }

  /** `a <= b` between two positive numbers. */
  predicate NumLe(a: Number, b: Number)
    requires Positive(a) && Positive(b)
  {
    b.Infinity? || (a.Finite? && b.Finite? && a.x <= b.x)
  }

  /** The candidates of the fallback: the non-null prices greater than 0, in column order. */
  function Positives(opts: seq<Option<Number>>): (r: seq<Number>)
    ensures forall n :: n in r <==> Some(n) in opts && Positive(n)
  {
    if opts == [] then []
    else
      var rest := Positives(opts[1..]);
      assert forall o :: o in opts <==> o == opts[0] || o in opts[1..];
      if opts[0].Some? && Positive(opts[0].value) then [opts[0].value] + rest else rest
  }

  /** `Math.min(...cands)` over positive candidates: one of them, and below all of them. */
  function MinOf(cands: seq<Number>): (m: Number)
    requires cands != [] && forall n :: n in cands ==> Positive(n)
    ensures m in cands && Positive(m)
    ensures forall n :: n in cands ==> NumLe(m, n)
  {
    if |cands| == 1 then cands[0]
    else
      var rest := MinOf(cands[1..]);
      assert forall n :: n in cands <==> n == cands[0] || n in cands[1..];
      if NumLe(cands[0], rest) then cands[0] else rest
  }

  /** The names an object literal inherits from `Object.prototype`: looking one of them up
      in the temperature map yields a function (or the prototype), never null. */
  const InheritedNames: set<string> := {
    "constructor", "toString", "toLocaleString", "valueOf", "hasOwnProperty",
    "isPrototypeOf", "propertyIsEnumerable", "__proto__", "__defineGetter__",
    "__defineSetter__", "__lookupGetter__", "__lookupSetter__"}

  const Hot: string := "ร้อน"
  const Iced: string := "เย็น"
  const Frappe: string := "ปั่น"

  /** `map[temp]` on `{ "ร้อน": price_hot, "เย็น": price_iced, "ปั่น": price_frappe }`. */
  function TempLookup(p: Prices, t: string): Value {
    if t == Hot then OptNum(p.hot)
    else if t == Iced then OptNum(p.iced)
    else if t == Frappe then OptNum(p.frappe)
    else if t in InheritedNames then Obj
    else Undefined
  }

  /** `computePrice(row, temp)`, where `temp` is the query parameter or null. */
  function ComputePrice(row: DrinkRow, temp: Option<string>): Option<Number> {
    var p := NormalizePrices(row);
    var base := if temp.Some? && temp.value != "" then TempLookup(p, temp.value) else Null;
    if Nullish(base) then
      var cands := Positives([ToNumOrNull(OptNum(p.hot)), ToNumOrNull(OptNum(p.iced)), ToNumOrNull(OptNum(p.frappe))]);
      if cands == [] then None else Some(ToNumber(Num(MinOf(cands))))
    else Some(ToNumber(base))
  }

  /** The price a temperature names. */
  function Selected(p: Prices, t: string): Option<Number>
    requires t in {Hot, Iced, Frappe}
  {
    if t == Hot then p.hot else if t == Iced then p.iced else p.frappe
  }

  /** With ร้อน, เย็น or ปั่น and a non-null price in that column, the price is returned
      as stored, even when it is 0, negative or NaN. */
  lemma ComputePriceSelected(row: DrinkRow, t: string)
    requires t in {Hot, Iced, Frappe} && Selected(NormalizePrices(row), t).Some?
    ensures ComputePrice(row, Some(t)) == Selected(NormalizePrices(row), t)
  {
  }

  /** When the temperature selects nothing, the price is the smallest positive price, and
      null exactly when no price is positive. */
  lemma ComputePriceFallback(row: DrinkRow, temp: Option<string>)
    requires var p := NormalizePrices(row);
      || temp.None? || temp.value == ""
      || (temp.value in {Hot, Iced, Frappe} && Selected(p, temp.value).None?)
      || (temp.value !in {Hot, Iced, Frappe} && temp.value !in InheritedNames)
    ensures var p := NormalizePrices(row); var r := ComputePrice(row, temp);
      && (r.None? <==> forall j :: 0 <= j < 3 ==> PriceList(p)[j].None? || !Positive(PriceList(p)[j].value))
      && (r.Some? ==>
            && Positive(r.value)
            && Some(r.value) in PriceList(p)
            && forall j :: 0 <= j < 3 && PriceList(p)[j].Some? && Positive(PriceList(p)[j].value) ==>
                 NumLe(r.value, PriceList(p)[j].value))
  {
    var p := NormalizePrices(row);
    var opts := [ToNumOrNull(OptNum(p.hot)), ToNumOrNull(OptNum(p.iced)), ToNumOrNull(OptNum(p.frappe))];
    assert opts == PriceList(p);
    var cands := Positives(opts);
    if cands == [] {
      forall j | 0 <= j < 3 && PriceList(p)[j].Some?
        ensures !Positive(PriceList(p)[j].value)
      {
        assert PriceList(p)[j] in opts;
      }
    } else {
      var m := MinOf(cands);
      forall j | 0 <= j < 3 && PriceList(p)[j].Some? && Positive(PriceList(p)[j].value)
        ensures NumLe(m, PriceList(p)[j].value)
      {
        assert PriceList(p)[j] in opts;
        assert PriceList(p)[j].value in cands;
      }
    }
  }

  /** A temperature naming an inherited member of the map yields NaN, not the fallback. */
  lemma ComputePriceInherited(row: DrinkRow, t: string)
    requires t in InheritedNames
    ensures ComputePrice(row, Some(t)) == Some(NaN)
  {
    assert t != Hot && t != Iced && t != Frappe;
  }

  // ---------------------------------------------------------------- replies

  datatype ReplyBody =
    | PriceQuote(itemId: int, temp: Option<string>, price: Number)
    | Message(text: string)
    | Failure(text: string)
    | DbError(failure: DbFailure)

  datatype Reply = Reply(code: nat, body: ReplyBody)

  const BadIdText: string := "item_id ไม่ถูกต้อง"
  const NotFoundText: string := "ไม่พบเครื่องดื่ม"
  const NoFieldsText: string := "ไม่มีฟิลด์ให้อัปเดต"
  const UpdateMissingText: string := "ไม่พบเครื่องดื่มที่ต้องการแก้ไข"
  const UpdatedText: string := "อัปเดตเครื่องดื่มสำเร็จ"
  const DeleteMissingText: string := "ไม่พบเครื่องดื่มที่ต้องการลบ"
  const DeletedText: string := "ลบเครื่องดื่มสำเร็จ"

  function NoPriceText(temp: Option<string>): string {
    "ไม่มีราคา temp=" + (if temp.Some? && temp.value != "" then temp.value else "-")
  }

  /** The reply after an update or delete loop: 200 when rows were touched, 404 when the
      loop answered 0, and 500 with the error otherwise. */
  function FallbackReply(outcome: Result<nat, DbFailure>, done: string, missing: string): (reply: Reply)
    ensures reply.code == 200 <==> outcome.Ok? && outcome.value > 0
    ensures reply.code == 404 <==> outcome == Ok(0)
    ensures reply.code == 500 <==> outcome.Err?
  {
    match outcome
    case Ok(n) => if n == 0 then Reply(404, Failure(missing)) else Reply(200, Message(done))
    case Err(e) => Reply(500, DbError(e))
  }

  // ---------------------------------------------------------------- handlers

  /** GET /drinks/:item_id/price?temp=...; `probe` is what the drinks table answers to
      a lookup of this id on one column, `temp` the query parameter ("" when absent). */
  method GetDrinkPrice(idParam: string, temp: string, probe: string -> Attempt<Option<DrinkRow>>)
    returns (reply: Reply)
    ensures !StringToNumber(idParam).Finite? ==> reply == Reply(400, Failure(BadIdText))
    ensures StringToNumber(idParam).Finite? ==>
      var t := if temp == "" then None else Some(temp);
      match FirstRow(DrinkIdColumns, probe)
      case Err(e) => reply == Reply(500, DbError(e))
      case Ok(found) =>
        if found.None? then reply == Reply(404, Failure(NotFoundText))
        else if ComputePrice(found.value, t).None? then reply == Reply(400, Failure(NoPriceText(t)))
        else reply == Reply(200, PriceQuote(StringToNumber(idParam).x, t, ComputePrice(found.value, t).value))
  {
    var itemId := StringToNumber(idParam);
    var t: Option<string> := if temp == "" then None else Some(temp);
    if !itemId.Finite? {
      return Reply(400, Failure(BadIdText));
    }
    var found := FindByAnyColumn(DrinkIdColumns, probe);
    match found {
      case Err(e) =>
        reply := Reply(500, DbError(e));
      case Ok(row) =>
        if row.None? {
          return Reply(404, Failure(NotFoundText));
        }
        var price := ComputePrice(row.value, t);
        if price.None? {
          return Reply(400, Failure(NoPriceText(t)));
        }
        reply := Reply(200, PriceQuote(itemId.x, t, price.value));
    }
  }

  /** The body of PUT /drinks/:item_id; a key the client did not send is `Undefined`. */
  datatype DrinkPatch = DrinkPatch(
    name: Value, sweetness: Value, priceHot: Value, priceIced: Value, priceFrappe: Value,
    imagesData: Value, imageBase64: Value)

  /** Nothing the update could write was sent. */
  predicate NothingSupplied(b: DrinkPatch) {
    && b.name.Undefined? && b.sweetness.Undefined?
    && Nullish(b.priceHot) && Nullish(b.priceIced) && Nullish(b.priceFrappe)
    && b.imagesData.Undefined? && b.imageBase64.Undefined?
  }

  /** A column an update can SET. */
  datatype DrinkColumn = NameCol | SweetnessCol | PriceHotCol | PriceIcedCol | PriceFrappeCol | ImagesCol

  /** The SET clause of a column, as joined into the statement. */
  function Clause(c: DrinkColumn): string {
    match c
    case NameCol => "name=?"
    case SweetnessCol => "sweetness=?"
    case PriceHotCol => "price_hot=?"
    case PriceIcedCol => "price_iced=?"
    case PriceFrappeCol => "price_frappe=?"
    case ImagesCol => "images_data=?"
  }

  /** The parameter an update binds to one SET clause. A decoded image buffer is an
      opaque object. */
  function ParamFor(b: DrinkPatch, c: DrinkColumn): Value {
    match c
    case NameCol => b.name
    case SweetnessCol => Or(b.sweetness, Null)
    case PriceHotCol => OptNum(ToNumOrNull(b.priceHot))
    case PriceIcedCol => OptNum(ToNumOrNull(b.priceIced))
    case PriceFrappeCol => OptNum(ToNumOrNull(b.priceFrappe))
    case ImagesCol => if Truthy(if !b.imageBase64.Undefined? then b.imageBase64 else b.imagesData) then Obj else Null
  }

  /** Every SET clause is bound to its own parameter. */
  predicate ParamsFit(b: DrinkPatch, fields: seq<DrinkColumn>, values: seq<Value>) {
    |fields| == |values| && forall i :: 0 <= i < |fields| ==> values[i] == ParamFor(b, fields[i])
  }

  /** Two lists in step stay in step when joined. */
  lemma JoinFits(b: DrinkPatch, f1: seq<DrinkColumn>, v1: seq<Value>, f2: seq<DrinkColumn>, v2: seq<Value>)
    requires ParamsFit(b, f1, v1) && ParamsFit(b, f2, v2)
    ensures ParamsFit(b, f1 + f2, v1 + v2)
  {
    forall i | 0 <= i < |f1 + f2| ensures (v1 + v2)[i] == ParamFor(b, (f1 + f2)[i]) {
      if i >= |f1| {
        assert (f1 + f2)[i] == f2[i - |f1|] && (v1 + v2)[i] == v2[i - |f1|];
      }
    }
  }

  /** The clauses for `name` and `sweetness`, each pushed when the key was sent. */
  method TextSets(b: DrinkPatch) returns (fields: seq<DrinkColumn>, values: seq<Value>)
    ensures ParamsFit(b, fields, values)
    ensures forall c :: c in fields <==> (c == NameCol && !b.name.Undefined?) || (c == SweetnessCol && !b.sweetness.Undefined?)
  {
    fields, values := [], [];
    if !b.name.Undefined? {
      fields, values := fields + [NameCol], values + [b.name];
    }
    if !b.sweetness.Undefined? {
      fields, values := fields + [SweetnessCol], values + [Or(b.sweetness, Null)];
    }
  }

  /** The clauses for the three prices: a missing price defaults to null, and a null
      price is not written. */
  method PriceSets(b: DrinkPatch) returns (fields: seq<DrinkColumn>, values: seq<Value>)
    ensures ParamsFit(b, fields, values)
    ensures forall c :: c in fields <==>
      || (c == PriceHotCol && !Nullish(b.priceHot))
      || (c == PriceIcedCol && !Nullish(b.priceIced))
      || (c == PriceFrappeCol && !Nullish(b.priceFrappe))
  {
    fields, values := [], [];
    var hot := Coalesce(b.priceHot, Null);
    if hot != Null {
      fields, values := fields + [PriceHotCol], values + [OptNum(ToNumOrNull(hot))];
    }
    var iced := Coalesce(b.priceIced, Null);
    if iced != Null {
      fields, values := fields + [PriceIcedCol], values + [OptNum(ToNumOrNull(iced))];
    }
    var frappe := Coalesce(b.priceFrappe, Null);
    if frappe != Null {
      fields, values := fields + [PriceFrappeCol], values + [OptNum(ToNumOrNull(frappe))];
    }
  }

  /** The image clause, pushed when either image key was sent; `image_base64` wins, and an
      empty source clears the image. */
  method ImageSets(b: DrinkPatch) returns (fields: seq<DrinkColumn>, values: seq<Value>)
    ensures ParamsFit(b, fields, values)
    ensures forall c :: c in fields <==> c == ImagesCol && (!b.imagesData.Undefined? || !b.imageBase64.Undefined?)
  {
    fields, values := [], [];
    if !b.imagesData.Undefined? || !b.imageBase64.Undefined? {
      var src := if !b.imageBase64.Undefined? then b.imageBase64 else b.imagesData;
      var buf := if Truthy(src) then Obj else Null;
      fields, values := [ImagesCol], [buf];
    }
  }

  /** A SET clause is present for a column exactly when the body supplied that field. */
  predicate SuppliedColumns(b: DrinkPatch, fields: seq<DrinkColumn>) {
    && (NameCol in fields <==> !b.name.Undefined?)
    && (SweetnessCol in fields <==> !b.sweetness.Undefined?)
    && (PriceHotCol in fields <==> !Nullish(b.priceHot))
    && (PriceIcedCol in fields <==> !Nullish(b.priceIced))
    && (PriceFrappeCol in fields <==> !Nullish(b.priceFrappe))
    && (ImagesCol in fields <==> !b.imagesData.Undefined? || !b.imageBase64.Undefined?)
  }

  /** The SET clauses of an update and their parameters, pushed one supplied field at a time. */
  method DrinkSets(b: DrinkPatch) returns (fields: seq<DrinkColumn>, values: seq<Value>)
    ensures ParamsFit(b, fields, values)
    ensures fields == [] <==> NothingSupplied(b)
    ensures SuppliedColumns(b, fields)
  {
    var f1, v1 := TextSets(b);
    var f2, v2 := PriceSets(b);
    var f3, v3 := ImageSets(b);
    JoinFits(b, f1, v1, f2, v2);
    JoinFits(b, f1 + f2, v1 + v2, f3, v3);
    fields, values := f1 + f2 + f3, v1 + v2 + v3;
    assert forall c :: c in fields <==> c in f1 || c in f2 || c in f3;
    assert fields != [] ==> fields[0] in fields;
    if !NothingSupplied(b) {
      var c :=
        if !b.name.Undefined? then NameCol else if !b.sweetness.Undefined? then SweetnessCol
        else if !Nullish(b.priceHot) then PriceHotCol else if !Nullish(b.priceIced) then PriceIcedCol
        else if !Nullish(b.priceFrappe) then PriceFrappeCol else ImagesCol;
      assert c in fields;
    }
  }

  /** PUT /drinks/:item_id; `probe` is the number of rows the UPDATE touches per id column. */
  method UpdateDrink(idParam: string, b: DrinkPatch, probe: string -> Attempt<nat>)
    returns (reply: Reply, fields: seq<DrinkColumn>, values: seq<Value>)
    ensures !StringToNumber(idParam).Finite? ==> reply == Reply(400, Failure(BadIdText))
    ensures StringToNumber(idParam).Finite? && NothingSupplied(b) ==> reply == Reply(400, Failure(NoFieldsText))
    ensures StringToNumber(idParam).Finite? && !NothingSupplied(b) ==>
      && reply == FallbackReply(Affect(DrinkIdColumns, probe), UpdatedText, UpdateMissingText)
      && fields != [] && ParamsFit(b, fields, values) && SuppliedColumns(b, fields)
  {
    fields, values := [], [];
    var itemId := StringToNumber(idParam);
    if !itemId.Finite? {
      return Reply(400, Failure(BadIdText)), fields, values;
    }
    fields, values := DrinkSets(b);
    if |fields| == 0 {
      return Reply(400, Failure(NoFieldsText)), fields, values;
    }
    var outcome := AffectByAnyColumn(DrinkIdColumns, probe);
    reply := FallbackReply(outcome, UpdatedText, UpdateMissingText);
  }

  /** DELETE /drinks/:item_id; `probe` is the number of rows the DELETE removes per id column. */
  method DeleteDrink(idParam: string, probe: string -> Attempt<nat>) returns (reply: Reply)
    ensures !StringToNumber(idParam).Finite? ==> reply == Reply(400, Failure(BadIdText))
    ensures StringToNumber(idParam).Finite? ==>
      reply == FallbackReply(Affect(DrinkIdColumns, probe), DeletedText, DeleteMissingText)
  {
    var itemId := StringToNumber(idParam);
    if !itemId.Finite? {
      return Reply(400, Failure(BadIdText));
    }
    var outcome := AffectByAnyColumn(DrinkIdColumns, probe);
    reply := FallbackReply(outcome, DeletedText, DeleteMissingText);
  }

  /** An update or delete answers 404 only when all five id columns exist and none
      matched: if any id column is missing from the table, an id that matches nothing
      answers 500 with that column's error instead. */
  lemma NotFoundNeedsEveryIdColumn(probe: string -> Attempt<nat>, done: string, missing: string)
    ensures FallbackReply(Affect(DrinkIdColumns, probe), done, missing).code == 404
        <==> forall j :: 0 <= j < |DrinkIdColumns| ==> probe(DrinkIdColumns[j]) == Answered(0)
  {
    AffectNoMatch(DrinkIdColumns, probe);
  }

  /** With only `item_id` present and no row matching, the reply is the error of `m_id`,
      the last column tried. */
  lemma OnlyItemIdColumnUnmatched(probe: string -> Attempt<nat>)
    requires probe("item_id") == Answered(0)
    requires forall c :: c in DrinkIdColumns && c != "item_id" ==> probe(c) == UnknownColumn
    ensures FallbackReply(Affect(DrinkIdColumns, probe), UpdatedText, UpdateMissingText)
         == Reply(500, DbError(UnknownColumnError("m_id")))
  {
    var cols := DrinkIdColumns;
    assert cols[0] == "item_id";
    forall j | 1 <= j < 5 ensures probe(cols[j]) == UnknownColumn {
      assert cols[j] in cols && cols[j] != "item_id";
    }
    AffectRethrowsLast(cols, probe, 4, None);
  }
}
