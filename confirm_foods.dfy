/** The main-dish confirmation page: cart lines read back from the session or the
    navigation state, the selection and its total, the order posted to the server, and
    the merge of the confirmed lines into the stored full cart. */
module ConfirmFoods {
  import opened Js
  import Orders
  import OrderController

  const Placeholder: string := "/images/foods/placeholder.jpg"

  /** `toNum`: `Number(v)` when finite, else 0; the server's `toNum(v, 0)`. */
  function ToNum(v: Value): (r: int)
    ensures r == OrderController.ToNum(v, 0)
  {
    NumberOrZero(ToNumber(v))
  }

  // ---------------------------------------------------------------- coerceItem

  /** A stored or passed cart entry: `null` or `undefined`, another value that is not an
      object (a number, a string or a boolean), or an object with the fields the page reads
      (an absent field is `Undefined`; an array is an object none of whose fields is set). */
  datatype Raw =
    | Nullish
    | Primitive
    | Record(id: Value, foodId: Value, itemId: Value, mainId: Value, name: Value,
             price: Value, unitPrice: Value, foodPrice: Value, qty: Value,
             img: Value, image: Value, imageUrl: Value, itemNote: Value, note: Value)

  datatype CartLine = CartLine(id: string, name: string, img: string, price: int, qty: int, itemNote: string)

  /** The id of an entry: the first non-empty string among id, food_id, item_id and
      main_id; else "name:" and the name when the name is truthy; else "". */
  function IdOf(raw: Raw): string
    requires raw.Record?
  {
    var a := AsStr(raw.id, "");
    if a != "" then a
    else
      var b := AsStr(raw.foodId, "");
      if b != "" then b
      else
        var c := AsStr(raw.itemId, "");
        if c != "" then c
        else
          var d := AsStr(raw.mainId, "");
          if d != "" then d
          else if Truthy(raw.name) then "name:" + AsStr(raw.name, "") else ""
  }

  /** A line worth keeping: an id, a trimmed non-empty name, an image and a positive quantity. */
  predicate Valid(l: CartLine) {
    l.id != "" && l.name != "" && Trimmed(l.name) && l.img != "" && l.qty > 0
  }

  /** `coerceItem`: an entry as a cart line, or null. */
  function CoerceItem(raw: Raw): (r: Option<CartLine>)
    ensures r.Some? <==> raw.Record? && IdOf(raw) != "" && Trim(AsStr(raw.name, "")) != "" && ToNum(raw.qty) > 0
    ensures r.Some? ==> Valid(r.value) && r.value.id == IdOf(raw)
  {
    if !raw.Record? then None
    else
      var id := IdOf(raw);
      var name := Trim(AsStr(raw.name, ""));
      var price := ToNum(Coalesce(raw.price, Coalesce(raw.unitPrice, raw.foodPrice)));
      var qty := ToNum(raw.qty);
      var img := AsStr(Or(raw.img, Or(raw.image, Or(raw.imageUrl, Str(Placeholder)))), Placeholder);
      var itemNote := AsStr(Or(raw.itemNote, raw.note), "");
      if id == "" || name == "" || qty <= 0 then None
      else Some(CartLine(id, name, img, price, qty, itemNote))
  }

  /** A named entry with a positive quantity is always kept: without any id field its
      id falls back to "name:" and the name. */
  lemma NamedItemsAreKept(raw: Raw)
    requires raw.Record? && raw.name.Str? && Trim(raw.name.s) != "" && ToNum(raw.qty) > 0
    ensures CoerceItem(raw).Some?
    ensures (AsStr(raw.id, "") == "" && AsStr(raw.foodId, "") == "" && AsStr(raw.itemId, "") == ""
             && AsStr(raw.mainId, "") == "") ==> CoerceItem(raw).value.id == "name:" + raw.name.s
  {
    assert raw.name.s != "";
  }

  /** A confirmed line as the page saves it under the selection key (`food_id` repeats the id). */
  function Saved(l: CartLine): Raw {
    Record(Str(l.id), Str(l.id), Undefined, Undefined, Str(l.name), Num(Finite(l.price)), Undefined, Undefined,
           Num(Finite(l.qty)), Str(l.img), Undefined, Undefined, Str(l.itemNote), Undefined)
  }

  /** Saving a line and reading it back gives the same line. */
  lemma SavedRoundTrip(l: CartLine)
    requires Valid(l)
    ensures CoerceItem(Saved(l)) == Some(l)
  {
    var raw := Saved(l);
    assert Trim(AsStr(raw.name, "")) == l.name;
  }

  /** The entries that survive `coerceItem`, in order. */
  function CoerceAll(raws: seq<Raw>): (r: seq<CartLine>)
    ensures |r| <= |raws|
    ensures forall l :: l in r ==> Valid(l)
  {
    if raws == [] then []
    else
      var rest := CoerceAll(raws[1..]);
      match CoerceItem(raws[0])
      case Some(l) => [l] + rest
      case None => rest
  }

  // ---------------------------------------------------------------- safeParse

  /** What `JSON.parse` made of the stored text: an array of entries, or something else. */
  datatype Json = JArray(elems: seq<Raw>) | JOther

  /** `safeParse`: the parsed array, or [] for a missing or non-string text, text that does
      not parse (`parsed` is None) or a value that is not an array. */
  function SafeParse(text: Value, parsed: Option<Json>): (r: seq<Raw>)
    ensures !Truthy(text) || !text.Str? || parsed.None? ==> r == []
    ensures r != [] ==> parsed == Some(JArray(r))
    ensures text.Str? && text.s != "" && parsed.Some? && parsed.value.JArray? ==> r == parsed.value.elems
  {
    if !Truthy(text) || !text.Str? then []
    else
      match parsed
      case Some(JArray(xs)) => xs
      case _ => []
  }

  // ---------------------------------------------------------------- initial load

  /** `{ ...it, qty: toNum(it.qty) }`: reading `qty` of `null` or `undefined` throws; any
      other non-object spreads to an object without the fields the page reads. */
  function WithNumericQty(raw: Raw): Option<Raw> {
    match raw
    case Nullish => None
    case Primitive => Some(Record(Undefined, Undefined, Undefined, Undefined, Undefined, Undefined, Undefined,
                                  Undefined, Num(Finite(0)), Undefined, Undefined, Undefined, Undefined, Undefined))
    case Record(_, _, _, _, _, _, _, _, _, _, _, _, _, _) => Some(raw.(qty := Num(Finite(ToNum(raw.qty)))))
  }

  /** The full cart's pre-pass: quantities made numeric, then lines without a positive one
      dropped; None when the `map` throws on a nullish entry. */
  function PositiveOnly(raws: seq<Raw>): Option<seq<Raw>> {
    if raws == [] then Some([])
    else
      match (WithNumericQty(raws[0]), PositiveOnly(raws[1..]))
      case (Some(w), Some(rest)) => Some((if ToNum(w.qty) > 0 then [w] else []) + rest)
      case _ => None
  }

  /** The full cart's pre-pass throws exactly when an entry is `null` or `undefined`. */
  lemma {:induction false} PrePassThrows(raws: seq<Raw>)
    ensures PositiveOnly(raws).None? <==> exists i :: 0 <= i < |raws| && raws[i].Nullish?
  {
    if raws != [] {
      PrePassThrows(raws[1..]);
      if PositiveOnly(raws[1..]).None? {
        var i :| 0 <= i < |raws[1..]| && raws[1..][i].Nullish?;
        assert raws[i + 1].Nullish?;
      } else if !raws[0].Nullish? {
        forall i | 1 <= i < |raws|
          ensures !raws[i].Nullish?
        {
          assert raws[i] == raws[1..][i - 1];
        }
      }
    }
  }

  /** Making one entry's quantity numeric changes nothing `coerceItem` reads, and an entry
      it drops for a non-positive quantity `coerceItem` drops as well. */
  lemma NumericQtyKeepsLine(raw: Raw)
    requires !raw.Nullish?
    ensures CoerceItem(WithNumericQty(raw).value) == CoerceItem(raw)
    ensures ToNum(WithNumericQty(raw).value.qty) <= 0 ==> CoerceItem(raw).None?
  {
  }

  /** The full cart's pre-pass throws exactly when an entry is `null` or `undefined`, and
      otherwise changes nothing `coerceItem` would keep. */
  lemma {:induction false} PrePassChangesNothing(raws: seq<Raw>)
    ensures PositiveOnly(raws).None? <==> exists i :: 0 <= i < |raws| && raws[i].Nullish?
    ensures PositiveOnly(raws).Some? ==> CoerceAll(PositiveOnly(raws).value) == CoerceAll(raws)
  {
    PrePassThrows(raws);
    if raws != [] && PositiveOnly(raws).Some? {
      PrePassChangesNothing(raws[1..]);
      var w := WithNumericQty(raws[0]).value;
      var rest := PositiveOnly(raws[1..]).value;
      NumericQtyKeepsLine(raws[0]);
      if ToNum(w.qty) > 0 {
        assert PositiveOnly(raws).value == [w] + rest;
        assert ([w] + rest)[1..] == rest;
      } else {
        assert PositiveOnly(raws).value == rest;
      }
    }
  }

  /** The lines the page starts with: the navigation state when it has entries, else the
      saved selection when anything of it survives, else the full cart's positive lines;
      [] when the full cart's pre-pass throws. */
  function InitialItems(nav: Option<seq<Raw>>, selection: seq<Raw>, full: seq<Raw>): (r: seq<CartLine>)
    ensures forall l :: l in r ==> Valid(l)
    ensures nav.Some? && |nav.value| > 0 ==> r == CoerceAll(nav.value)
    ensures (nav.None? || nav.value == []) && CoerceAll(selection) != [] ==> r == CoerceAll(selection)
    ensures (nav.None? || nav.value == []) && CoerceAll(selection) == [] ==>
      r == (if exists i :: 0 <= i < |full| && full[i].Nullish? then [] else CoerceAll(full))
  {
    if nav.Some? && |nav.value| > 0 then CoerceAll(nav.value)
    else
      var sel := CoerceAll(selection);
      if |sel| > 0 then sel
      else
        PrePassChangesNothing(full);
        match PositiveOnly(full)
        case Some(kept) => CoerceAll(kept)
        case None => []
  }

  // ---------------------------------------------------------------- selection and total

  /** `selected`: the lines with a positive quantity. */
  function Selected(items: seq<CartLine>): (r: seq<CartLine>)
    ensures forall l :: l in r <==> l in items && l.qty > 0
  {
    if items == [] then []
    else (if items[0].qty > 0 then [items[0]] else []) + Selected(items[1..])
  }

  /** Σ qty × price. */
  function Total(lines: seq<CartLine>): int {
    if lines == [] then 0 else lines[0].qty * lines[0].price + Total(lines[1..])
  }

  /** Every line the page holds is selected: `coerceItem` already dropped the others. */
  lemma {:induction false} ValidAllSelected(items: seq<CartLine>)
    requires forall l :: l in items ==> Valid(l)
    ensures Selected(items) == items
  {
    if items != [] {
      assert items[0] in items;
      ValidAllSelected(items[1..]);
      assert [items[0]] + items[1..] == items;
    }
  }

  /** The total of two carts put together is the sum of their totals. */
  lemma {:induction false} TotalAppend(a: seq<CartLine>, b: seq<CartLine>)
    ensures Total(a + b) == Total(a) + Total(b)
  {
    if a == [] {
      assert a + b == b;
    } else {
      assert (a + b)[1..] == a[1..] + b;
      TotalAppend(a[1..], b);
    }
  }

  /** `removeOne`: the lines with another id. */
  function RemoveOne(items: seq<CartLine>, id: string): seq<CartLine> {
    if items == [] then []
    else (if items[0].id != id then [items[0]] else []) + RemoveOne(items[1..], id)
  }

  /** The lines with this id. */
  function LinesOf(items: seq<CartLine>, id: string): seq<CartLine> {
    if items == [] then []
    else (if items[0].id == id then [items[0]] else []) + LinesOf(items[1..], id)
  }

  /** Removing an item lowers the total by exactly that item's lines. */
  lemma {:induction false} RemoveOneTotal(items: seq<CartLine>, id: string)
    ensures Total(items) == Total(RemoveOne(items, id)) + Total(LinesOf(items, id))
    ensures forall l :: l in RemoveOne(items, id) ==> l.id != id
  {
    if items != [] {
      RemoveOneTotal(items[1..], id);
      var h := items[0];
      TotalAppend(if h.id != id then [h] else [], RemoveOne(items[1..], id));
      TotalAppend(if h.id == id then [h] else [], LinesOf(items[1..], id));
    }
  }

  // ---------------------------------------------------------------- handleConfirm

  /** The payment method label the page posts for the chosen option. */
  function PaymentLabel(choice: string): (r: string)
    ensures r == "cash" <==> choice == "เงินสด"
    ensures r == "promptpay" <==> choice == "พร้อมเพย์"
    ensures r == "cash" || r == "promptpay" || r == "unknown"
  {
    if choice == "เงินสด" then "cash" else if choice == "พร้อมเพย์" then "promptpay" else "unknown"
  }

  /** The server lower-cases the label and starts a cash order paid and any other one
      pending. */
  lemma PaymentStartsOrder(choice: string)
    ensures Lower(PaymentLabel(choice)) == PaymentLabel(choice)
    ensures Orders.InitialStatus(Lower(PaymentLabel(choice))) ==
              (if choice == "เงินสด" then Orders.Paid else Orders.Pending)
  {
    var r := PaymentLabel(choice);
    assert NoUpper(r);
    LowerOfNoUpper(r);
  }

  datatype PostLine = PostLine(itemType: string, refId: string, name: string, price: int, qty: int, itemNote: string)

  datatype PostBody = PostBody(tableNumber: Value, tableLabel: string, paymentMethod: string, orderNote: string,
                               amount: int, items: seq<PostLine>)

  /** `{ item_type: "main_dish", ref_id, name, price, qty, itemNote }` of a selected line. */
  function PostLineOf(l: CartLine): PostLine {
    PostLine("main_dish", l.id, l.name, l.price, l.qty, l.itemNote)
  }

  function PostLines(lines: seq<CartLine>): (r: seq<PostLine>)
    ensures |r| == |lines|
    ensures forall i :: 0 <= i < |lines| ==> r[i] == PostLineOf(lines[i])
  {
    seq(|lines|, i requires 0 <= i < |lines| => PostLineOf(lines[i]))
  }

  /** `handleConfirm`: nothing is posted for an empty selection; otherwise the selection
      is posted as main dishes with its total as the amount. */
  function HandleConfirm(items: seq<CartLine>, choice: string, table: string, note: string): (r: Option<PostBody>)
    ensures r.None? <==> Selected(items) == []
    ensures r.Some? ==> r.value.amount == Total(Selected(items)) && r.value.items == PostLines(Selected(items))
    ensures r.Some? ==> r.value.tableNumber == Null && r.value.orderNote == note
    ensures r.Some? ==> r.value.paymentMethod == PaymentLabel(choice)
    ensures r.Some? ==> r.value.tableLabel == (if table == "" then "unknown" else table)
  {
    var selected := Selected(items);
    if selected == [] then None
    else Some(PostBody(Null, if table == "" then "unknown" else table, PaymentLabel(choice), note,
                       Total(selected), PostLines(selected)))
  }

  /** A posted line as the server's request body holds it. */
  function AsEntry(p: PostLine): OrderController.RawEntry {
    OrderController.Present(OrderController.RawItem(Str(p.itemType), Str(p.refId), Str(p.name),
      Num(Finite(p.price)), Num(Finite(p.qty)), Str(p.itemNote)))
  }

  lemma {:induction false} AllSurvive(lines: seq<Orders.LineInput>)
    requires forall l :: l in lines ==> OrderController.Survives(l)
    ensures OrderController.FilterSurvivors(lines) == lines
  {
    if lines != [] {
      assert lines[0] in lines;
      assert forall l :: l in lines[1..] ==> l in lines;
      AllSurvive(lines[1..]);
      assert [lines[0]] + lines[1..] == lines;
    }
  }

  /** One posted line as the server coerces it: same id, quantity and price, and it
      passes the server's filter. */
  lemma LineReachesStore(l: CartLine)
    requires Valid(l)
    ensures var c := OrderController.CoerceItem(AsEntry(PostLineOf(l)).fields);
      c.refId == Some(l.id) && c.qty == l.qty && c.price == l.price && OrderController.Survives(c)
  {
    var e := AsEntry(PostLineOf(l)).fields;
    assert e.refId == Str(l.id) && e.qty == Num(Finite(l.qty)) && e.price == Num(Finite(l.price));
    assert ToStr(Str(l.id)) == l.id;
    assert OrderController.ToNum(Num(Finite(l.qty)), 0) == l.qty && OrderController.ToNum(Num(Finite(l.price)), 0) == l.price;
  }

  /** The posted lines as the server's request body holds them. */
  function Entries(lines: seq<CartLine>): (r: seq<OrderController.RawEntry>)
    ensures |r| == |lines| && forall i :: 0 <= i < |lines| ==> r[i] == AsEntry(PostLineOf(lines[i]))
  {
    seq(|lines|, i requires 0 <= i < |lines| => AsEntry(PostLineOf(lines[i])))
  }

  /** Every line the page posts passes the server's filter with its id, quantity and price.
      createFull then trims the ids: it keeps no line (and the order is answered 500
      NO_ITEMS) exactly when every id is blank, and keeps every line when the ids are
      already trimmed. */
  lemma PostedLinesReachStore(lines: seq<CartLine>)
    requires forall l :: l in lines ==> Valid(l)
    ensures var kept := OrderController.PrepareItems(Some(Entries(lines)));
      && kept.Some? && |kept.value| == |lines|
      && (forall i :: 0 <= i < |lines| ==>
           kept.value[i].refId == Some(lines[i].id) && kept.value[i].qty == lines[i].qty
           && kept.value[i].price == lines[i].price)
      && (Orders.KeptLines(kept.value) == [] <==> forall i :: 0 <= i < |lines| ==> Trim(lines[i].id) == "")
      && ((forall i :: 0 <= i < |lines| ==> Trimmed(lines[i].id)) ==> |Orders.KeptLines(kept.value)| == |lines|)
  {
    var entries := Entries(lines);
    var coerced := OrderController.CoerceEntries(entries);
    assert coerced.Some?;
    forall i | 0 <= i < |lines|
      ensures coerced.value[i].refId == Some(lines[i].id) && coerced.value[i].qty == lines[i].qty
              && coerced.value[i].price == lines[i].price
      ensures OrderController.Survives(coerced.value[i])
    {
      assert lines[i] in lines;
      LineReachesStore(lines[i]);
    }
    AllSurvive(coerced.value);
    OrderController.StoreKeepsNonBlank(coerced.value);
  }

  // ---------------------------------------------------------------- persisting the cart

  /** A stored cart entry as a JavaScript object. */
  type Object = map<string, Value>

  function Field(o: Object, k: string): Value {
    if k in o then o[k] else Undefined
  }

  /** `asStr(f.id ?? f.food_id ?? "")`: the key a stored entry is filed under. */
  function EntryKey(f: Object): string {
    AsStr(Coalesce(Field(f, "id"), Coalesce(Field(f, "food_id"), Str(""))), "")
  }

  /** `Object.fromEntries(...)` over the entries with a non-empty key; a later entry with
      the same key replaces an earlier one. */
  function ById(full: seq<Object>): map<string, Object> {
    if full == [] then map[]
    else
      var m := ById(full[..|full| - 1]);
      var f := full[|full| - 1];
      if EntryKey(f) != "" then m[EntryKey(f) := f] else m
  }

  /** The fields a confirmed line writes over its stored entry. */
  function LineObject(it: CartLine): Object {
    map["id" := Str(it.id), "name" := Str(it.name), "img" := Str(if it.img != "" then it.img else Placeholder),
        "price" := Num(Finite(it.price)), "qty" := Num(Finite(it.qty)), "itemNote" := Str(it.itemNote)]
  }

  /** One step of the loop: the stored entry (or `{}`) with the line's fields over it. */
  function Put(byId: map<string, Object>, it: CartLine): map<string, Object> {
    if it.id == "" then byId
    else byId[it.id := (if it.id in byId then byId[it.id] else map[]) + LineObject(it)]
  }

  /** The stored cart after every confirmed line has been written over it, in order. */
  function Merge(byId: map<string, Object>, items: seq<CartLine>): map<string, Object> {
    if items == [] then byId else Put(Merge(byId, items[..|items| - 1]), items[|items| - 1])
  }

  /** The persist effect's loop over the confirmed lines. */
  method PersistCart(full: seq<Object>, items: seq<CartLine>) returns (byId: map<string, Object>)
    ensures byId == Merge(ById(full), items)
  {
    byId := ById(full);
    for i := 0 to |items|
      invariant byId == Merge(ById(full), items[..i])
    {
      var it := items[i];
      var key := it.id;
      if key != "" {
        var prev := if key in byId then byId[key] else map[];
        byId := byId[key := prev + LineObject(it)];
      }
      assert items[..i + 1][..i] == items[..i];
    }
    assert items[..|items|] == items;
  }

  /** The merged cart holds exactly the stored keys and the confirmed lines' ids. */
  lemma {:induction false} MergeKeys(byId: map<string, Object>, items: seq<CartLine>, k: string)
    ensures k in Merge(byId, items) <==> k in byId || exists i :: 0 <= i < |items| && items[i].id == k && k != ""
  {
    if items != [] {
      var pre := items[..|items| - 1];
      MergeKeys(byId, pre, k);
      if exists i :: 0 <= i < |pre| && pre[i].id == k && k != "" {
        var i :| 0 <= i < |pre| && pre[i].id == k && k != "";
        assert items[i] == pre[i];
      }
      if exists i :: 0 <= i < |items| && items[i].id == k && k != "" {
        var i :| 0 <= i < |items| && items[i].id == k && k != "";
        if i < |pre| {
          assert pre[i] == items[i];
        }
      }
    }
  }

  /** A stored entry that no confirmed line names is left as it was. */
  lemma {:induction false} MergeKeepsOthers(byId: map<string, Object>, items: seq<CartLine>, k: string)
    requires k in byId && forall i :: 0 <= i < |items| ==> items[i].id != k
    ensures k in Merge(byId, items) && Merge(byId, items)[k] == byId[k]
  {
    if items != [] {
      MergeKeepsOthers(byId, items[..|items| - 1], k);
    }
  }

  /** The entry of a confirmed line carries the fields of the last line with that id,
      and keeps any other field its stored entry had. */
  lemma {:induction false} MergeLastWins(byId: map<string, Object>, items: seq<CartLine>, i: nat)
    requires i < |items| && items[i].id != ""
    requires forall j :: i < j < |items| ==> items[j].id != items[i].id
    ensures var k := items[i].id; var m := Merge(byId, items);
      && k in m
      && (forall f :: f in LineObject(items[i]) ==> f in m[k] && m[k][f] == LineObject(items[i])[f])
      && (k in byId ==> forall f :: f in byId[k] && f !in LineObject(items[i]) ==> f in m[k] && m[k][f] == byId[k][f])
  {
    var k := items[i].id;
    var pre := items[..|items| - 1];
    if i == |items| - 1 {
      var before := Merge(byId, pre);
      if k in byId {
        KeepsExtraFields(byId, pre, k, LineObject(items[i]));
      }
    } else {
      MergeLastWins(byId, pre, i);
    }
  }

  /** Fields outside a line's own survive every write of that id. */
  lemma {:induction false} KeepsExtraFields(byId: map<string, Object>, items: seq<CartLine>, k: string, line: Object)
    requires k in byId
    requires forall j :: 0 <= j < |items| && items[j].id == k ==> LineObject(items[j]).Keys == line.Keys
    ensures k in Merge(byId, items)
    ensures forall f :: f in byId[k] && f !in line ==> f in Merge(byId, items)[k] && Merge(byId, items)[k][f] == byId[k][f]
  {
    if items != [] {
      var pre := items[..|items| - 1];
      KeepsExtraFields(byId, pre, k, line);
    }
  }
}
