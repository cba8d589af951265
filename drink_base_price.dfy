/** The base-price handlers: temperature names mapped to the keys `hot`, `cold` and
    `blend`, prices read as finite numbers, the per-drink price map built from the
    `drink_base_prices` rows, and the guards of the add and update requests. */
module DrinkBasePrice {
  import opened Js

  const HotNames: seq<string> := ["ร้อน", "hot", "HOT"]
  const ColdNames: seq<string> := ["เย็น", "cold", "COLD"]
  const BlendNames: seq<string> := ["ปั่น", "blend", "BLEND"]

  /** `tempKey`: null for a falsy temperature; otherwise the key of its trimmed text. */
  function TempKey(temperature: Value): Option<string> {
    if !Truthy(temperature) then None else Some(KeyOfText(Trim(ToStr(temperature))))
  }

  /** The three temperatures by their Thai or English names; any other text lower-cased. */
  function KeyOfText(t: string): string {
    if t in HotNames then "hot"
    else if t in ColdNames then "cold"
    else if t in BlendNames then "blend"
    else Lower(t)
  }

  /** Every truthy temperature gets a key: one of the three, or its own canonical form. */
  lemma TempKeyShape(temperature: Value)
    ensures TempKey(temperature).None? <==> !Truthy(temperature)
    ensures TempKey(temperature).Some? ==>
      var k := TempKey(temperature).value;
      k == "hot" || k == "cold" || k == "blend" || k == Canon(ToStr(temperature))
  {
    if Truthy(temperature) {
      var t := Trim(ToStr(temperature));
      KeyOfTextShape(t);
    }
  }

  lemma KeyOfTextShape(t: string)
    ensures var k := KeyOfText(t); k == "hot" || k == "cold" || k == "blend" || k == Lower(t)
  {
  }

  /** Surrounding white space does not change the key of a non-blank name. */
  lemma TempKeyIgnoresPadding(s: string)
    requires Trim(s) != ""
    ensures TempKey(Str(s)) == TempKey(Str(Trim(s)))
  {
    assert Trim(Trim(s)) == Trim(s);
  }

  /** A blank but non-empty name is truthy, and its key is the empty string. */
  lemma BlankTemperatureKey()
    ensures TempKey(Str(" ")) == Some("")
  {
    TrimOfBlanks(" ");
    assert KeyOfText("") == "";
  }

  /** A key is its own key: normalising twice changes nothing. */
  lemma TempKeyIdempotent(temperature: Value)
    requires TempKey(temperature).Some? && TempKey(temperature).value != ""
    ensures TempKey(Str(TempKey(temperature).value)) == TempKey(temperature)
  {
    var t := Trim(ToStr(temperature));
    var r := KeyOfText(t);
    KeyOfTextIdempotent(t);
    assert Trim(r) == r;
  }

  /** The key of trimmed text is trimmed and is its own key. */
  lemma KeyOfTextIdempotent(t: string)
    requires Trimmed(t)
    ensures Trimmed(KeyOfText(t)) && KeyOfText(KeyOfText(t)) == KeyOfText(t)
  {
    var r := KeyOfText(t);
    if t in HotNames || t in ColdNames || t in BlendNames {
      KeysAreOwnKeys();
    } else {
      assert r == Lower(t);
      LowerKeepsSpaces(t);
      LowerIdempotent(t);
      if r == "hot" || r == "cold" || r == "blend" {
        KeysAreOwnKeys();
      } else {
        LowerOfOtherName(t);
        assert KeyOfText(r) == Lower(r);
      }
    }
  }

  lemma KeysAreOwnKeys()
    ensures KeyOfText("hot") == "hot" && KeyOfText("cold") == "cold" && KeyOfText("blend") == "blend"
  {
    assert "hot" in HotNames;
    assert "cold" !in HotNames && "cold" in ColdNames;
    assert "blend" !in HotNames && "blend" !in ColdNames && "blend" in BlendNames;
  }

  /** Lower-casing a name that is not one of the listed names gives no listed name other
      than the three English keys: the Thai names have no letters to lower, and the
      capitalised names have capitals. */
  lemma LowerOfOtherName(t: string)
    requires t !in HotNames && t !in ColdNames && t !in BlendNames
    ensures var r := Lower(t);
      r in HotNames + ColdNames + BlendNames ==> r == "hot" || r == "cold" || r == "blend"
  {
    var r := Lower(t);
    LowerHasNoUpper(t);
    assert "HOT"[0] == 'H' && "COLD"[0] == 'C' && "BLEND"[0] == 'B';
    if r == "ร้อน" || r == "เย็น" || r == "ปั่น" {
      LowerOfLetterless(t, r);
    }
  }

  /** `toNumber`: `Number(n)` when finite, else null. */
  function FiniteOrNull(n: Value): (r: Option<int>)
    ensures r.None? <==> !ToNumber(n).Finite?
    ensures r.Some? ==> Num(Finite(r.value)) == Num(ToNumber(n))
  {
    var v := ToNumber(n);
    if v.Finite? then Some(v.x) else None
  }

  /** A null price reads as 0, which is finite, so it is stored. */
  lemma NullPriceIsZero()
    ensures FiniteOrNull(Null) == Some(0)
  {
  }

  // ---------------------------------------------------------------- the price map

  /** One `drink_base_prices` row as the query returns it. */
  datatype BaseRow = BaseRow(drinkId: Value, temperature: Value, basePrice: Value)

  /** A drink's entry: property name to value. */
  type Entry = map<string, Value>

  /** The entry a drink starts with: its name and the three prices unset. */
  function InitialEntry(id: string): Entry {
    map["name" := Str(id), "hot" := Null, "cold" := Null, "blend" := Null]
  }

  /** Row `r` stores a price under key `k` of drink `id`: its key is non-empty and its
      price finite. */
  predicate Stores(r: BaseRow, id: string, k: string) {
    && ToStr(r.drinkId) == id
    && TempKey(r.temperature) == Some(k) && k != ""
    && FiniteOrNull(r.basePrice).Some?
  }

  /** The price the LAST row storing into key `k` of drink `id` carries, scanning back. */
  function LastStored(rows: seq<BaseRow>, id: string, k: string): Option<int> {
    if rows == [] then None
    else if Stores(rows[|rows| - 1], id, k) then FiniteOrNull(rows[|rows| - 1].basePrice)
    else LastStored(rows[..|rows| - 1], id, k)
  }

  function Ids(rows: seq<BaseRow>): set<string> {
    set r | r in rows :: ToStr(r.drinkId)
  }

  /** Key `k` of drink `id` holds the last price stored into it, or else its initial value. */
  ghost predicate KeyAgrees(m: map<string, Entry>, rows: seq<BaseRow>, id: string, k: string)
    requires id in m
  {
    if LastStored(rows, id, k).Some? then k in m[id] && m[id][k] == Num(Finite(LastStored(rows, id, k).value))
    else (k in m[id] <==> k in InitialEntry(id)) && (k in m[id] ==> m[id][k] == InitialEntry(id)[k])
  }

  /** The map `m` agrees with the rows: one entry per distinct drink id, and every key
      of every entry as the rows left it. */
  ghost predicate Agrees(m: map<string, Entry>, rows: seq<BaseRow>) {
    && m.Keys == Ids(rows)
    && forall id, k :: id in m ==> KeyAgrees(m, rows, id, k)
  }

  /** getAllDrinkBasePrices: the map is filled one row at a time. */
  method PriceMap(rows: seq<BaseRow>) returns (m: map<string, Entry>)
    ensures Agrees(m, rows)
  {
    m := map[];
    for i := 0 to |rows|
      invariant Agrees(m, rows[..i])
    {
      ghost var before := m;
      m := ReadRow(m, rows[i]);
      StepAgrees(before, rows, i, m);
    }
    assert rows[..|rows|] == rows;
  }

  /** The loop body of getAllDrinkBasePrices for one row. */
  method ReadRow(m0: map<string, Entry>, r: BaseRow) returns (m: map<string, Entry>)
    ensures m == m0[ToStr(r.drinkId) := EntryAfter(m0, r)]
  {
    var id := ToStr(r.drinkId);
    var tk := TempKey(r.temperature);
    var price := FiniteOrNull(r.basePrice);
    // The entry is an object shared with the map: a new drink gets a fresh one, and
    // the price is written into it.
    var entry := if id in m0 then m0[id] else InitialEntry(id);
    if tk.Some? && tk.value != "" && price.Some? {
      entry := entry[tk.value := Num(Finite(price.value))];
    }
    m := m0[id := entry];
  }

  /** A price stored for a drink comes from one of its rows. */
  lemma {:induction false} LastStoredNamesRow(rows: seq<BaseRow>, id: string, k: string)
    ensures LastStored(rows, id, k).Some? ==> id in Ids(rows)
  {
    if rows != [] {
      var last := rows[|rows| - 1];
      assert last in rows;
      if !Stores(last, id, k) {
        var pre := rows[..|rows| - 1];
        LastStoredNamesRow(pre, id, k);
        if LastStored(rows, id, k).Some? {
          var r :| r in pre && ToStr(r.drinkId) == id;
          assert r in rows;
        }
      }
    }
  }

  /** The entry of row `r`'s drink after the row is read. */
  function EntryAfter(m0: map<string, Entry>, r: BaseRow): Entry {
    var id := ToStr(r.drinkId);
    var tk := TempKey(r.temperature);
    var price := FiniteOrNull(r.basePrice);
    var e := if id in m0 then m0[id] else InitialEntry(id);
    if tk.Some? && tk.value != "" && price.Some? then e[tk.value := Num(Finite(price.value))] else e
  }

  /** One pass of the loop body keeps the map in agreement with the rows read so far. */
  lemma StepAgrees(m0: map<string, Entry>, rows: seq<BaseRow>, i: nat, m: map<string, Entry>)
    requires i < |rows| && Agrees(m0, rows[..i])
    requires m == m0[ToStr(rows[i].drinkId) := EntryAfter(m0, rows[i])]
    ensures Agrees(m, rows[..i + 1])
  {
    var pre, cur := rows[..i], rows[..i + 1];
    IdsGrow(rows, i);
    forall id2, k | id2 in m
      ensures KeyAgrees(m, cur, id2, k)
    {
      if id2 in m0 {
        assert KeyAgrees(m0, pre, id2, k);
      }
      StepKey(m0, rows, i, m, id2, k);
    }
  }

  /** Reading one more row adds its drink id. */
  lemma IdsGrow(rows: seq<BaseRow>, i: nat)
    requires i < |rows|
    ensures Ids(rows[..i + 1]) == Ids(rows[..i]) + {ToStr(rows[i].drinkId)}
  {
    var pre, cur := rows[..i], rows[..i + 1];
    assert forall r :: r in cur <==> r in pre || r == rows[i];
  }

  /** The loop step, for one key of one drink. */
  lemma StepKey(m0: map<string, Entry>, rows: seq<BaseRow>, i: nat, m: map<string, Entry>, id2: string, k: string)
    requires i < |rows| && id2 in m
    requires m0.Keys == Ids(rows[..i])
    requires m == m0[ToStr(rows[i].drinkId) := EntryAfter(m0, rows[i])]
    requires id2 in m0 ==> KeyAgrees(m0, rows[..i], id2, k)
    ensures KeyAgrees(m, rows[..i + 1], id2, k)
  {
    var pre, cur := rows[..i], rows[..i + 1];
    assert cur[..i] == pre;
    assert cur[|cur| - 1] == rows[i];
    assert LastStored(cur, id2, k) ==
      if Stores(rows[i], id2, k) then FiniteOrNull(rows[i].basePrice) else LastStored(pre, id2, k);
    if id2 !in m0 {
      LastStoredNamesRow(pre, id2, k);
    }
  }

  // ---------------------------------------------------------------- add / update

  datatype Reply = Reply(code: nat, body: ReplyBody)
  datatype ReplyBody = Message(text: string) | Inserted(text: string, insertId: nat) | Error(message: string)

  const IncompleteText: string := "กรอกข้อมูลไม่ครบ"

  /** The fields the add and update requests require. */
  predicate Complete(drinkId: Value, temperature: Value, basePrice: Value) {
    Truthy(drinkId) && Truthy(temperature) && !Nullish(basePrice)
  }

  /** POST /drink-base-prices; `insert` is what the INSERT returns: the new id or an error. */
  function AddDrinkBasePrice(drinkId: Value, temperature: Value, basePrice: Value, insert: Result<nat, string>): (reply: Reply)
    ensures reply.code == 400 <==> !Complete(drinkId, temperature, basePrice)
    ensures reply.code == 400 ==> reply.body == Message(IncompleteText)
    ensures reply.code == 200 <==> Complete(drinkId, temperature, basePrice) && insert.Ok?
    ensures reply.code == 200 ==> reply.body.Inserted? && reply.body.insertId == insert.value
  {
    if !Complete(drinkId, temperature, basePrice) then Reply(400, Message(IncompleteText))
    else match insert
      case Ok(id) => Reply(200, Inserted("เพิ่มราคาฐานเรียบร้อย", id))
      case Err(e) => Reply(500, Error(e))
  }

  /** PUT /drink-base-prices/:drink_id/:temperature; `update` is the affected row count or an error. */
  function UpdateDrinkBasePrice(drinkId: Value, temperature: Value, basePrice: Value, update: Result<nat, string>): (reply: Reply)
    ensures reply.code == 400 <==> !Complete(drinkId, temperature, basePrice)
    ensures reply.code == 404 <==> Complete(drinkId, temperature, basePrice) && update == Ok(0)
    ensures reply.code == 200 <==> Complete(drinkId, temperature, basePrice) && update.Ok? && update.value > 0
  {
    if !Complete(drinkId, temperature, basePrice) then Reply(400, Message(IncompleteText))
    else match update
      case Ok(n) => if n == 0 then Reply(404, Message("ไม่พบรายการ")) else Reply(200, Message("อัปเดตราคาเรียบร้อย"))
      case Err(e) => Reply(500, Error(e))
  }
}
