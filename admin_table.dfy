/** The admin table page: the tables the server lists, normalised to two statuses and a
    zone, ordered by number, narrowed by zone, search text and status filter, and counted. */
module AdminTable {
  import opened Js
  import TableModel
  import TableLabels

  /** The two statuses the page keeps. */
  const Free: string := TableModel.Free
  const Busy: string := TableModel.InUse

  /** A row of the server's table list, as far as the page reads it. */
  datatype ServerTable = ServerTable(tableId: Value, tableNumber: Value, status: Value, zone: Value)

  /** A table as the page shows it. */
  datatype TableView = TableView(id: Value, number: string, status: string, zone: string)

  /** `String(t.status || "").trim()` is "ว่าง" gives ว่าง; anything else, the server's
      "จองแล้ว" included, is กำลังใช้งาน. */
  function NormalizeStatus(status: Value): (r: string)
    ensures r == Free || r == Busy
    ensures r == Free <==> Trim(ToStr(Or(status, Str("")))) == Free
  {
    if Trim(ToStr(Or(status, Str("")))) == Free then Free else Busy
  }

  /** The server's three table statuses come out as the page's two. */
  lemma ServerStatusesNormalized()
    ensures NormalizeStatus(Str(TableModel.Free)) == Free
    ensures NormalizeStatus(Str(TableModel.Reserved)) == Busy
    ensures NormalizeStatus(Str(TableModel.InUse)) == Busy
    ensures NormalizeStatus(Null) == Busy
  {
    assert Trimmed(TableModel.Free) && Trimmed(TableModel.Reserved) && Trimmed(TableModel.InUse);
  }

  /** Normalising a normalised status changes nothing. */
  lemma NormalizeStatusIdempotent(status: Value)
    ensures NormalizeStatus(Str(NormalizeStatus(status))) == NormalizeStatus(status)
  {
    assert Trimmed(Free) && Trimmed(Busy);
  }

  /** The zone a table is shown in: the server's zone, trimmed, when it has one, else the
      zone its table number suggests. */
  function ZoneOf(t: ServerTable): (r: string)
    ensures t.zone.Str? && Trim(t.zone.s) != "" ==> r == Trim(t.zone.s)
    ensures !(t.zone.Str? && Trim(t.zone.s) != "") ==>
      r == TableLabels.DeriveZone(ToStr(Or(t.tableNumber, Str(""))), TableModel.Inside, TableModel.Outside)
    ensures r != "" && Trimmed(r)
  {
    if t.zone.Str? && Trim(t.zone.s) != "" then Trim(t.zone.s)
    else
      assert Trimmed(TableModel.Inside) && Trimmed(TableModel.Outside);
      TableLabels.DeriveZone(ToStr(Or(t.tableNumber, Str(""))), TableModel.Inside, TableModel.Outside)
  }

  /** A table without a number and without a zone is placed inside. */
  lemma UnnumberedTableInside(t: ServerTable)
    requires !Truthy(t.tableNumber) && !Truthy(t.zone)
    ensures ZoneOf(t) == TableModel.Inside
  {
    TableLabels.DeriveZoneWithoutDigits("", TableModel.Inside, TableModel.Outside);
  }

  /** The row as the page keeps it: `number` is the table number, or "T" and the id. */
  function Normalize(t: ServerTable): (r: TableView)
    ensures r.id == t.tableId
    ensures r.number == if Truthy(t.tableNumber) then ToStr(t.tableNumber) else "T" + ToStr(t.tableId)
    ensures r.status == NormalizeStatus(t.status) && r.zone == ZoneOf(t)
  {
    TableView(t.tableId,
      if Truthy(t.tableNumber) then ToStr(t.tableNumber) else "T" + ToStr(t.tableId),
      NormalizeStatus(t.status), ZoneOf(t))
  }

  function NormalizeAll(ts: seq<ServerTable>): (r: seq<TableView>)
    ensures |r| == |ts| && forall i :: 0 <= i < |ts| ==> r[i] == Normalize(ts[i])
  {
    if ts == [] then [] else [Normalize(ts[0])] + NormalizeAll(ts[1..])
  }

  /** Every table the page keeps has one of the two statuses and a non-empty trimmed zone. */
  predicate WellFormed(v: TableView) {
    (v.status == Free || v.status == Busy) && v.zone != "" && Trimmed(v.zone)
  }

  function NumberKey(v: TableView): int {
    TableLabels.SortKey(v.number)
  }

  /** The table list the page holds: the rows normalised and sorted by first number. */
  function Ordered(ts: seq<ServerTable>): seq<TableView> {
    TableLabels.SortBy(NormalizeAll(ts), NumberKey)
  }

  /** The held list is the normalised rows, each well formed, ascending by first number. */
  lemma OrderedSpec(ts: seq<ServerTable>)
    ensures multiset(Ordered(ts)) == multiset(NormalizeAll(ts))
    ensures TableLabels.SortedBy(Ordered(ts), NumberKey)
    ensures forall v :: v in Ordered(ts) ==> WellFormed(v)
  {
    TableLabels.SortBySpec(NormalizeAll(ts), NumberKey);
    forall v | v in Ordered(ts) ensures WellFormed(v) {
      assert v in multiset(NormalizeAll(ts));
    }
  }

  // ---------------------------------------------------------------- filters and counts

  predicate OccursAt(s: string, q: string, i: int) {
    0 <= i && i + |q| <= |s| && s[i..i + |q|] == q
  }

  /** `includes` */
  predicate Contains(s: string, q: string) {
    exists i :: 0 <= i <= |s| && OccursAt(s, q, i)
  }

  /** The status filter: "all", "free" or "busy"; anything else shows nothing. */
  predicate MatchStatus(filter: string, v: TableView) {
    || filter == "all"
    || (filter == "free" && v.status == Free)
    || (filter == "busy" && v.status == Busy)
  }

  /** The search text, trimmed and lower-cased, is empty or part of the lower-cased number. */
  predicate MatchText(query: string, v: TableView) {
    var q := Canon(query);
    q == "" || Contains(Lower(v.number), q)
  }

  /** Searching for a table's number, in any case and with spaces around, finds it. */
  lemma SearchFindsOwnNumber(query: string, v: TableView)
    requires Canon(query) == Lower(v.number)
    ensures MatchText(query, v)
  {
    assert Lower(v.number)[0..|Lower(v.number)|] == Lower(v.number);
    assert OccursAt(Lower(v.number), Canon(query), 0);
  }

  predicate Shown(zone: string, query: string, filter: string, v: TableView) {
    Trim(v.zone) == Trim(zone) && MatchText(query, v) && MatchStatus(filter, v)
  }

  /** `zoneTables` then `visibleTables`: the tables in the chosen zone matching the search
      text and the status filter, in the held order. */
  function Visible(tables: seq<TableView>, zone: string, query: string, filter: string): (r: seq<TableView>)
    ensures forall v :: v in r <==> v in tables && Shown(zone, query, filter, v)
    ensures |r| <= |tables|
  {
    if tables == [] then []
    else (if Shown(zone, query, filter, tables[0]) then [tables[0]] else [])
         + Visible(tables[1..], zone, query, filter)
  }

  /** `filter((t) => t.status === s).length` */
  function CountStatus(tables: seq<TableView>, s: string): nat {
    if tables == [] then 0 else (if tables[0].status == s then 1 else 0) + CountStatus(tables[1..], s)
  }

  /** With every status free or busy, the free and busy counts add up to the count of all. */
  lemma {:induction false} CountsAddUp(tables: seq<TableView>)
    requires forall v :: v in tables ==> v.status == Free || v.status == Busy
    ensures CountStatus(tables, Free) + CountStatus(tables, Busy) == |tables|
  {
    if tables != [] {
      assert tables[0] in tables;
      assert forall v :: v in tables[1..] ==> v in tables;
      CountsAddUp(tables[1..]);
    }
  }

  /** A count is at most the number of tables, and zero when no table has the status. */
  lemma {:induction false} CountBounds(tables: seq<TableView>, s: string)
    ensures CountStatus(tables, s) <= |tables|
    ensures CountStatus(tables, s) == 0 <==> forall v :: v in tables ==> v.status != s
  {
    if tables != [] {
      CountBounds(tables[1..], s);
      assert tables == [tables[0]] + tables[1..];
    }
  }

  /** On the page's own list the counts shown always add up, and the "free" filter shows no
      busy table and the "busy" filter no free one. */
  lemma PageCounts(ts: seq<ServerTable>, zone: string, query: string)
    ensures var all := Visible(Ordered(ts), zone, query, "all");
      CountStatus(all, Free) + CountStatus(all, Busy) == |all|
    ensures CountStatus(Visible(Ordered(ts), zone, query, "free"), Busy) == 0
    ensures CountStatus(Visible(Ordered(ts), zone, query, "busy"), Free) == 0
  {
    OrderedSpec(ts);
    CountsAddUp(Visible(Ordered(ts), zone, query, "all"));
    CountBounds(Visible(Ordered(ts), zone, query, "free"), Busy);
    CountBounds(Visible(Ordered(ts), zone, query, "busy"), Free);
  }

  /** An empty search with the "all" filter shows exactly the tables of the zone. */
  lemma BlankSearchShowsZone(tables: seq<TableView>, zone: string, v: TableView)
    ensures v in Visible(tables, zone, "", "all") <==> v in tables && Trim(v.zone) == Trim(zone)
  {
  }

  // ---------------------------------------------------------------- selection

  /** The effect that drops a selection no visible table carries; an empty selection is
      falsy and left alone. */
  function ClearSelection(selected: Option<string>, visible: seq<TableView>): (r: Option<string>)
    ensures r.Some? ==> r == selected
    ensures r.None? && selected.Some? ==> selected.value != "" && forall v :: v in visible ==> v.number != selected.value
    ensures selected.Some? && (exists v :: v in visible && v.number == selected.value) ==> r == selected
    ensures selected.Some? && selected.value != "" && !(exists v :: v in visible && v.number == selected.value) ==> r.None?
  {
    if selected.Some? && selected.value != "" && !(exists v :: v in visible && v.number == selected.value) then None
    else selected
  }

  /** `onPick`: every table can be picked; picking the selected table clears it. */
  function OnPick(prev: Option<string>, v: TableView): (r: Option<string>)
    ensures r == Some(v.number) <==> prev != Some(v.number)
    ensures r.Some? ==> r.value == v.number
  {
    if prev == Some(v.number) then None else Some(v.number)
  }
}
