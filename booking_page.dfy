/** The customer booking page: the tables the server lists, normalised and ordered, those
    of the chosen zone, and picking a free one. */
module BookingPage {
  import opened Js
  import TableModel
  import TableLabels
  import BookingsController

  const Inside: string := "inside"
  const Outside: string := "outside"

  /** A row of the server's list under any of the field names the page accepts. */
  datatype TableRow = TableRow(
    tableNumber: Value, tableNo: Value, number: Value, tableId: Value, id: Value, tableIdCamel: Value,
    status: Value, qrCode: Value, zone: Value, area: Value, section: Value)

  /** A seat on the page's map. */
  datatype Seat = Seat(id: Value, number: Value, status: Value, qrCode: Value, zone: Value)

  /** `r.table_number ?? r.tableNo ?? r.number ?? \`T${r.table_id ?? r.id ?? ""}\`` */
  function SeatNumber(r: TableRow): (n: Value)
    ensures !Nullish(n)
    ensures !Nullish(r.tableNumber) ==> n == r.tableNumber
    ensures Nullish(r.tableNumber) && Nullish(r.tableNo) && Nullish(r.number) ==>
      n == Str("T" + ToStr(Coalesce(r.tableId, Coalesce(r.id, Str("")))))
  {
    Coalesce(r.tableNumber, Coalesce(r.tableNo, Coalesce(r.number,
      Str("T" + ToStr(Coalesce(r.tableId, Coalesce(r.id, Str(""))))))))
  }

  /** `(r.zone || r.area || r.section) ?? deriveZoneFromLabel(number)`: the derived zone is
      used only when the last of the three is null or undefined. */
  function SeatZone(r: TableRow): (z: Value)
    ensures Truthy(r.zone) ==> z == r.zone
    ensures !Truthy(r.zone) && Truthy(r.area) ==> z == r.area
    ensures !Truthy(r.zone) && !Truthy(r.area) && !Nullish(r.section) ==> z == r.section
    ensures !Truthy(r.zone) && !Truthy(r.area) && Nullish(r.section) ==>
      z == Str(TableLabels.DeriveZone(ToStr(SeatNumber(r)), Inside, Outside))
  {
    Coalesce(Or(Or(r.zone, r.area), r.section),
      Str(TableLabels.DeriveZone(ToStr(SeatNumber(r)), Inside, Outside)))
  }

  /** A row as the page keeps it; a missing status is ว่าง. */
  function Normalize(r: TableRow): (t: Seat)
    ensures t.number == SeatNumber(r) && t.zone == SeatZone(r)
    ensures t.id == Coalesce(r.tableId, Coalesce(r.id, r.tableIdCamel))
    ensures !Nullish(t.status) && (Nullish(r.status) ==> t.status == Str(TableModel.Free))
    ensures !Nullish(r.status) ==> t.status == r.status
    ensures Nullish(r.qrCode) ==> t.qrCode == Null
  {
    Seat(Coalesce(r.tableId, Coalesce(r.id, r.tableIdCamel)), SeatNumber(r),
      Coalesce(r.status, Str(TableModel.Free)), Coalesce(r.qrCode, Null), SeatZone(r))
  }

  function NormalizeAll(rs: seq<TableRow>): (r: seq<Seat>)
    ensures |r| == |rs| && forall i :: 0 <= i < |rs| ==> r[i] == Normalize(rs[i])
  {
    if rs == [] then [] else [Normalize(rs[0])] + NormalizeAll(rs[1..])
  }

  function NumberKey(t: Seat): int {
    TableLabels.SortKey(ToStr(t.number))
  }

  /** The seats the page holds: the rows normalised and sorted by first number. */
  function Ordered(rs: seq<TableRow>): seq<Seat> {
    TableLabels.SortBy(NormalizeAll(rs), NumberKey)
  }

  /** The held seats are the normalised rows, ascending by first number, none of them
      without a number or a status. */
  lemma OrderedSpec(rs: seq<TableRow>)
    ensures multiset(Ordered(rs)) == multiset(NormalizeAll(rs))
    ensures TableLabels.SortedBy(Ordered(rs), NumberKey)
    ensures forall t :: t in Ordered(rs) ==> !Nullish(t.number) && !Nullish(t.status)
  {
    TableLabels.SortBySpec(NormalizeAll(rs), NumberKey);
    forall t | t in Ordered(rs) ensures !Nullish(t.number) && !Nullish(t.status) {
      assert t in multiset(NormalizeAll(rs));
    }
  }

  /** `visibleTables`: the seats whose zone is exactly the chosen one, in the held order. */
  function Visible(seats: seq<Seat>, zone: string): (r: seq<Seat>)
    ensures forall t :: t in r <==> t in seats && t.zone == Str(zone)
  {
    if seats == [] then []
    else (if seats[0].zone == Str(zone) then [seats[0]] else []) + Visible(seats[1..], zone)
  }

  /** `isReserved`: a seat is taken unless its trimmed status is ว่าง. */
  predicate IsReserved(t: Seat) {
    Trim(ToStr(Or(t.status, Str("")))) != TableModel.Free
  }

  /** A row listed without a status is free to pick. */
  lemma MissingStatusIsFree(r: TableRow)
    requires Nullish(r.status)
    ensures !IsReserved(Normalize(r))
  {
    assert Trimmed(TableModel.Free);
  }

  /** A seat whose status is the table status an allowed booking status implies is taken
      exactly while that booking status is pending, confirmed or seated. */
  lemma ReservedByBooking(t: Seat, bookingStatus: string)
    requires bookingStatus in BookingsController.AllowedOrder
    requires t.status == Str(BookingsController.TableStatus(bookingStatus))
    ensures IsReserved(t) <==> bookingStatus in ["pending", "confirmed", "seated"]
  {
    BookingsController.TableStatusHolds(bookingStatus);
    assert Trimmed(TableModel.Free) && Trimmed(TableModel.Reserved) && Trimmed(TableModel.InUse);
  }

  /** `onPick`: a taken seat changes nothing; a free seat is selected, or unselected when
      it already was. */
  function OnPick(prev: Option<Value>, t: Seat): (r: Option<Value>)
    ensures IsReserved(t) ==> r == prev
    ensures !IsReserved(t) ==> (r == Some(t.number) <==> prev != Some(t.number))
    ensures !IsReserved(t) && r.Some? ==> r.value == t.number
  {
    if IsReserved(t) then prev
    else if prev == Some(t.number) then None
    else Some(t.number)
  }

  /** Clearing the selection: a truthy selection that no visible seat carries is dropped. */
  function ClearSelection(selected: Option<Value>, visible: seq<Seat>): (r: Option<Value>)
    ensures r.Some? ==> r == selected
    ensures r.None? && selected.Some? ==> Truthy(selected.value) && forall t :: t in visible ==> t.number != selected.value
    ensures selected.Some? && (exists t :: t in visible && t.number == selected.value) ==> r == selected
  {
    if selected.Some? && Truthy(selected.value) && !(exists t :: t in visible && t.number == selected.value) then None
    else selected
  }

  /** After switching zone, a truthy selection that survives belongs to a seat of the new zone. */
  lemma SelectionStaysInZone(selected: Option<Value>, seats: seq<Seat>, zone: string)
    requires selected.Some? && Truthy(selected.value)
    ensures var r := ClearSelection(selected, Visible(seats, zone));
      r.Some? ==> exists t :: t in seats && t.zone == Str(zone) && t.number == r.value
  {
  }
}
