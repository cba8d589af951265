/** The bookings controller: the booking-status whitelist, the table status each booking
    status implies, the shape of a listed booking, and the create and update handlers.
    The database answers (insert outcome, affected rows, the row read back) are inputs;
    the handlers answer with the reply and the statements they issue. */
module BookingsController {
  import opened Js
  import TableModel
  import BookingsModel

  /** The allowed booking statuses, in the order the 400 reply lists them. */
  const AllowedOrder: seq<string> := ["pending", "confirmed", "cancelled", "seated", "done"]

  /** `ALLOWED.has(status)`: only one of the five strings is allowed. */
  predicate Allowed(v: Value) {
    v.Str? && v.s in AllowedOrder
  }

  /** `TABLE_STATUS[status] || "ว่าง"`: the table status a booking status implies. */
  function TableStatus(status: string): string {
    if status == "pending" then TableModel.Reserved
    else if status == "confirmed" || status == "seated" then TableModel.InUse
    else TableModel.Free
  }

  /** Whatever booking status is given, the table status it implies passes the table
      model's own status validator unchanged. */
  lemma TableStatusAccepted(status: string)
    ensures TableModel.MustAllowedStatus(Str(TableStatus(status))) == Ok(Some(TableStatus(status)))
  {
    assert Trimmed(TableModel.Reserved) && Trimmed(TableModel.InUse) && Trimmed(TableModel.Free);
  }

  /** An allowed booking holds its table exactly while it is pending, confirmed or seated,
      and reserves it exactly while pending. */
  lemma TableStatusHolds(status: string)
    requires status in AllowedOrder
    ensures TableStatus(status) != TableModel.Free <==> status in ["pending", "confirmed", "seated"]
    ensures TableStatus(status) == TableModel.Reserved <==> status == "pending"
  {
  }

  // ---------------------------------------------------------------- mapBooking

  datatype BookingRow = BookingRow(
    bookingId: Value, name: Value, phone: Value, tableNumber: Value, date: Value, time: Value,
    zone: Value, createdAt: Value, hasSlip: Value, status: Value, note: Value)

  datatype BookingView = BookingView(
    bookingId: Value, name: Value, phone: Value, tableNumber: Value, date: Value, time: Value,
    zone: Value, createdAt: Value, hasSlip: bool, slipUrl: Option<string>, guests: nat,
    status: Value, note: Value)

  /** `mapBooking`: a row as the client sees it. */
  function MapBooking(r: BookingRow): (v: BookingView)
    ensures v.bookingId == r.bookingId && v.tableNumber == r.tableNumber && v.zone == r.zone
    ensures v.hasSlip == Truthy(r.hasSlip)
    ensures v.slipUrl.Some? <==> v.hasSlip
    ensures v.slipUrl.Some? ==> v.slipUrl.value == "/bookings/" + ToStr(r.bookingId) + "/slip"
    ensures v.guests == 1
    ensures Truthy(v.status) && (Truthy(r.status) ==> v.status == r.status)
    ensures !Truthy(r.status) ==> v.status == Str("pending")
    ensures v.name == r.name && v.phone == r.phone && v.date == r.date && v.time == r.time
    ensures v.createdAt == r.createdAt
    ensures Truthy(r.note) ==> v.note == r.note
    ensures !Truthy(r.note) ==> v.note == Str("")
  {
    BookingView(r.bookingId, r.name, r.phone, r.tableNumber, r.date, r.time, r.zone, r.createdAt,
      Truthy(r.hasSlip),
      if Truthy(r.hasSlip) then Some("/bookings/" + ToStr(r.bookingId) + "/slip") else None,
      1, Or(r.status, Str("pending")), Or(r.note, Str("")))
  }

  // ---------------------------------------------------------------- replies

  datatype ReplyBody =
    | Failure(error: string)
    | Created(message: string, bookingId: int)
    | StatusChanged(ok: bool, bookingId: int, status: string)
    | Updated(bookingId: int)
    | InvalidStatus(error: string, allowed: seq<string>)

  datatype Reply = Reply(code: nat, body: ReplyBody)

  const CreatedText: string := "จองโต๊ะสำเร็จ"

  // ---------------------------------------------------------------- create

  datatype CreateBody = CreateBody(name: Value, phone: Value, tableNumber: Value, date: Value, time: Value, zone: Value)

  predicate MissingForCreate(b: CreateBody) {
    !Truthy(b.name) || !Truthy(b.phone) || !Truthy(b.tableNumber) || !Truthy(b.date) || !Truthy(b.time)
  }

  /** `create`: the booking is inserted with its start time as "date time"; after a
      successful insert the table is marked reserved, and a failure there is ignored. */
  function Create(b: CreateBody, file: Option<BookingsModel.Slip>, insert: Result<nat, string>, tableRows: nat)
    : (r: (Reply, Option<BookingsModel.BookingStatement>, Option<TableModel.Statement>))
    ensures r.0.code == 400 <==> MissingForCreate(b)
    ensures r.0.code == 400 ==> r.1.None? && r.2.None?
    ensures r.0.code == 500 <==> !MissingForCreate(b) && insert.Err?
    ensures r.0.code == 201 <==> !MissingForCreate(b) && insert.Ok?
    ensures r.0.code == 201 ==> r.0.body == Created(CreatedText, insert.value)
    ensures r.2.Some? ==> r.0.code == 201
  {
    if MissingForCreate(b) then (Reply(400, Failure("missing fields")), None, None)
    else
      var zone := if b.zone.Undefined? then Str(BookingsModel.Inside) else b.zone;
      var stmt := BookingsModel.Create(b.tableNumber, zone, b.name, b.phone,
                                       Str(ToStr(b.date) + " " + ToStr(b.time)), file);
      match insert
      case Err(e) => (Reply(500, Failure(e)), Some(stmt), None)
      case Ok(id) =>
        var table := TableModel.SetStatusByNumber(b.tableNumber, Str(TableModel.Reserved), tableRows);
        (Reply(201, Created(CreatedText, id)), Some(stmt), if table.Ok? then Some(table.value.1) else None)
  }

  /** A successful booking is inserted pending and always marks its table reserved. */
  lemma CreateReservesTable(b: CreateBody, file: Option<BookingsModel.Slip>, id: nat, tableRows: nat)
    requires !MissingForCreate(b)
    ensures var r := Create(b, file, Ok(id), tableRows);
      && r.1.Some? && r.1.value.InsertBooking? && r.1.value.initialStatus == "pending"
      && r.1.value.tableNumber == ToStr(b.tableNumber)
      && r.1.value.zone == (if b.zone.Undefined? then Str(BookingsModel.Inside) else b.zone)
      && r.2 == Some(TableModel.UpdateStatusByNumber(Str(TableModel.Reserved), ToStr(b.tableNumber)))
  {
    TableStatusAccepted("pending");
  }

  /** For an HH:MM time the start time written by `create` is the one a full update would
      write for the same date and time, short of the seconds. */
  lemma CreateStartMatchesUpdate(b: CreateBody, file: Option<BookingsModel.Slip>, id: nat, tableRows: nat)
    requires !MissingForCreate(b) && b.time.Str? && |b.time.s| == 5 && BookingsModel.ClockForm(b.time.s)
    ensures var r := Create(b, file, Ok(id), tableRows);
      r.1.Some? && r.1.value.InsertBooking? && r.1.value.startAt.Str?
      && BookingsModel.ToDateTime(b.date, b.time) == Some(r.1.value.startAt.s + ":00")
  {
    var s := ToStr(b.date) + " " + b.time.s;
    assert BookingsModel.ToDateTime(b.date, b.time) == Some(ToStr(b.date) + " " + (b.time.s + ":00"));
    assert s + ":00" == ToStr(b.date) + " " + (b.time.s + ":00");
  }

  // ---------------------------------------------------------------- update

  datatype UpdateBody = UpdateBody(
    status: Value, name: Value, phone: Value, tableNumber: Value, date: Value, time: Value, zone: Value)

  predicate MissingForUpdate(b: UpdateBody) {
    !Truthy(b.name) || !Truthy(b.phone) || !Truthy(b.tableNumber) || !Truthy(b.date) || !Truthy(b.time)
  }

  /** The zone a full update writes: one of the two zones as sent, otherwise inside. */
  function ForcedZone(z: Value): string {
    if z.Str? && (z.s == BookingsModel.Inside || z.s == "โซนนอกร้าน") then z.s else BookingsModel.Inside
  }

  /** `update`: a truthy status changes only the status (and the table's status when the
      booking has a table); otherwise the booking's details are replaced. `affected` is
      what the status update reports, `stored` the table number of the row read back
      (None when no row is found), `tableRows` what the table update reports. `failAt`
      is the position of a statement that throws (1: the booking's update, 2: reading the
      row back, 3: the table's update), and `message` its error text: the handler answers
      500 with it. */
  method Update(idParam: string, b: UpdateBody, file: Option<BookingsModel.Slip>, affected: nat,
                stored: Option<Value>, tableRows: nat, failAt: Option<nat>, message: string)
    returns (reply: Reply, booking: Option<BookingsModel.BookingStatement>, table: Option<TableModel.Statement>)
    ensures !StringToNumber(idParam).Finite? ==> reply == Reply(400, Failure("invalid id")) && booking.None? && table.None?
    ensures StringToNumber(idParam).Finite? && Truthy(b.status) ==>
      var id := StringToNumber(idParam).x;
      var reached := failAt != Some(1) && affected != 0 && failAt != Some(2);
      if !Allowed(b.status) then
        reply == Reply(400, InvalidStatus("invalid status", AllowedOrder)) && booking.None? && table.None?
      else
        && booking == Some(BookingsModel.UpdateBookingStatus(b.status, Num(Finite(id))))
        && (failAt == Some(1) ==> reply == Reply(500, Failure(message)))
        && (failAt != Some(1) && affected == 0 ==> reply == Reply(404, Failure("not found")))
        && (failAt != Some(1) && affected != 0 && failAt == Some(2) ==> reply == Reply(500, Failure(message)))
        && (table.Some? <==> reached && stored.Some? && Truthy(stored.value))
        && (table.Some? ==>
              table == Some(TableModel.UpdateStatusByNumber(Str(TableStatus(b.status.s)), ToStr(stored.value))))
        && (reached ==> reply == (if table.Some? && failAt == Some(3) then Reply(500, Failure(message))
                                  else Reply(200, StatusChanged(true, id, b.status.s))))
    ensures StringToNumber(idParam).Finite? && !Truthy(b.status) ==>
      var id := StringToNumber(idParam).x;
      && table.None?
      && (MissingForUpdate(b) ==> reply == Reply(400, Failure("missing fields")) && booking.None?)
      && (!MissingForUpdate(b) ==>
            && reply == (if failAt == Some(1) then Reply(500, Failure(message)) else Reply(200, Updated(id)))
            && booking.Some? && booking.value.UpdateBookingById? && booking.value.id == Num(Finite(id))
            && 5 <= |booking.value.params| == |booking.value.sets|
            && booking.value.sets[..5] == [BookingsModel.TableNumberCol, BookingsModel.ZoneCol,
                                           BookingsModel.NameCol, BookingsModel.PhoneCol, BookingsModel.StartAtCol]
            && booking.value.params[..5] ==
                 [Str(ToStr(b.tableNumber)), Str(ForcedZone(b.zone)), b.name, b.phone,
                  var at := BookingsModel.ToDateTime(b.date, b.time); if at.Some? then Str(at.value) else Null]
            && (|booking.value.sets| > 5 <==> file.Some?)
            && (file.Some? ==> booking.value.params[5..] == BookingsModel.SlipParams(file)))
  {
    var n := StringToNumber(idParam);
    if !n.Finite? {
      return Reply(400, Failure("invalid id")), None, None;
    }
    var id := n.x;
    if Truthy(b.status) {
      if !Allowed(b.status) {
        return Reply(400, InvalidStatus("invalid status", AllowedOrder)), None, None;
      }
      booking := Some(BookingsModel.UpdateBookingStatus(b.status, Num(Finite(id))));
      if failAt == Some(1) {
        return Reply(500, Failure(message)), booking, None;
      }
      if affected == 0 {
        return Reply(404, Failure("not found")), booking, None;
      }
      if failAt == Some(2) {
        return Reply(500, Failure(message)), booking, None;
      }
      table := None;
      if stored.Some? && Truthy(stored.value) {
        TableStatusAccepted(b.status.s);
        var t := TableModel.SetStatusByNumber(stored.value, Str(TableStatus(b.status.s)), tableRows);
        table := Some(t.value.1);
        if failAt == Some(3) {
          return Reply(500, Failure(message)), booking, table;
        }
      }
      return Reply(200, StatusChanged(true, id, b.status.s)), booking, table;
    }
    var zone := ForcedZone(b.zone);
    if MissingForUpdate(b) {
      return Reply(400, Failure("missing fields")), None, None;
    }
    var slip := if file.Some? then BookingsModel.Attached(file.value) else BookingsModel.Absent;
    var stmt := BookingsModel.UpdateById(Num(Finite(id)),
      BookingsModel.BookingUpdate(b.tableNumber, Str(zone), b.name, b.phone, b.date, b.time, slip));
    reply := if failAt == Some(1) then Reply(500, Failure(message)) else Reply(200, Updated(id));
    return reply, Some(stmt), None;
  }
}
