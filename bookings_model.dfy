/** The `bookings` model: date-time assembly, and the INSERT and UPDATE statements it
    builds. The table is not state here; each operation answers with its statement. */
module BookingsModel {
  import opened Js

  const Inside: string := "โซนในร้าน"

  // ---------------------------------------------------------------- toDateTime

  /** `/^\d{2}:\d{2}(:\d{2})?$/`: HH:MM or HH:MM:SS, ASCII digits only. */
  predicate ClockForm(s: string) {
    && (|s| == 5 || |s| == 8)
    && IsDigit(s[0]) && IsDigit(s[1]) && s[2] == ':' && IsDigit(s[3]) && IsDigit(s[4])
    && (|s| == 8 ==> s[5] == ':' && IsDigit(s[6]) && IsDigit(s[7]))
  }

  /** The time part: the time itself when it is a clock time (only a string can be one),
      else its first five characters. */
  function TimePart(time: Value): string {
    var s := ToStr(time);
    if ClockForm(s) then s else s[..if |s| < 5 then |s| else 5]
  }

  /** `toDateTime(date, time)`: null when either is missing; otherwise the date, a space
      and the time part, completed with ":00" when it has exactly five characters. */
  function ToDateTime(date: Value, time: Value): Option<string> {
    if !Truthy(date) || !Truthy(time) then None
    else
      var t := TimePart(time);
      Some(ToStr(date) + " " + (if |t| == 5 then t + ":00" else t))
  }

  /** A clock time comes out as a full HH:MM:SS after the date: seconds are added to
      HH:MM and HH:MM:SS is kept. */
  lemma ToDateTimeOfClock(date: Value, time: string)
    requires Truthy(date) && ClockForm(time)
    ensures ToDateTime(date, Str(time)).Some?
    ensures var r := ToDateTime(date, Str(time)).value; var d := ToStr(date);
      && r[..|d| + 1] == d + " "
      && var t := r[|d| + 1..];
      && |t| == 8 && ClockForm(t)
      && t[..5] == time[..5]
      && (|time| == 8 ==> t == time)
  {
    var d := ToStr(date);
    var t := if |time| == 5 then time + ":00" else time;
    var r := d + " " + t;
    assert ToDateTime(date, Str(time)) == Some(r);
    assert r[..|d| + 1] == d + " ";
    assert r[|d| + 1..] == t;
  }

  /** Any other time keeps only its first five characters, with ":00" when there are five. */
  lemma ToDateTimeOfOther(date: Value, time: Value)
    requires Truthy(date) && Truthy(time) && !ClockForm(ToStr(time))
    ensures var s := ToStr(time); var t := if |s| < 5 then s else s[..5];
      ToDateTime(date, time) == Some(ToStr(date) + " " + (if |t| == 5 then t + ":00" else t))
  {
    var s := ToStr(time);
    if |s| < 5 {
      assert s[..|s|] == s;
    }
  }

  /** Either part missing gives null. */
  lemma ToDateTimeNeedsBoth(date: Value, time: Value)
    ensures ToDateTime(date, time).None? <==> !Truthy(date) || !Truthy(time)
  {
  }

  // ---------------------------------------------------------------- statements

  /** An uploaded slip; the file's bytes are an opaque object. */
  datatype Slip = Slip(mime: string, filename: string, size: nat)

  /** The four slip parameters, all null when there is no slip. */
  function SlipParams(slip: Option<Slip>): seq<Value> {
    if slip.Some? then [Str(slip.value.mime), Str(slip.value.filename), Num(Finite(slip.value.size)), Obj]
    else [Null, Null, Null, Null]
  }

  datatype BookingColumn =
    | TableNumberCol | ZoneCol | NameCol | PhoneCol | StartAtCol
    | SlipMimeCol | SlipFilenameCol | SlipSizeCol | SlipBlobCol

  const SlipColumns: seq<BookingColumn> := [SlipMimeCol, SlipFilenameCol, SlipSizeCol, SlipBlobCol]

  datatype BookingStatement =
    | InsertBooking(tableNumber: string, zone: Value, name: Value, phone: Value, startAt: Value,
                    slip: seq<Value>, initialStatus: string)
    | UpdateBookingById(sets: seq<BookingColumn>, params: seq<Value>, id: Value)
    | UpdateBookingStatus(newStatus: Value, id: Value)

  /** `create`: the zone defaults to the inside zone and every booking starts pending. */
  function Create(tableNumber: Value, zone: Value, name: Value, phone: Value, startAt: Value, slip: Option<Slip>)
    : (s: BookingStatement)
    ensures s.InsertBooking? && s.initialStatus == "pending"
    ensures s.zone == (if zone.Undefined? then Str(Inside) else zone)
    ensures |s.slip| == 4 && (slip.None? <==> s.slip == [Null, Null, Null, Null])
  {
    InsertBooking(ToStr(tableNumber), if zone.Undefined? then Str(Inside) else zone, name, phone, startAt,
                  SlipParams(slip), "pending")
  }

  /** The slip argument of `updateById`: not passed, passed as null, or a file. */
  datatype SlipArg = Absent | Cleared | Attached(file: Slip)

  /** The fields of a full update. */
  datatype BookingUpdate = BookingUpdate(
    tableNumber: Value, zone: Value, name: Value, phone: Value, date: Value, time: Value, slip: SlipArg)

  /** `updateById`: the five booking columns always; the four slip columns only when a
      slip argument was passed, all cleared by a null slip. */
  method UpdateById(id: Value, u: BookingUpdate) returns (stmt: BookingStatement)
    ensures stmt.UpdateBookingById? && stmt.id == id
    ensures 5 <= |stmt.sets| == |stmt.params|
    ensures stmt.sets[..5] == [TableNumberCol, ZoneCol, NameCol, PhoneCol, StartAtCol]
    ensures stmt.params[..5] ==
      [Str(ToStr(u.tableNumber)), if u.zone.Undefined? then Str(Inside) else u.zone, u.name, u.phone,
       var at := ToDateTime(u.date, u.time); if at.Some? then Str(at.value) else Null]
    ensures u.slip.Absent? <==> |stmt.sets| == 5
    ensures !u.slip.Absent? ==> stmt.sets[5..] == SlipColumns
    ensures u.slip.Cleared? ==> stmt.params[5..] == [Null, Null, Null, Null]
    ensures u.slip.Attached? ==> stmt.params[5..] == SlipParams(Some(u.slip.file))
  {
    var startAt := ToDateTime(u.date, u.time);
    var zone := if u.zone.Undefined? then Str(Inside) else u.zone;
    var sets := [TableNumberCol, ZoneCol, NameCol, PhoneCol, StartAtCol];
    var params := [Str(ToStr(u.tableNumber)), zone, u.name, u.phone, if startAt.Some? then Str(startAt.value) else Null];
    if !u.slip.Absent? {
      sets := sets + SlipColumns;
      params := params + SlipParams(if u.slip.Attached? then Some(u.slip.file) else None);
    }
    stmt := UpdateBookingById(sets, params, id);
  }
}
