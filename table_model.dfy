/** The `tables` model: the status and zone validators, and the statements that create,
    patch and re-status a table. The table itself is not state here; each operation
    answers with the statement it issues (or the validation error it throws), and the
    affected-row count the database reports is a parameter. */
module TableModel {
  import opened Js

  const Free: string := "ว่าง"
  const Reserved: string := "จองแล้ว"
  const InUse: string := "กำลังใช้งาน"
  const Inside: string := "โซนในร้าน"
  const Outside: string := "โซนนอกร้าน"

  const AllowedStatuses: set<string> := {Free, Reserved, InUse}
  const Zones: set<string> := {Inside, Outside}

  function OptStr(o: Option<string>): Value {
    if o.Some? then Str(o.value) else Null
  }

  /** `mustAllowedStatus`: blank after trimming is null; an allowed status is returned
      trimmed; anything else throws. */
  function MustAllowedStatus(s: Value): Result<Option<string>, string> {
    var v := Trim(ToStr(Coalesce(s, Str(""))));
    if v == "" then Ok(None)
    else if v !in AllowedStatuses then Err("invalid table status: " + v)
    else Ok(Some(v))
  }

  /** `mustAllowedZone`: a falsy zone is null; otherwise the trimmed zone must be one of
      the two, or it throws. */
  function MustAllowedZone(z: Value): Result<Option<string>, string> {
    if !Truthy(z) then Ok(None)
    else
      var v := Trim(ToStr(z));
      if v !in Zones then Err("invalid table zone: " + v) else Ok(Some(v))
  }

  /** What the status validator accepts, and what it answers. */
  lemma StatusValidatorCases(s: Value)
    ensures var v := Trim(ToStr(Coalesce(s, Str("")))); var r := MustAllowedStatus(s);
      && (r == Ok(None) <==> v == "")
      && (r.Ok? && r.value.Some? <==> v in AllowedStatuses)
      && (r.Ok? && r.value.Some? ==> r.value.value == v)
      && (r.Err? <==> v != "" && v !in AllowedStatuses)
  {
  }

  /** An accepted status is accepted again unchanged. */
  lemma StatusValidatorIdempotent(s: Value)
    requires MustAllowedStatus(s).Ok? && MustAllowedStatus(s).value.Some?
    ensures MustAllowedStatus(Str(MustAllowedStatus(s).value.value)) == MustAllowedStatus(s)
  {
    var v := MustAllowedStatus(s).value.value;
    assert Trimmed(v);
  }

  /** What the zone validator accepts, and what it answers. */
  lemma ZoneValidatorCases(z: Value)
    ensures var r := MustAllowedZone(z);
      && (r == Ok(None) <==> !Truthy(z))
      && (r.Ok? && r.value.Some? <==> Truthy(z) && Trim(ToStr(z)) in Zones)
      && (r.Ok? && r.value.Some? ==> r.value.value == Trim(ToStr(z)) && r.value.value in Zones)
  {
  }

  /** An accepted zone is accepted again unchanged. */
  lemma ZoneValidatorIdempotent(z: Value)
    requires MustAllowedZone(z).Ok? && MustAllowedZone(z).value.Some?
    ensures MustAllowedZone(Str(MustAllowedZone(z).value.value)) == MustAllowedZone(z)
  {
    var v := MustAllowedZone(z).value.value;
    assert Trimmed(v);
  }

  /** Blank text is an empty status, but an invalid zone: the zone validator tests
      truthiness before trimming. */
  lemma BlankStatusAndZone()
    ensures MustAllowedStatus(Str(" ")) == Ok(None)
    ensures MustAllowedZone(Str(" ")).Err?
  {
    TrimOfBlanks(" ");
    assert "" !in Zones;
  }

  // ---------------------------------------------------------------- statements

  /** A column the patch can set. */
  datatype TableColumn = TableNumberCol | ZoneCol | StatusCol | QrCodeCol | QrExpireCol

  datatype Statement =
    | Insert(tableNumber: string, zone: Value, status: Value)
    | UpdateById(sets: seq<TableColumn>, params: seq<Value>, id: Value)
    | UpdateStatusByNumber(status: Value, tableNumber: string)

  /** `create`: zone and status default to the inside zone and a free table, both are
      validated (status first), and the values are inserted as given. */
  function Create(tableNumber: Value, zone: Value, status: Value): (r: Result<Statement, string>)
    ensures r.Ok? <==>
      MustAllowedStatus(if status.Undefined? then Str(Free) else status).Ok?
      && MustAllowedZone(if zone.Undefined? then Str(Inside) else zone).Ok?
    ensures r.Ok? ==> r.value == Insert(ToStr(tableNumber), if zone.Undefined? then Str(Inside) else zone,
                                        if status.Undefined? then Str(Free) else status)
  {
    var z := if zone.Undefined? then Str(Inside) else zone;
    var s := if status.Undefined? then Str(Free) else status;
    match MustAllowedStatus(s)
    case Err(e) => Err(e)
    case Ok(_) =>
      match MustAllowedZone(z)
      case Err(e) => Err(e)
      case Ok(_) => Ok(Insert(ToStr(tableNumber), z, s))
  }

  /** Without zone or status, a table is created free and inside; padding around a valid
      status passes validation and is stored as sent. */
  lemma CreateDefaultsAndRawValues(tableNumber: Value)
    ensures Create(tableNumber, Undefined, Undefined) == Ok(Insert(ToStr(tableNumber), Str(Inside), Str(Free)))
    ensures Create(tableNumber, Undefined, Str(" " + Free)) == Ok(Insert(ToStr(tableNumber), Str(Inside), Str(" " + Free)))
  {
    assert Trimmed(Free) && Trimmed(Inside);
    TrimStartSpec(" " + Free);
    TrimEndSpec(TrimStart(" " + Free));
    assert TrimStart(" " + Free) == Free by {
      assert (" " + Free)[1..] == Free;
    }
  }

  /** The body of an update; a key the caller did not send is `Undefined`. */
  datatype TablePatch = TablePatch(tableNumber: Value, zone: Value, status: Value, qrCode: Value, qrExpire: Value)

  /** The parameter an update binds to one SET clause, once the patch has validated. */
  function ParamFor(p: TablePatch, c: TableColumn): Value {
    match c
    case TableNumberCol => Str(ToStr(p.tableNumber))
    case ZoneCol => if MustAllowedZone(p.zone).Ok? then OptStr(MustAllowedZone(p.zone).value) else Null
    case StatusCol => if MustAllowedStatus(p.status).Ok? then OptStr(MustAllowedStatus(p.status).value) else Null
    case QrCodeCol => Or(p.qrCode, Null)
    case QrExpireCol => Or(p.qrExpire, Null)
  }

  predicate ParamsFit(p: TablePatch, sets: seq<TableColumn>, params: seq<Value>) {
    |sets| == |params| && forall i :: 0 <= i < |sets| ==> params[i] == ParamFor(p, sets[i])
  }

  /** The patch throws: a sent zone or status that does not validate. */
  predicate Rejected(p: TablePatch) {
    (!Nullish(p.zone) && MustAllowedZone(p.zone).Err?) || (!Nullish(p.status) && MustAllowedStatus(p.status).Err?)
  }

  /** The error thrown: the zone is validated before the status. */
  function RejectionOf(p: TablePatch): string
    requires Rejected(p)
  {
    if !Nullish(p.zone) && MustAllowedZone(p.zone).Err? then MustAllowedZone(p.zone).error
    else MustAllowedStatus(p.status).error
  }

  /** Number, zone and status are set when not null; the QR fields when sent at all,
      a falsy QR value being stored as null. */
  method NumberZoneStatusSets(p: TablePatch) returns (r: Result<(seq<TableColumn>, seq<Value>), string>)
    ensures r.Err? <==> Rejected(p)
    ensures r.Err? ==> r.error == RejectionOf(p)
    ensures r.Ok? ==> ParamsFit(p, r.value.0, r.value.1)
    ensures r.Ok? ==> forall c :: c in r.value.0 <==>
      || (c == TableNumberCol && !Nullish(p.tableNumber))
      || (c == ZoneCol && !Nullish(p.zone))
      || (c == StatusCol && !Nullish(p.status))
  {
    var sets: seq<TableColumn>, params: seq<Value> := [], [];
    if !Nullish(p.tableNumber) {
      sets, params := sets + [TableNumberCol], params + [Str(ToStr(p.tableNumber))];
    }
    if !Nullish(p.zone) {
      var z := MustAllowedZone(p.zone);
      if z.Err? {
        return Err(z.error);
      }
      sets, params := sets + [ZoneCol], params + [OptStr(z.value)];
    }
    if !Nullish(p.status) {
      var s := MustAllowedStatus(p.status);
      if s.Err? {
        return Err(s.error);
      }
      sets, params := sets + [StatusCol], params + [OptStr(s.value)];
    }
    return Ok((sets, params));
  }

  method QrSets(p: TablePatch) returns (sets: seq<TableColumn>, params: seq<Value>)
    ensures ParamsFit(p, sets, params)
    ensures forall c :: c in sets <==> (c == QrCodeCol && !p.qrCode.Undefined?) || (c == QrExpireCol && !p.qrExpire.Undefined?)
  {
    sets, params := [], [];
    if !p.qrCode.Undefined? {
      sets, params := sets + [QrCodeCol], params + [Or(p.qrCode, Null)];
    }
    if !p.qrExpire.Undefined? {
      sets, params := sets + [QrExpireCol], params + [Or(p.qrExpire, Null)];
    }
  }

  /** Nothing the patch could set was sent. */
  predicate EmptyPatch(p: TablePatch) {
    Nullish(p.tableNumber) && Nullish(p.zone) && Nullish(p.status) && p.qrCode.Undefined? && p.qrExpire.Undefined?
  }

  /** `update(id, patch)`: the validation error, or 0 with no statement for an empty
      patch, or the UPDATE and the affected-row count. */
  method Update(id: Value, p: TablePatch, affectedRows: nat) returns (r: Result<nat, string>, stmt: Option<Statement>)
    ensures r.Err? <==> Rejected(p)
    ensures r.Err? ==> r.error == RejectionOf(p) && stmt.None?
    ensures !Rejected(p) && EmptyPatch(p) ==> r == Ok(0) && stmt.None?
    ensures !Rejected(p) && !EmptyPatch(p) ==>
      && r == Ok(affectedRows)
      && stmt.Some? && stmt.value.UpdateById? && stmt.value.id == id
      && ParamsFit(p, stmt.value.sets, stmt.value.params)
      && (TableNumberCol in stmt.value.sets <==> !Nullish(p.tableNumber))
      && (ZoneCol in stmt.value.sets <==> !Nullish(p.zone))
      && (StatusCol in stmt.value.sets <==> !Nullish(p.status))
      && (QrCodeCol in stmt.value.sets <==> !p.qrCode.Undefined?)
      && (QrExpireCol in stmt.value.sets <==> !p.qrExpire.Undefined?)
  {
    stmt := None;
    var first := NumberZoneStatusSets(p);
    if first.Err? {
      return Err(first.error), None;
    }
    var qr, qrParams := QrSets(p);
    var sets, params := first.value.0 + qr, first.value.1 + qrParams;
    JoinFits(p, first.value.0, first.value.1, qr, qrParams);
    assert forall c :: c in sets <==> c in first.value.0 || c in qr;
    if |sets| == 0 {
      assert EmptyPatch(p) by {
        assert TableNumberCol !in sets && ZoneCol !in sets && StatusCol !in sets;
        assert QrCodeCol !in sets && QrExpireCol !in sets;
      }
      return Ok(0), None;
    }
    assert sets[0] in sets;
    return Ok(affectedRows), Some(UpdateById(sets, params, id));
  }

  lemma JoinFits(p: TablePatch, s1: seq<TableColumn>, v1: seq<Value>, s2: seq<TableColumn>, v2: seq<Value>)
    requires ParamsFit(p, s1, v1) && ParamsFit(p, s2, v2)
    ensures ParamsFit(p, s1 + s2, v1 + v2)
  {
    forall i | 0 <= i < |s1 + s2| ensures (v1 + v2)[i] == ParamFor(p, (s1 + s2)[i]) {
      if i >= |s1| {
        assert (s1 + s2)[i] == s2[i - |s1|] && (v1 + v2)[i] == v2[i - |s1|];
      }
    }
  }

  /** `setStatusByNumber`: the status is validated, but the value sent is what is stored. */
  function SetStatusByNumber(tableNumber: Value, status: Value, affectedRows: nat): (r: Result<(nat, Statement), string>)
    ensures r.Err? <==> MustAllowedStatus(status).Err?
    ensures r.Ok? ==> r.value == (affectedRows, UpdateStatusByNumber(status, ToStr(tableNumber)))
  {
    match MustAllowedStatus(status)
    case Err(e) => Err(e)
    case Ok(_) => Ok((affectedRows, UpdateStatusByNumber(status, ToStr(tableNumber))))
  }

  /** `updateStatusAfterApproval`: an approved table is in use, a rejected one free. */
  function UpdateStatusAfterApproval(tableNumber: Value, approved: Value, affectedRows: nat): (r: (nat, string, Statement))
    ensures r.1 == (if Truthy(approved) then InUse else Free)
    ensures r.2 == UpdateStatusByNumber(Str(r.1), ToStr(tableNumber))
  {
    var newStatus := if Truthy(approved) then InUse else Free;
    (affectedRows, newStatus, UpdateStatusByNumber(Str(newStatus), ToStr(tableNumber)))
  }

  /** The status written after an approval always passes the status validator. */
  lemma ApprovalStatusIsAllowed(tableNumber: Value, approved: Value, affectedRows: nat)
    ensures var s := UpdateStatusAfterApproval(tableNumber, approved, affectedRows).1;
      MustAllowedStatus(Str(s)) == Ok(Some(s))
  {
    assert Trimmed(Free) && Trimmed(InUse);
  }
}
