/** The `snacks` model: paging bounds, the row count, the lookup by any id column and
    the update and delete that try the id columns in turn. The database answers are
    per-column oracles, as in the drink handlers. */
module SnackModel {
  import opened Js
  import opened ColumnFallback

  /** The id columns, in the order every lookup tries them. */
  const SnackIdColumns: seq<string> := ["item_id", "snack_id", "id", "menu_id", "m_id"]

  // ---------------------------------------------------------------- paging

  const MaxLimit: int := 1000

  function Clamp(lo: int, hi: int, x: int): int
    requires lo <= hi
  {
    if x < lo then lo else if x > hi then hi else x
  }

  /** `sanitizeLimitOffset`: both go through `Number(v) | 0`; the limit is then held to
      [0, 1000] and the offset to at least 0. */
  function SanitizeLimitOffset(limit: Value, offset: Value): (r: (int, int))
    ensures 0 <= r.0 <= MaxLimit && 0 <= r.1 < TwoTo31
    ensures !ToNumber(limit).Finite? ==> r.0 == 0
    ensures !ToNumber(offset).Finite? ==> r.1 == 0
  {
    var l := ToInt32(ToNumber(limit));
    var o := ToInt32(ToNumber(offset));
    (Clamp(0, MaxLimit, l), if o < 0 then 0 else o)
  }

  /** A limit already in [0, 1000] and a non-negative 32-bit offset are kept. */
  lemma SanitizeKeepsValid(limit: int, offset: int)
    requires 0 <= limit <= MaxLimit && 0 <= offset < TwoTo31
    ensures SanitizeLimitOffset(Num(Finite(limit)), Num(Finite(offset))) == (limit, offset)
  {
  }

  /** Sanitizing twice changes nothing more. */
  lemma SanitizeIdempotent(limit: Value, offset: Value)
    ensures var r := SanitizeLimitOffset(limit, offset);
      SanitizeLimitOffset(Num(Finite(r.0)), Num(Finite(r.1))) == r
  {
    var r := SanitizeLimitOffset(limit, offset);
    SanitizeKeepsValid(r.0, r.1);
  }

  /** `| 0` wraps modulo 2^32 before the clamp: a limit of 2^32 + 5 asks for 5 rows, and
      a text limit that is not a number asks for none. */
  lemma SanitizeWrapsAndRejects()
    ensures SanitizeLimitOffset(Num(Finite(TwoTo32 + 5)), Num(Finite(0))).0 == 5
    ensures SanitizeLimitOffset(Str("ten"), Num(Finite(0))).0 == 0
  {
    assert StringToNumber("ten") == NaN by {
      assert Trimmed("ten");
      assert !IsDigit('t');
    }
  }

  // ---------------------------------------------------------------- countAll

  /** The `LIKE` pattern of a search: `%q%` for a truthy `q`, no filter otherwise. */
  function LikeFilter(q: Value): (r: Option<string>)
    ensures r.Some? <==> Truthy(q)
    ensures r.Some? ==>
      && |r.value| == |ToStr(q)| + 2 && r.value[0] == '%' && r.value[|r.value| - 1] == '%'
      && r.value[1..|r.value| - 1] == ToStr(q)
  {
    if Truthy(q) then Some("%" + ToStr(q) + "%") else None
  }

  /** `countAll`: `Number(c || 0)` of the first row's `c` (None when there is no row);
      a failing query is rethrown. */
  function CountAll(q: Value, answer: Result<Option<Value>, string>): (r: (Option<string>, Result<Number, string>))
    ensures r.0 == LikeFilter(q)
    ensures r.1.Err? <==> answer.Err?
    ensures answer.Ok? && (answer.value.None? || !Truthy(answer.value.value)) ==> r.1 == Ok(Finite(0))
    ensures answer.Ok? && answer.value.Some? && answer.value.value.Num? && r.1.Ok? ==> r.1.value.Finite? || r.1.value == answer.value.value.n
  {
    var count :=
      match answer
      case Err(e) => Err(e)
      case Ok(c) => Ok(ToNumber(Or(if c.Some? then c.value else Undefined, Num(Finite(0)))));
    (LikeFilter(q), count)
  }

  /** A count reported as a number is returned as that number, and NaN never comes out of
      a numeric answer. */
  lemma CountOfNumber(q: Value, c: Number)
    ensures CountAll(q, Ok(Some(Num(c)))).1 == Ok(if c.NaN? then Finite(0) else c)
    ensures CountAll(q, Ok(Some(Num(c)))).1 != Ok(NaN)
  {
  }

  // ---------------------------------------------------------------- lookup

  /** `getByIdFlexible`: the first row found while trying the id columns in order. */
  method GetByIdFlexible<Row>(probe: string -> Attempt<Option<Row>>) returns (r: Result<Option<Row>, DbFailure>)
    ensures r == FirstRow(SnackIdColumns, probe)
  {
    r := FindByAnyColumn(SnackIdColumns, probe);
  }

  /** A snack found under `snack_id` is returned only when `item_id` found nothing. */
  lemma FoundBySnackId<Row>(probe: string -> Attempt<Option<Row>>, row: Row)
    requires Missed(probe("item_id")) && probe("snack_id") == Answered(Some(row))
    ensures FirstRow(SnackIdColumns, probe) == Ok(Some(row))
  {
    FirstRowFinds(SnackIdColumns, probe, 1);
  }

  // ---------------------------------------------------------------- update

  /** The fields an update may carry; an absent one is `Undefined`. */
  datatype SnackPatch = SnackPatch(name: Value, description: Value, price: Value, imagesData: Value)

  datatype SnackColumn = NameCol | DescriptionCol | PriceCol | ImagesCol

  function Rank(c: SnackColumn): nat {
    match c
    case NameCol => 0
    case DescriptionCol => 1
    case PriceCol => 2
    case ImagesCol => 3
  }

  /** Whether the patch supplies a column: everything but the price counts when not
      undefined; the price defaults to null and counts when not null. */
  predicate Supplied(p: SnackPatch, c: SnackColumn) {
    match c
    case NameCol => !p.name.Undefined?
    case DescriptionCol => !p.description.Undefined?
    case PriceCol => !Nullish(p.price)
    case ImagesCol => !p.imagesData.Undefined?
  }

  /** The value bound to a column: an empty description becomes null, the price goes
      through `toNum`, and the image bytes (opaque) are null for a falsy image. */
  function ParamFor(p: SnackPatch, c: SnackColumn): Value {
    match c
    case NameCol => p.name
    case DescriptionCol => Or(p.description, Null)
    case PriceCol => OptNum(ToNumOrNull(p.price))
    case ImagesCol => if Truthy(p.imagesData) then Obj else Null
  }

  predicate NothingSupplied(p: SnackPatch) {
    p.name.Undefined? && p.description.Undefined? && Nullish(p.price) && p.imagesData.Undefined?
  }

  const AllColumns: seq<SnackColumn> := [NameCol, DescriptionCol, PriceCol, ImagesCol]

  /** The columns of `cs` that the patch supplies, in the order of `cs`. */
  function Keep(p: SnackPatch, cs: seq<SnackColumn>): seq<SnackColumn> {
    if cs == [] then []
    else (if Supplied(p, cs[0]) then [cs[0]] else []) + Keep(p, cs[1..])
  }

  /** The column `c` as a SET list of its own: present when the patch supplies it. */
  function KeepOne(p: SnackPatch, c: SnackColumn): seq<SnackColumn> {
    if Supplied(p, c) then [c] else []
  }

  lemma KeepCons(p: SnackPatch, c: SnackColumn, cs: seq<SnackColumn>)
    ensures Keep(p, [c] + cs) == KeepOne(p, c) + Keep(p, cs)
  {
    assert ([c] + cs)[1..] == cs;
  }

  /** The SET list of an update. */
  function SetList(p: SnackPatch): seq<SnackColumn> {
    Keep(p, AllColumns)
  }

  lemma {:induction false} KeepMembers(p: SnackPatch, cs: seq<SnackColumn>, c: SnackColumn)
    ensures c in Keep(p, cs) <==> c in cs && Supplied(p, c)
  {
    if cs != [] {
      KeepMembers(p, cs[1..], c);
      assert cs == [cs[0]] + cs[1..];
    }
  }

  predicate Ascending(cs: seq<SnackColumn>) {
    forall i, j :: 0 <= i < j < |cs| ==> Rank(cs[i]) < Rank(cs[j])
  }

  lemma {:induction false} KeepAscending(p: SnackPatch, cs: seq<SnackColumn>)
    requires Ascending(cs)
    ensures Ascending(Keep(p, cs))
    ensures forall c :: c in Keep(p, cs) ==> c in cs
  {
    if cs != [] {
      var rest := cs[1..];
      assert Ascending(rest) by {
        forall i, j | 0 <= i < j < |rest| ensures Rank(rest[i]) < Rank(rest[j]) {
          assert rest[i] == cs[i + 1] && rest[j] == cs[j + 1];
        }
      }
      KeepAscending(p, rest);
      var k := Keep(p, rest);
      forall c | c in k ensures Rank(cs[0]) < Rank(c) {
        var j :| 0 <= j < |rest| && rest[j] == c;
        assert cs[j + 1] == c;
      }
    }
  }

  /** Every supplied field has exactly one clause, no other field has one, and the
      clauses follow the declaration order; nothing at all is set exactly when nothing
      is supplied. */
  lemma SetListShape(p: SnackPatch)
    ensures forall c :: c in SetList(p) <==> Supplied(p, c)
    ensures Ascending(SetList(p))
    ensures SetList(p) == [] <==> NothingSupplied(p)
  {
    forall c ensures c in SetList(p) <==> Supplied(p, c) {
      KeepMembers(p, AllColumns, c);
    }
    KeepAscending(p, AllColumns);
    if SetList(p) == [] {
      assert !Supplied(p, NameCol) && !Supplied(p, DescriptionCol) && !Supplied(p, PriceCol) && !Supplied(p, ImagesCol);
    } else {
      assert Supplied(p, SetList(p)[0]);
    }
  }

  /** The values bound to a list of columns, in the same order. */
  function Params(p: SnackPatch, cs: seq<SnackColumn>): (r: seq<Value>)
    ensures |r| == |cs|
  {
    if cs == [] then [] else [ParamFor(p, cs[0])] + Params(p, cs[1..])
  }

  lemma {:induction false} ParamsAt(p: SnackPatch, cs: seq<SnackColumn>, i: nat)
    requires i < |cs|
    ensures Params(p, cs)[i] == ParamFor(p, cs[i])
  {
    if i > 0 {
      ParamsAt(p, cs[1..], i - 1);
    }
  }

  lemma {:induction false} ParamsSnoc(p: SnackPatch, cs: seq<SnackColumn>, c: SnackColumn)
    ensures Params(p, cs + [c]) == Params(p, cs) + [ParamFor(p, c)]
  {
    if cs != [] {
      assert (cs + [c])[1..] == cs[1..] + [c];
      ParamsSnoc(p, cs[1..], c);
    }
  }

  /** One `if (... !== undefined) { fields.push(...); values.push(...); }` step. */
  method Push(p: SnackPatch, c: SnackColumn, fields: seq<SnackColumn>, values: seq<Value>)
    returns (fields': seq<SnackColumn>, values': seq<Value>)
    requires values == Params(p, fields)
    ensures fields' == fields + KeepOne(p, c)
    ensures values' == Params(p, fields')
  {
    fields', values' := fields, values;
    if Supplied(p, c) {
      ParamsSnoc(p, fields, c);
      fields', values' := fields + [c], values + [ParamFor(p, c)];
    } else {
      assert fields + [] == fields;
    }
  }

  /** The SET list of an update: one clause per supplied field, each bound to its value. */
  method SnackSets(p: SnackPatch) returns (fields: seq<SnackColumn>, values: seq<Value>)
    ensures fields == SetList(p)
    ensures values == Params(p, fields)
  {
    fields, values := Push(p, NameCol, [], []);
    fields, values := Push(p, DescriptionCol, fields, values);
    fields, values := Push(p, PriceCol, fields, values);
    fields, values := Push(p, ImagesCol, fields, values);
    SetListByColumn(p);
  }

  /** The SET list, column by column in the order of the table's columns. */
  lemma SetListByColumn(p: SnackPatch)
    ensures SetList(p) == [] + KeepOne(p, NameCol) + KeepOne(p, DescriptionCol) + KeepOne(p, PriceCol) + KeepOne(p, ImagesCol)
  {
    var name, description, price, images := KeepOne(p, NameCol), KeepOne(p, DescriptionCol), KeepOne(p, PriceCol), KeepOne(p, ImagesCol);
    KeepCons(p, ImagesCol, []);
    assert [ImagesCol] + [] == [ImagesCol];
    KeepCons(p, PriceCol, [ImagesCol]);
    assert [PriceCol] + [ImagesCol] == [PriceCol, ImagesCol];
    KeepCons(p, DescriptionCol, [PriceCol, ImagesCol]);
    assert [DescriptionCol] + [PriceCol, ImagesCol] == [DescriptionCol, PriceCol, ImagesCol];
    KeepCons(p, NameCol, [DescriptionCol, PriceCol, ImagesCol]);
    assert [NameCol] + [DescriptionCol, PriceCol, ImagesCol] == AllColumns;
    assert Keep(p, AllColumns) == name + (description + (price + (images + [])));
    assert [] + name == name && images + [] == images;
    assert name + description + price + images == name + (description + (price + images));
  }

  /** `update`: 0 without any query when nothing is supplied; otherwise the id columns
      are tried in order, as `Affect` describes. */
  method Update(p: SnackPatch, probe: string -> Attempt<nat>)
    returns (r: Result<nat, DbFailure>, fields: seq<SnackColumn>, values: seq<Value>)
    ensures fields == SetList(p)
    ensures NothingSupplied(p) ==> r == Ok(0)
    ensures !NothingSupplied(p) ==> r == Affect(SnackIdColumns, probe)
    ensures values == Params(p, fields)
  {
    fields, values := SnackSets(p);
    SetListShape(p);
    if fields == [] {
      return Ok(0), fields, values;
    }
    r := AffectByAnyColumn(SnackIdColumns, probe);
  }

  /** `removeFlexible`: the id columns are tried in order, as `Affect` describes. */
  method RemoveFlexible(probe: string -> Attempt<nat>) returns (r: Result<nat, DbFailure>)
    ensures r == Affect(SnackIdColumns, probe)
  {
    r := AffectByAnyColumn(SnackIdColumns, probe);
  }

  /** When `item_id` is not a column and no other column matches, the update does not
      answer 0: it rethrows the unknown-column error of the last such column tried. */
  lemma MissingItemIdColumnIsRethrown(probe: string -> Attempt<nat>)
    requires probe("item_id").UnknownColumn?
    requires forall j :: 1 <= j < |SnackIdColumns| ==> probe(SnackIdColumns[j]) == Answered(0)
    ensures Affect(SnackIdColumns, probe) == Err(UnknownColumnError("item_id"))
  {
    AffectRethrowsLast(SnackIdColumns, probe, 0, None);
  }
}
