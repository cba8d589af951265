/** The admin reports page: report rows as the page reads them, the per-day rows it builds
    from raw orders when no report endpoint answers, the summary it sums from its rows, and
    the bar chart of the latest rows. */
module AdminReports {
  import opened Js
  import OrderController

  /** `toNum(v, fb)`: `Number(v)` when finite, else the fallback. */
  function ToNum(v: Value, fb: int): (r: int)
    ensures r == OrderController.ToNum(v, fb)
  {
    var n := ToNumber(v);
    if n.Finite? then n.x else fb
  }

  /** `v?.slice(0, 10)` of a string or a missing value. */
  function Slice10(v: Value): Value {
    if v.Str? then Str(v.s[..if |v.s| < 10 then |v.s| else 10]) else Undefined
  }

  // ---------------------------------------------------------------- mapReportRow

  /** A report row under any of the field names the page accepts. */
  datatype ReportRow = ReportRow(
    date: Value, day: Value, period: Value, ymd: Value, createdAt: Value,
    item: Value, name: Value, category: Value, title: Value, caption: Value,
    income: Value, revenue: Value, total: Value, amount: Value, totalPrice: Value,
    expense: Value, cost: Value, outcome: Value, profit: Value)

  /** A row as the page shows it. */
  datatype ReportView = ReportView(date: Value, item: Value, income: int, expense: int, profit: int)

  /** The first truthy value of a `||` chain, or the fallback when none is. */
  function FirstTruthy(vs: seq<Value>, fallback: Value): Value {
    if vs == [] then fallback
    else if Truthy(vs[0]) then vs[0]
    else FirstTruthy(vs[1..], fallback)
  }

  /** The first value of a `??` chain that is neither null nor undefined, else the last one. */
  function FirstPresent(vs: seq<Value>): Value
    requires vs != []
  {
    if |vs| == 1 || !Nullish(vs[0]) then vs[0]
    else FirstPresent(vs[1..])
  }

  /** `||` yields the first truthy link, or the fallback when every link is falsy. */
  lemma {:induction false} FirstTruthySpec(vs: seq<Value>, fallback: Value)
    ensures (forall i :: 0 <= i < |vs| ==> !Truthy(vs[i])) ==> FirstTruthy(vs, fallback) == fallback
    ensures forall i :: 0 <= i < |vs| && Truthy(vs[i]) && (forall j :: 0 <= j < i ==> !Truthy(vs[j])) ==>
              FirstTruthy(vs, fallback) == vs[i]
  {
    if vs != [] && !Truthy(vs[0]) {
      var rest := vs[1..];
      FirstTruthySpec(rest, fallback);
      assert FirstTruthy(vs, fallback) == FirstTruthy(rest, fallback);
      forall i | 0 <= i < |vs| && Truthy(vs[i]) && (forall j :: 0 <= j < i ==> !Truthy(vs[j]))
        ensures FirstTruthy(vs, fallback) == vs[i]
      {
        assert i >= 1 && vs[i] == rest[i - 1];
        assert forall j :: 0 <= j < i - 1 ==> rest[j] == vs[j + 1];
      }
      if forall i :: 0 <= i < |vs| ==> !Truthy(vs[i]) {
        assert forall j :: 0 <= j < |rest| ==> rest[j] == vs[j + 1];
      }
    }
  }

  /** `??` yields the first present link, or the last link when every earlier one is absent. */
  lemma {:induction false} FirstPresentSpec(vs: seq<Value>)
    requires vs != []
    ensures (forall i :: 0 <= i < |vs| - 1 ==> Nullish(vs[i])) ==> FirstPresent(vs) == vs[|vs| - 1]
    ensures forall i :: 0 <= i < |vs| && !Nullish(vs[i]) && (forall j :: 0 <= j < i ==> Nullish(vs[j])) ==>
              FirstPresent(vs) == vs[i]
  {
    if |vs| > 1 && Nullish(vs[0]) {
      var rest := vs[1..];
      FirstPresentSpec(rest);
      assert FirstPresent(vs) == FirstPresent(rest);
      assert vs[|vs| - 1] == rest[|rest| - 1];
      forall i | 0 <= i < |vs| && !Nullish(vs[i]) && (forall j :: 0 <= j < i ==> Nullish(vs[j]))
        ensures FirstPresent(vs) == vs[i]
      {
        assert i >= 1 && vs[i] == rest[i - 1];
        assert forall j :: 0 <= j < i - 1 ==> rest[j] == vs[j + 1];
      }
      if forall i :: 0 <= i < |vs| - 1 ==> Nullish(vs[i]) {
        assert forall j :: 0 <= j < |rest| - 1 ==> rest[j] == vs[j + 1];
      }
    }
  }

  /** One `||` link: the first truthy of `v` followed by `vs`. */
  lemma FirstTruthyCons(v: Value, vs: seq<Value>, fallback: Value)
    ensures FirstTruthy([v] + vs, fallback) == Or(v, FirstTruthy(vs, fallback))
  {
    assert ([v] + vs)[1..] == vs;
  }

  /** One `??` link: the first present of `v` followed by a non-empty `vs`. */
  lemma FirstPresentCons(v: Value, vs: seq<Value>)
    requires vs != []
    ensures FirstPresent([v] + vs) == Coalesce(v, FirstPresent(vs))
  {
    assert ([v] + vs)[1..] == vs;
  }

  /** A five-field `||` chain is the first truthy of its fields. */
  lemma OrChain(a: Value, b: Value, c: Value, d: Value, e: Value, fallback: Value)
    ensures FirstTruthy([a, b, c, d, e], fallback) == Or(a, Or(b, Or(c, Or(d, Or(e, fallback)))))
  {
    FirstTruthyCons(e, [], fallback);
    assert [d, e] == [d] + [e];
    FirstTruthyCons(d, [e], fallback);
    assert [c, d, e] == [c] + [d, e];
    FirstTruthyCons(c, [d, e], fallback);
    assert [b, c, d, e] == [b] + [c, d, e];
    FirstTruthyCons(b, [c, d, e], fallback);
    assert [a, b, c, d, e] == [a] + [b, c, d, e];
    FirstTruthyCons(a, [b, c, d, e], fallback);
  }

  /** A `??` chain is the first present of its links. */
  lemma CoalesceChain(a: Value, b: Value, c: Value, d: Value, e: Value)
    ensures FirstPresent([a, b, c, d, e]) == Coalesce(a, Coalesce(b, Coalesce(c, Coalesce(d, e))))
    ensures FirstPresent([a, b, c, d]) == Coalesce(a, Coalesce(b, Coalesce(c, d)))
  {
    assert [d, e] == [d] + [e];
    FirstPresentCons(d, [e]);
    assert [c, d, e] == [c] + [d, e];
    FirstPresentCons(c, [d, e]);
    assert [b, c, d, e] == [b] + [c, d, e];
    FirstPresentCons(b, [c, d, e]);
    assert [a, b, c, d, e] == [a] + [b, c, d, e];
    FirstPresentCons(a, [b, c, d, e]);
    assert [c, d] == [c] + [d];
    FirstPresentCons(c, [d]);
    assert [b, c, d] == [b] + [c, d];
    FirstPresentCons(b, [c, d]);
    assert [a, b, c, d] == [a] + [b, c, d];
    FirstPresentCons(a, [b, c, d]);
  }

  /** `mapReportRow`: the date and the item are the first truthy of their fields, income and
      expense the first present of theirs, read as numbers; profit is the given one or
      income minus expense. */
  function MapReportRow(r: ReportRow): (v: ReportView)
    ensures v.date == FirstTruthy([r.date, r.day, r.period, r.ymd, Slice10(r.createdAt)], Str(""))
    ensures v.item == FirstTruthy([r.item, r.name, r.category, r.title, r.caption], Str("—"))
    ensures v.income == ToNum(FirstPresent([r.income, r.revenue, r.total, r.amount, r.totalPrice]), 0)
    ensures v.expense == ToNum(FirstPresent([r.expense, r.cost, r.outcome, Num(Finite(0))]), 0)
    ensures !Nullish(r.profit) ==> v.profit == ToNum(r.profit, 0)
    ensures Nullish(r.profit) ==> v.profit == v.income - v.expense
  {
    var date := Or(r.date, Or(r.day, Or(r.period, Or(r.ymd, Or(Slice10(r.createdAt), Str(""))))));
    var item := Or(r.item, Or(r.name, Or(r.category, Or(r.title, Or(r.caption, Str("—"))))));
    var income := ToNum(Coalesce(r.income, Coalesce(r.revenue, Coalesce(r.total, Coalesce(r.amount, r.totalPrice)))), 0);
    var expense := ToNum(Coalesce(r.expense, Coalesce(r.cost, Coalesce(r.outcome, Num(Finite(0))))), 0);
    var profit := ToNum(Coalesce(r.profit, Num(Finite(income - expense))), 0);
    OrChain(r.date, r.day, r.period, r.ymd, Slice10(r.createdAt), Str(""));
    OrChain(r.item, r.name, r.category, r.title, r.caption, Str("—"));
    CoalesceChain(r.income, r.revenue, r.total, r.amount, r.totalPrice);
    CoalesceChain(r.expense, r.cost, r.outcome, Num(Finite(0)), Undefined);
    ReportView(date, item, income, expense, profit)
  }

  // ---------------------------------------------------------------- rowsFromOrders

  /** A raw order, as far as the fallback reads it. */
  datatype OrderRow = OrderRow(
    date: Value, createdAt: Value, orderDate: Value,
    total: Value, totalPrice: Value, amount: Value, expense: Value, cost: Value)

  const UnknownDate: string := "ไม่ทราบวันที่"
  const DailyItem: string := "สรุปต่อวัน"

  /** The day an order is grouped under: its date, else the first ten characters of its
      creation or order date, else "ไม่ทราบวันที่". */
  function DateKey(o: OrderRow): (k: string)
    ensures k != ""
  {
    var d := Or(o.date, Or(Slice10(o.createdAt), Or(Slice10(o.orderDate), Str(UnknownDate))));
    TruthyText(d);
    ToStr(d)
  }

  /** A truthy value never prints as the empty string. */
  lemma TruthyText(v: Value)
    requires Truthy(v)
    ensures ToStr(v) != ""
  {
    if v.Num? && v.n.Finite? && v.n.x < 0 {
      assert ToStr(v) == "-" + NatToString(-v.n.x);
    }
  }

  function Income(o: OrderRow): int {
    ToNum(Coalesce(o.total, Coalesce(o.totalPrice, Coalesce(o.amount, Num(Finite(0))))), 0)
  }

  function Expense(o: OrderRow): int {
    ToNum(Coalesce(o.expense, Coalesce(o.cost, Num(Finite(0)))), 0)
  }

  /** An order's income is the first present of total, total_price and amount, else 0, and
      its expense the first present of expense and cost, else 0, each read as a number. */
  lemma OrderAmounts(o: OrderRow)
    ensures Income(o) == ToNum(FirstPresent([o.total, o.totalPrice, o.amount, Num(Finite(0))]), 0)
    ensures Expense(o) == ToNum(FirstPresent([o.expense, o.cost, Num(Finite(0))]), 0)
  {
    CoalesceChain(o.total, o.totalPrice, o.amount, Num(Finite(0)), Undefined);
    assert [o.cost, Num(Finite(0))] == [o.cost] + [Num(Finite(0))];
    FirstPresentCons(o.cost, [Num(Finite(0))]);
    assert [o.expense, o.cost, Num(Finite(0))] == [o.expense] + [o.cost, Num(Finite(0))];
    FirstPresentCons(o.expense, [o.cost, Num(Finite(0))]);
  }

  /** The sum of `f` over the orders whose day (as `day` gives it) is `k`. */
  function AmountOn<T>(os: seq<T>, k: string, day: T -> string, f: T -> int): int {
    if os == [] then 0
    else AmountOn(os[..|os| - 1], k, day, f) + (if day(os[|os| - 1]) == k then f(os[|os| - 1]) else 0)
  }

  /** The sum of `f` over all orders. */
  function TotalOf<T>(os: seq<T>, f: T -> int): int {
    if os == [] then 0 else TotalOf(os[..|os| - 1], f) + f(os[|os| - 1])
  }

  /** One more order adds its amount to its own day's sum only. */
  lemma AmountOnSnoc<T>(os: seq<T>, o: T, k: string, day: T -> string, f: T -> int)
    ensures AmountOn(os + [o], k, day, f) == AmountOn(os, k, day, f) + (if day(o) == k then f(o) else 0)
  {
    assert (os + [o])[..|os|] == os;
  }

  /** Strict `<` on strings, character by character. */
  predicate LexLess(a: string, b: string) {
    if a == [] then b != []
    else if b == [] then false
    else if a[0] != b[0] then a[0] < b[0]
    else LexLess(a[1..], b[1..])
  }

  lemma {:induction false} LexTrans(a: string, b: string, c: string)
    requires LexLess(a, b) && LexLess(b, c)
    ensures LexLess(a, c)
  {
    if a != [] && a[0] == b[0] && b[0] == c[0] {
      LexTrans(a[1..], b[1..], c[1..]);
    }
  }

  lemma {:induction false} LexTotal(a: string, b: string)
    requires a != b
    ensures LexLess(a, b) || LexLess(b, a)
  {
    if a != [] && b != [] && a[0] == b[0] {
      assert a == [a[0]] + a[1..] && b == [b[0]] + b[1..];
      LexTotal(a[1..], b[1..]);
    }
  }

  lemma {:induction false} LexIrreflexive(a: string)
    ensures !LexLess(a, a)
  {
    if a != [] {
      LexIrreflexive(a[1..]);
    }
  }

  predicate Ascending(s: seq<string>) {
    forall i, j :: 0 <= i < j < |s| ==> LexLess(s[i], s[j])
  }

  predicate Distinct(s: seq<string>) {
    forall i, j :: 0 <= i < j < |s| ==> s[i] != s[j]
  }

  function InsertKey(x: string, s: seq<string>): seq<string> {
    if s == [] || LexLess(x, s[0]) then [x] + s else [s[0]] + InsertKey(x, s[1..])
  }

  /** The sort with `(a, b) => (a[0] < b[0] ? -1 : 1)` on distinct day keys. */
  function SortKeys(s: seq<string>): seq<string> {
    if s == [] then [] else InsertKey(s[0], SortKeys(s[1..]))
  }

  lemma {:induction false} InsertKeySpec(x: string, s: seq<string>)
    requires Ascending(s) && x !in s
    ensures multiset(InsertKey(x, s)) == multiset(s) + multiset{x}
    ensures Ascending(InsertKey(x, s))
  {
    if s == [] || LexLess(x, s[0]) {
      forall j | 0 < j < |s| ensures LexLess(x, s[j]) {
        LexTrans(x, s[0], s[j]);
      }
    } else {
      LexTotal(x, s[0]);
      var rest := InsertKey(x, s[1..]);
      InsertKeySpec(x, s[1..]);
      assert s == [s[0]] + s[1..];
      forall y | y in rest ensures LexLess(s[0], y) {
        assert y in multiset(rest);
        if y != x {
          assert y in s[1..];
        }
      }
    }
  }

  /** Distinct keys come out ascending, each exactly once. */
  lemma {:induction false} SortKeysSpec(s: seq<string>)
    requires Distinct(s)
    ensures multiset(SortKeys(s)) == multiset(s)
    ensures Ascending(SortKeys(s))
  {
    if s != [] {
      SortKeysSpec(s[1..]);
      assert s == [s[0]] + s[1..];
      assert s[0] !in s[1..] by {
        forall j | 0 <= j < |s[1..]| ensures s[1..][j] != s[0] {
          assert s[1..][j] == s[j + 1];
        }
      }
      assert s[0] !in multiset(SortKeys(s[1..]));
      InsertKeySpec(s[0], SortKeys(s[1..]));
    }
  }

  /** `mapReportRow` of the summary row the fallback builds for one day. */
  function DayRow(key: string, income: int, expense: int): ReportView {
    MapReportRow(ReportRow(Str(key), Undefined, Undefined, Undefined, Undefined,
      Str(DailyItem), Undefined, Undefined, Undefined, Undefined,
      Num(Finite(income)), Undefined, Undefined, Undefined, Undefined,
      Num(Finite(expense)), Undefined, Undefined, Num(Finite(income - expense))))
  }

  lemma DayRowSpec(key: string, income: int, expense: int)
    requires key != ""
    ensures DayRow(key, income, expense) == ReportView(Str(key), Str(DailyItem), income, expense, income - expense)
  {
  }

  function DateOf(v: ReportView): string {
    if v.date.Str? then v.date.s else ""
  }

  /** Each row is the summary row of a day some order falls on, with that day's sums. */
  predicate RowsCarrySums<T(==)>(os: seq<T>, day: T -> string, inc: T -> int, exp: T -> int, rows: seq<ReportView>) {
    forall i :: 0 <= i < |rows| ==>
      && rows[i].date == Str(DateOf(rows[i])) && rows[i].item == Str(DailyItem)
      && (exists o :: o in os && day(o) == DateOf(rows[i]))
      && rows[i].income == AmountOn(os, DateOf(rows[i]), day, inc)
      && rows[i].expense == AmountOn(os, DateOf(rows[i]), day, exp)
      && rows[i].profit == rows[i].income - rows[i].expense
  }

  /** The rows' days ascend strictly, so no day has two rows. */
  predicate RowsAscending(rows: seq<ReportView>) {
    forall i, j :: 0 <= i < j < |rows| ==> LexLess(DateOf(rows[i]), DateOf(rows[j]))
  }

  /** Every order's day has a row. */
  predicate RowsCover<T(==)>(os: seq<T>, day: T -> string, rows: seq<ReportView>) {
    forall o :: o in os ==> exists i :: 0 <= i < |rows| && DateOf(rows[i]) == day(o)
  }

  /** The fallback's rows for a list of orders: one per day any order falls on, in
      ascending day order, each carrying that day's income and expense sums and their
      difference. */
  predicate DayRowsOf(orders: seq<OrderRow>, rows: seq<ReportView>) {
    && RowsCarrySums(orders, DateKey, Income, Expense, rows)
    && RowsAscending(rows)
    && RowsCover(orders, DateKey, rows)
  }

  /** The days the orders fall on. */
  function DaySet<T>(os: seq<T>, day: T -> string): set<string> {
    if os == [] then {} else DaySet(os[..|os| - 1], day) + {day(os[|os| - 1])}
  }

  lemma {:induction false} DaySetMember<T>(os: seq<T>, day: T -> string, k: string)
    ensures k in DaySet(os, day) <==> exists o :: o in os && day(o) == k
  {
    if os != [] {
      var pre := os[..|os| - 1];
      DaySetMember(pre, day, k);
      assert os == pre + [os[|os| - 1]];
      assert forall x :: x in os <==> x in pre || x == os[|os| - 1];
    }
  }

  lemma {:induction false} AmountOnAbsent<T>(os: seq<T>, k: string, day: T -> string, f: T -> int)
    requires k !in DaySet(os, day)
    ensures AmountOn(os, k, day, f) == 0
  {
    if os != [] {
      AmountOnAbsent(os[..|os| - 1], k, day, f);
    }
  }

  /** The map the grouping loop builds, one order at a time. */
  function GroupMap<T>(os: seq<T>, day: T -> string, inc: T -> int, exp: T -> int): map<string, (int, int)> {
    if os == [] then map[]
    else
      var m := GroupMap(os[..|os| - 1], day, inc, exp);
      var o := os[|os| - 1];
      var agg := if day(o) in m then m[day(o)] else (0, 0);
      m[day(o) := (agg.0 + inc(o), agg.1 + exp(o))]
  }

  /** The days of the map in the order the loop first met them (a `Map` keeps insertion order). */
  function KeysOf<T>(os: seq<T>, day: T -> string): seq<string> {
    if os == [] then []
    else
      var ks := KeysOf(os[..|os| - 1], day);
      if day(os[|os| - 1]) in ks then ks else ks + [day(os[|os| - 1])]
  }

  /** The map has an entry, and the key list an element, exactly for the days the orders
      fall on; a day's entry is that day's income and expense sums. */
  lemma {:induction false} GroupMapAt<T>(os: seq<T>, day: T -> string, inc: T -> int, exp: T -> int, k: string)
    ensures k in KeysOf(os, day) <==> k in DaySet(os, day)
    ensures k in GroupMap(os, day, inc, exp) <==> k in DaySet(os, day)
    ensures k in GroupMap(os, day, inc, exp) ==>
      GroupMap(os, day, inc, exp)[k] == (AmountOn(os, k, day, inc), AmountOn(os, k, day, exp))
  {
    if os != [] {
      var pre := os[..|os| - 1];
      var o := os[|os| - 1];
      GroupMapAt(pre, day, inc, exp, k);
      GroupMapAt(pre, day, inc, exp, day(o));
      if k !in DaySet(pre, day) {
        AmountOnAbsent(pre, k, day, inc);
        AmountOnAbsent(pre, k, day, exp);
      }
    }
  }

  /** Each day is listed once. */
  lemma {:induction false} KeysOfDistinct<T>(os: seq<T>, day: T -> string)
    ensures Distinct(KeysOf(os, day))
  {
    if os != [] {
      KeysOfDistinct(os[..|os| - 1], day);
    }
  }

  /** The grouping loop of `rowsFromOrders`: each order's amounts added to its day's entry
      of the map, a new day starting at zero. */
  method GroupByDay<T>(os: seq<T>, day: T -> string, inc: T -> int, exp: T -> int)
    returns (byDate: map<string, (int, int)>, keys: seq<string>)
    ensures byDate == GroupMap(os, day, inc, exp) && keys == KeysOf(os, day)
  {
    byDate := map[];
    keys := [];
    for i := 0 to |os|
      invariant byDate == GroupMap(os[..i], day, inc, exp) && keys == KeysOf(os[..i], day)
    {
      var o := os[i];
      var key := day(o);
      GroupMapAt(os[..i], day, inc, exp, key);
      var agg := if key in byDate then byDate[key] else (0, 0);
      if key !in byDate {
        keys := keys + [key];
      }
      byDate := byDate[key := (agg.0 + inc(o), agg.1 + exp(o))];
      assert os[..i + 1][..i] == os[..i];
    }
    assert os[..|os|] == os;
  }

  /** The summary rows of the days `ks`, in that order. */
  function DayRows(ks: seq<string>, byDate: map<string, (int, int)>): (rows: seq<ReportView>)
    requires forall k :: k in ks ==> k in byDate && k != ""
    ensures |rows| == |ks|
    ensures forall i :: 0 <= i < |ks| ==>
      rows[i] == ReportView(Str(ks[i]), Str(DailyItem), byDate[ks[i]].0, byDate[ks[i]].1, byDate[ks[i]].0 - byDate[ks[i]].1)
  {
    if ks == [] then []
    else
      DayRowSpec(ks[0], byDate[ks[0]].0, byDate[ks[0]].1);
      [DayRow(ks[0], byDate[ks[0]].0, byDate[ks[0]].1)] + DayRows(ks[1..], byDate)
  }

  /** No order falls on the empty day, so no day in the set is empty. */
  lemma {:induction false} DaySetNonEmpty<T>(os: seq<T>, day: T -> string)
    requires forall o :: o in os ==> day(o) != ""
    ensures "" !in DaySet(os, day)
  {
    if os != [] {
      var pre := os[..|os| - 1];
      assert forall o :: o in pre ==> o in os;
      DaySetNonEmpty(pre, day);
      assert os[|os| - 1] in os;
    }
  }

  /** The days of the map, sorted: what `Object.entries(byDate).sort(...)` walks. */
  function SortedDays<T>(os: seq<T>, day: T -> string): seq<string> {
    SortKeys(KeysOf(os, day))
  }

  /** The sorted days are exactly the days the orders fall on, ascending, each with an
      entry in the map. */
  lemma SortedDaysSpec<T>(os: seq<T>, day: T -> string, inc: T -> int, exp: T -> int)
    requires forall o :: o in os ==> day(o) != ""
    ensures forall k :: k in SortedDays(os, day) <==> k in DaySet(os, day)
    ensures forall k :: k in SortedDays(os, day) ==> k in GroupMap(os, day, inc, exp) && k != ""
    ensures Ascending(SortedDays(os, day))
  {
    var keys := KeysOf(os, day);
    KeysOfDistinct(os, day);
    SortKeysSpec(keys);
    DaySetNonEmpty(os, day);
    forall k ensures k in SortKeys(keys) <==> k in DaySet(os, day) {
      assert k in SortKeys(keys) <==> k in multiset(SortKeys(keys));
      GroupMapAt(os, day, inc, exp, k);
    }
  }

  /** Each row of the sorted days carries its day's sums, and the day has an order. */
  lemma DayRowsCarrySums<T>(os: seq<T>, day: T -> string, inc: T -> int, exp: T -> int)
    requires forall o :: o in os ==> day(o) != ""
    ensures forall k :: k in SortedDays(os, day) ==> k in GroupMap(os, day, inc, exp) && k != ""
    ensures RowsCarrySums(os, day, inc, exp, DayRows(SortedDays(os, day), GroupMap(os, day, inc, exp)))
  {
    SortedDaysSpec(os, day, inc, exp);
    var ks := SortedDays(os, day);
    var rows := DayRows(ks, GroupMap(os, day, inc, exp));
    forall i | 0 <= i < |rows|
      ensures && rows[i].date == Str(DateOf(rows[i])) && rows[i].item == Str(DailyItem)
              && (exists o :: o in os && day(o) == DateOf(rows[i]))
              && rows[i].income == AmountOn(os, DateOf(rows[i]), day, inc)
              && rows[i].expense == AmountOn(os, DateOf(rows[i]), day, exp)
              && rows[i].profit == rows[i].income - rows[i].expense
    {
      var k := ks[i];
      assert k in ks;
      GroupMapAt(os, day, inc, exp, k);
      DaySetMember(os, day, k);
      assert DateOf(rows[i]) == k;
    }
  }

  /** The rows of the sorted days ascend strictly by day. */
  lemma DayRowsAscend<T>(os: seq<T>, day: T -> string, inc: T -> int, exp: T -> int)
    requires forall o :: o in os ==> day(o) != ""
    ensures forall k :: k in SortedDays(os, day) ==> k in GroupMap(os, day, inc, exp) && k != ""
    ensures RowsAscending(DayRows(SortedDays(os, day), GroupMap(os, day, inc, exp)))
  {
    SortedDaysSpec(os, day, inc, exp);
  }

  /** Every order's day has a row. */
  lemma DayRowsCover<T>(os: seq<T>, day: T -> string, inc: T -> int, exp: T -> int)
    requires forall o :: o in os ==> day(o) != ""
    ensures forall k :: k in SortedDays(os, day) ==> k in GroupMap(os, day, inc, exp) && k != ""
    ensures RowsCover(os, day, DayRows(SortedDays(os, day), GroupMap(os, day, inc, exp)))
  {
    SortedDaysSpec(os, day, inc, exp);
    var ks := SortedDays(os, day);
    var rows := DayRows(ks, GroupMap(os, day, inc, exp));
    forall o | o in os ensures exists i :: 0 <= i < |rows| && DateOf(rows[i]) == day(o) {
      DaySetMember(os, day, day(o));
      var i :| 0 <= i < |ks| && ks[i] == day(o);
      assert DateOf(rows[i]) == day(o);
    }
  }

  /** Sorting the grouped days and building their rows gives one row per day, ascending,
      with the day's sums. */
  lemma SortedDayRows<T>(os: seq<T>, day: T -> string, inc: T -> int, exp: T -> int)
    requires forall o :: o in os ==> day(o) != ""
    ensures forall k :: k in SortedDays(os, day) ==> k in GroupMap(os, day, inc, exp) && k != ""
    ensures var rows := DayRows(SortedDays(os, day), GroupMap(os, day, inc, exp));
      RowsCarrySums(os, day, inc, exp, rows) && RowsAscending(rows) && RowsCover(os, day, rows)
  {
    DayRowsCarrySums(os, day, inc, exp);
    DayRowsAscend(os, day, inc, exp);
    DayRowsCover(os, day, inc, exp);
  }

  /** `rowsFromOrders`: the orders grouped by day in a map, then the days sorted. */
  method RowsFromOrders(orders: seq<OrderRow>) returns (rows: seq<ReportView>)
    ensures DayRowsOf(orders, rows)
  {
    var byDate, keys := GroupByDay(orders, DateKey, Income, Expense);
    SortedDayRows(orders, DateKey, Income, Expense);
    rows := DayRows(SortKeys(keys), byDate);
    assert SortKeys(keys) == SortedDays(orders, DateKey);
  }

  // ---------------------------------------------------------------- summary

  datatype Summary = Summary(income: int, expense: int, profit: int)

  function SumRows(rows: seq<ReportView>): Summary {
    if rows == [] then Summary(0, 0, 0)
    else
      var s := SumRows(rows[..|rows| - 1]);
      var x := rows[|rows| - 1];
      Summary(s.income + x.income, s.expense + x.expense, s.profit + x.profit)
  }

  /** The `reduce` over the rows into one accumulator, or zeros for no rows. */
  method Summarize(rows: seq<ReportView>) returns (acc: Summary)
    ensures acc == SumRows(rows)
  {
    if |rows| == 0 {
      return Summary(0, 0, 0);
    }
    acc := Summary(0, 0, 0);
    for i := 0 to |rows|
      invariant acc == SumRows(rows[..i])
    {
      var x := rows[i];
      acc := acc.(income := acc.income + x.income, expense := acc.expense + x.expense,
                  profit := acc.profit + x.profit);
      assert rows[..i + 1][..i] == rows[..i];
    }
    assert rows[..|rows|] == rows;
  }

  /** Rows whose profit is income less expense sum to a profit that is income less expense. */
  lemma {:induction false} SummaryProfit(rows: seq<ReportView>)
    requires forall i :: 0 <= i < |rows| ==> rows[i].profit == rows[i].income - rows[i].expense
    ensures SumRows(rows).profit == SumRows(rows).income - SumRows(rows).expense
  {
    if rows != [] {
      SummaryProfit(rows[..|rows| - 1]);
    }
  }

  /** The sum of `f` over the orders of each day in `ks`. */
  function KeySum<T>(os: seq<T>, ks: seq<string>, day: T -> string, f: T -> int): int {
    if ks == [] then 0 else KeySum(os, ks[..|ks| - 1], day, f) + AmountOn(os, ks[|ks| - 1], day, f)
  }

  /** One more order adds its amount to the day sums once when its day is listed. */
  lemma {:induction false} KeySumSnoc<T>(os: seq<T>, o: T, ks: seq<string>, day: T -> string, f: T -> int)
    requires Distinct(ks)
    ensures KeySum(os + [o], ks, day, f) == KeySum(os, ks, day, f) + (if day(o) in ks then f(o) else 0)
  {
    if ks != [] {
      var pre := ks[..|ks| - 1];
      KeySumSnoc(os, o, pre, day, f);
      AmountOnSnoc(os, o, ks[|ks| - 1], day, f);
      assert day(o) in ks <==> day(o) in pre || day(o) == ks[|ks| - 1];
    }
  }

  /** Summing the day sums over days that cover every order gives the sum over all orders. */
  lemma {:induction false} KeySumTotal<T>(os: seq<T>, ks: seq<string>, day: T -> string, f: T -> int)
    requires Distinct(ks)
    requires forall o :: o in os ==> day(o) in ks
    ensures KeySum(os, ks, day, f) == TotalOf(os, f)
  {
    if os == [] {
      KeySumEmpty(ks, day, f);
    } else {
      var pre := os[..|os| - 1];
      assert forall o :: o in pre ==> o in os;
      KeySumTotal(pre, ks, day, f);
      assert pre + [os[|os| - 1]] == os;
      KeySumSnoc(pre, os[|os| - 1], ks, day, f);
    }
  }

  lemma {:induction false} KeySumEmpty<T>(ks: seq<string>, day: T -> string, f: T -> int)
    ensures KeySum([], ks, day, f) == 0
  {
    if ks != [] {
      KeySumEmpty(ks[..|ks| - 1], day, f);
    }
  }

  function Dates(rows: seq<ReportView>): (ks: seq<string>)
    ensures |ks| == |rows| && forall i :: 0 <= i < |rows| ==> ks[i] == DateOf(rows[i])
  {
    if rows == [] then [] else Dates(rows[..|rows| - 1]) + [DateOf(rows[|rows| - 1])]
  }

  lemma {:induction false} RowSumsAreKeySums<T>(os: seq<T>, day: T -> string, inc: T -> int, exp: T -> int,
                                                rows: seq<ReportView>)
    requires RowsCarrySums(os, day, inc, exp, rows)
    ensures SumRows(rows).income == KeySum(os, Dates(rows), day, inc)
    ensures SumRows(rows).expense == KeySum(os, Dates(rows), day, exp)
  {
    if rows != [] {
      var pre := rows[..|rows| - 1];
      RowSumsAreKeySums(os, day, inc, exp, pre);
      assert Dates(rows)[..|rows| - 1] == Dates(pre);
    }
  }

  lemma DatesDistinct(rows: seq<ReportView>)
    requires RowsAscending(rows)
    ensures Distinct(Dates(rows))
  {
    var ks := Dates(rows);
    forall i, j | 0 <= i < j < |ks| ensures ks[i] != ks[j] {
      if ks[i] == ks[j] {
        LexIrreflexive(ks[i]);
      }
    }
  }

  lemma DatesCover<T>(os: seq<T>, day: T -> string, rows: seq<ReportView>)
    requires RowsCover(os, day, rows)
    ensures forall o :: o in os ==> day(o) in Dates(rows)
  {
    var ks := Dates(rows);
    forall o | o in os ensures day(o) in ks {
      var i :| 0 <= i < |rows| && DateOf(rows[i]) == day(o);
      assert ks[i] == day(o);
    }
  }

  /** The fallback summary: its income and expense are the totals over every order, and its
      profit is their difference. */
  lemma FallbackSummary(orders: seq<OrderRow>, rows: seq<ReportView>)
    requires DayRowsOf(orders, rows)
    ensures SumRows(rows).income == TotalOf(orders, Income)
    ensures SumRows(rows).expense == TotalOf(orders, Expense)
    ensures SumRows(rows).profit == SumRows(rows).income - SumRows(rows).expense
  {
    var ks := Dates(rows);
    DatesDistinct(rows);
    DatesCover(orders, DateKey, rows);
    RowSumsAreKeySums(orders, DateKey, Income, Expense, rows);
    assert SumRows(rows).income == TotalOf(orders, Income) by {
      KeySumTotal(orders, ks, DateKey, Income);
    }
    assert SumRows(rows).expense == TotalOf(orders, Expense) by {
      KeySumTotal(orders, ks, DateKey, Expense);
    }
    SummaryProfit(rows);
  }

  /** With a report endpoint, each summary field is the server's when given, else the sum. */
  function ServerSummary(income: Value, expense: Value, profit: Value, sum: Summary): (r: Summary)
    ensures Nullish(income) ==> r.income == sum.income
    ensures Nullish(expense) ==> r.expense == sum.expense
    ensures Nullish(profit) ==> r.profit == sum.profit
    ensures !Nullish(income) ==> r.income == ToNum(income, 0)
    ensures !Nullish(expense) ==> r.expense == ToNum(expense, 0)
    ensures !Nullish(profit) ==> r.profit == ToNum(profit, 0)
  {
    Summary(ToNum(Coalesce(income, Num(Finite(sum.income))), 0),
            ToNum(Coalesce(expense, Num(Finite(sum.expense))), 0),
            ToNum(Coalesce(profit, Num(Finite(sum.profit))), 0))
  }

  // ---------------------------------------------------------------- chart

  datatype Bar = Bar(caption: string, value: int, pct: real)

  /** `x.date?.slice(5) || ""`: the date without its year. */
  function BarCaption(date: Value): string {
    if date.Str? && |date.s| > 5 then date.s[5..] else ""
  }

  /** `Math.max(m, ...values)` */
  function MaxFrom(m: int, rows: seq<ReportView>): (r: int)
    decreases |rows|
    ensures r >= m && forall x :: x in rows ==> x.income <= r
    ensures r == m || exists x :: x in rows && x.income == r
  {
    if rows == [] then m
    else MaxFrom(if rows[0].income > m then rows[0].income else m, rows[1..])
  }

  function Bars(last: seq<ReportView>, max: int): (r: seq<Bar>)
    requires max >= 1
    ensures |r| == |last|
    ensures forall i :: 0 <= i < |last| ==>
      && r[i].value == last[i].income
      && r[i].caption == BarCaption(last[i].date) && r[i].pct == (last[i].income as real / max as real) * 100.0
  {
    if last == [] then []
    else [Bar(BarCaption(last[0].date), last[0].income, (last[0].income as real / max as real) * 100.0)]
         + Bars(last[1..], max)
  }

  /** `chartData`: a bar for each of the last ten rows at most, scaled by the largest income
      and never by less than 1. */
  function ChartData(rows: seq<ReportView>): (r: (seq<Bar>, int))
    ensures var n := if |rows| < 10 then |rows| else 10;
      && |r.0| == n
      && (forall i :: 0 <= i < n ==> r.0[i].value == rows[|rows| - n + i].income)
      && r.1 >= 1
      && (forall i :: 0 <= i < n ==> r.0[i].value <= r.1)
      && r.1 == MaxFrom(1, rows[|rows| - n..])
      && r.0 == Bars(rows[|rows| - n..], r.1)
  {
    var last := rows[|rows| - (if |rows| < 10 then |rows| else 10)..];
    var max := MaxFrom(1, last);
    MaxBoundsEach(last);
    (Bars(last, max), max)
  }

  lemma MaxBoundsEach(rows: seq<ReportView>)
    ensures forall i :: 0 <= i < |rows| ==> rows[i].income <= MaxFrom(1, rows)
  {
    forall i | 0 <= i < |rows| ensures rows[i].income <= MaxFrom(1, rows) {
      assert rows[i] in rows;
    }
  }

  /** No bar is drawn longer than the chart: every percentage is at most 100, and a bar
      with a non-negative income is at least 0. */
  lemma BarsWithinChart(rows: seq<ReportView>)
    ensures forall b :: b in ChartData(rows).0 ==> b.pct <= 100.0 && (b.value >= 0 ==> b.pct >= 0.0)
  {
    var r := ChartData(rows);
    var last := if |rows| <= 10 then rows else rows[|rows| - 10..];
    forall b | b in r.0 ensures b.pct <= 100.0 && (b.value >= 0 ==> b.pct >= 0.0) {
      var i :| 0 <= i < |r.0| && r.0[i] == b;
      assert last[i] in last;
      ScaleBound(b.value, r.1);
    }
  }

  lemma ScaleBound(v: int, max: int)
    requires max >= 1 && v <= max
    ensures (v as real / max as real) * 100.0 <= 100.0
    ensures v >= 0 ==> (v as real / max as real) * 100.0 >= 0.0
  {
    var q := v as real / max as real;
    assert q * (max as real) == v as real;
    assert q <= 1.0;
  }
}
