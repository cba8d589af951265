/** Schema introspection used by the order model (backend/models/orderModel.js):
    the memoised column-existence probe and the parser of an `enum('a','b')` column type.
    The catalogue (INFORMATION_SCHEMA) is a fixed value of type SchemaFacts. */
module OrderSchema {
  import opened Js

  /** What the catalogue says: the COLUMN_TYPE of every existing (table, column), and the existing tables. */
  datatype SchemaFacts = SchemaFacts(columnTypes: map<(string, string), string>, tables: set<string>)

  predicate HasColumn(schema: SchemaFacts, table: string, column: string) {
    (table, column) in schema.columnTypes
  }

  /** The memo key `${table}.${column}`. */
  function CacheKey(table: string, column: string): string {
    table + "." + column
  }

  /** Two keys coincide only for the same pair, as long as the table names hold no dot. */
  lemma CacheKeyInjective(t1: string, c1: string, t2: string, c2: string)
    requires '.' !in t1 && '.' !in t2
    requires CacheKey(t1, c1) == CacheKey(t2, c2)
    ensures t1 == t2 && c1 == c2
  {
    var k := CacheKey(t1, c1);
    DotIndexOfKey(t1, c1);
    DotIndexOfKey(t2, c2);
    assert t1 == k[..|t1|] == t2;
    assert c1 == k[|t1| + 1..] == c2;
  }

  /** The position of the first dot, or |s| when there is none. */
  function DotIndex(s: string): (i: nat)
    ensures i <= |s|
  {
    if s == [] || s[0] == '.' then 0 else 1 + DotIndex(s[1..])
  }

  lemma {:induction false} DotIndexOfKey(t: string, c: string)
    requires '.' !in t
    ensures DotIndex(CacheKey(t, c)) == |t|
  {
    if t != [] {
      assert CacheKey(t, c)[1..] == CacheKey(t[1..], c);
      DotIndexOfKey(t[1..], c);
    }
  }

  /** The process-wide `_colCache` map of columnExists. */
  class ColumnCache {
    var cache: map<string, bool>

    constructor ()
      ensures cache == map[]
    {
      cache := map[];
    }

    /** Every cached answer about a table whose name holds no dot is the catalogue's answer. */
    ghost predicate Sound(schema: SchemaFacts)
      reads this
    {
      forall t, c :: '.' !in t && CacheKey(t, c) in cache ==> cache[CacheKey(t, c)] == HasColumn(schema, t, c)
    }

    /** columnExists: answer from the memo when the key is there, otherwise query the catalogue
        (`queried`) and remember the answer. */
    method ColumnExists(schema: SchemaFacts, table: string, column: string) returns (ok: bool, queried: bool)
      modifies this
      ensures CacheKey(table, column) in old(cache) ==>
                !queried && ok == old(cache)[CacheKey(table, column)] && cache == old(cache)
      ensures CacheKey(table, column) !in old(cache) ==>
                queried && ok == HasColumn(schema, table, column) && cache == old(cache)[CacheKey(table, column) := ok]
      ensures old(Sound(schema)) && '.' !in table ==> Sound(schema) && ok == HasColumn(schema, table, column)
    {
      var key := CacheKey(table, column);
      if key in cache {
        return cache[key], false;
      }
      ok := HasColumn(schema, table, column);
      queried := true;
      cache := cache[key := ok];
      if old(Sound(schema)) && '.' !in table {
        forall t, c | '.' !in t && CacheKey(t, c) in cache
          ensures cache[CacheKey(t, c)] == HasColumn(schema, t, c)
        {
          if CacheKey(t, c) == key {
            CacheKeyInjective(t, c, table, column);
          }
        }
      }
    }
  }

  // ---------------------------------------------------------------- enum column types

  /** The text between the parentheses when `type` matches `/^enum\((.+)\)$/i`. */
  function EnumBody(colType: string): (r: Option<string>)
    ensures r.Some? ==> r.value != [] && forall i :: 0 <= i < |r.value| ==> !IsLineTerminator(r.value[i])
  {
    if |colType| >= 7 && Lower(colType[..5]) == "enum(" && colType[|colType| - 1] == ')'
       && (forall i :: 5 <= i < |colType| - 1 ==> !IsLineTerminator(colType[i]))
    then Some(colType[5..|colType| - 1])
    else None
  }

  function QuoteCount(s: string): nat {
    if s == [] then 0 else (if s[0] == '\'' then 1 else 0) + QuoteCount(s[1..])
  }

  /** The separator of `split(/,(?=(?:[^']*'[^']*')*[^']*$)/)`: a comma followed by an even number of quotes. */
  predicate SplitsAt(s: string, i: nat)
    requires i < |s|
  {
    s[i] == ',' && QuoteCount(s[i + 1..]) % 2 == 0
  }

  /** The first separator at or after `from`, or |s| if there is none. */
  function FirstSplit(s: string, from: nat): (i: nat)
    requires from <= |s|
    ensures from <= i <= |s|
    ensures i < |s| ==> SplitsAt(s, i)
    ensures forall j :: from <= j < i ==> !SplitsAt(s, j)
    decreases |s| - from
  {
    if from == |s| then |s| else if SplitsAt(s, from) then from else FirstSplit(s, from + 1)
  }

  /** The pieces between separators, left to right. */
  function SplitTopLevel(s: string): (r: seq<string>)
    ensures r != []
    decreases |s|
  {
    var i := FirstSplit(s, 0);
    if i == |s| then [s] else [s[..i]] + SplitTopLevel(s[i + 1..])
  }

  /** `s.trim().replace(/^'(.*)'$/, "$1")` */
  function StripQuotes(s: string): string {
    var t := Trim(s);
    if |t| >= 2 && t[0] == '\'' && t[|t| - 1] == '\''
       && (forall i :: 1 <= i < |t| - 1 ==> !IsLineTerminator(t[i]))
    then t[1..|t| - 1]
    else t
  }

  function MapStripQuotes(pieces: seq<string>): (r: seq<string>)
    ensures |r| == |pieces|
    ensures forall i :: 0 <= i < |pieces| ==> r[i] == StripQuotes(pieces[i])
  {
    if pieces == [] then [] else [StripQuotes(pieces[0])] + MapStripQuotes(pieces[1..])
  }

  /** getEnumOptions: the literals of an enum column, or [] when the column is missing or not an enum. */
  function GetEnumOptions(schema: SchemaFacts, table: string, column: string): (r: seq<string>)
    ensures !HasColumn(schema, table, column) ==> r == []
    ensures HasColumn(schema, table, column) && EnumBody(schema.columnTypes[(table, column)]).None? ==> r == []
  {
    if (table, column) !in schema.columnTypes then []
    else
      match EnumBody(schema.columnTypes[(table, column)])
      case None => []
      case Some(body) => MapStripQuotes(SplitTopLevel(body))
  }

  // ---------------------------------------------------------------- the round trip

  /** A literal as MySQL writes it in a column type. */
  function Quote(v: string): string {
    "'" + v + "'"
  }

  function JoinQuoted(vs: seq<string>): string
    requires vs != []
  {
    if |vs| == 1 then Quote(vs[0]) else Quote(vs[0]) + "," + JoinQuoted(vs[1..])
  }

  /** The COLUMN_TYPE text of `enum('v1','v2',...)`. */
  function EnumColumnType(vs: seq<string>): string
    requires vs != []
  {
    "enum(" + JoinQuoted(vs) + ")"
  }

  /** A value the enum syntax can carry without escaping. */
  predicate PlainLiteral(v: string) {
    forall i :: 0 <= i < |v| ==> v[i] != '\'' && !IsLineTerminator(v[i])
  }

  lemma {:induction false} QuoteCountAppend(a: string, b: string)
    ensures QuoteCount(a + b) == QuoteCount(a) + QuoteCount(b)
  {
    if a == [] {
      assert a + b == b;
    } else {
      assert (a + b)[1..] == a[1..] + b;
      QuoteCountAppend(a[1..], b);
    }
  }

  lemma {:induction false} QuoteCountPlain(v: string)
    requires PlainLiteral(v)
    ensures QuoteCount(v) == 0
  {
    if v != [] {
      QuoteCountPlain(v[1..]);
    }
  }

  lemma QuoteCountQuoted(v: string)
    requires PlainLiteral(v)
    ensures QuoteCount(Quote(v)) == 2
  {
    QuoteCountAppend("'" + v, "'");
    QuoteCountAppend("'", v);
    QuoteCountPlain(v);
  }

  lemma {:induction false} QuoteCountJoin(vs: seq<string>)
    requires vs != [] && forall i :: 0 <= i < |vs| ==> PlainLiteral(vs[i])
    ensures QuoteCount(JoinQuoted(vs)) == 2 * |vs|
  {
    QuoteCountQuoted(vs[0]);
    if |vs| > 1 {
      QuoteCountJoin(vs[1..]);
      QuoteCountAppend(Quote(vs[0]) + ",", JoinQuoted(vs[1..]));
      QuoteCountAppend(Quote(vs[0]), ",");
    }
  }

  /** Inside a quoted literal that is followed by `tail`, no comma is a separator when `tail` holds
      an even number of quotes. */
  lemma NoSplitInsideQuote(v: string, tail: string, j: nat)
    requires PlainLiteral(v) && QuoteCount(tail) % 2 == 0
    requires j < |Quote(v)|
    ensures !SplitsAt(Quote(v) + tail, j)
  {
    var s := Quote(v) + tail;
    if 1 <= j <= |v| && s[j] == ',' {
      assert s[j + 1..] == v[j..] + "'" + tail;
      QuoteCountAppend(v[j..] + "'", tail);
      QuoteCountAppend(v[j..], "'");
      QuoteCountPlain(v[j..]);
    }
  }

  lemma SplitAfterQuote(v: string, rest: string)
    requires PlainLiteral(v) && QuoteCount(rest) % 2 == 0
    ensures FirstSplit(Quote(v) + "," + rest, 0) == |Quote(v)|
  {
    var s := Quote(v) + "," + rest;
    assert s == Quote(v) + ("," + rest);
    QuoteCountAppend(",", rest);
    forall j | 0 <= j < |Quote(v)| ensures !SplitsAt(s, j) {
      NoSplitInsideQuote(v, "," + rest, j);
    }
    assert s[|Quote(v)| + 1..] == rest;
    assert SplitsAt(s, |Quote(v)|);
  }

  lemma NoSplitInLastQuote(v: string)
    requires PlainLiteral(v)
    ensures FirstSplit(Quote(v), 0) == |Quote(v)|
  {
    var s := Quote(v);
    assert s == Quote(v) + "";
    forall j | 0 <= j < |s| ensures !SplitsAt(s, j) {
      NoSplitInsideQuote(v, "", j);
    }
  }

  lemma {:induction false} SplitJoinQuoted(vs: seq<string>)
    requires vs != [] && forall i :: 0 <= i < |vs| ==> PlainLiteral(vs[i])
    ensures |SplitTopLevel(JoinQuoted(vs))| == |vs|
    ensures forall i :: 0 <= i < |vs| ==> SplitTopLevel(JoinQuoted(vs))[i] == Quote(vs[i])
  {
    if |vs| == 1 {
      NoSplitInLastQuote(vs[0]);
    } else {
      var rest := JoinQuoted(vs[1..]);
      QuoteCountJoin(vs[1..]);
      SplitAfterQuote(vs[0], rest);
      var s := JoinQuoted(vs);
      assert s[..|Quote(vs[0])|] == Quote(vs[0]);
      assert s[|Quote(vs[0])| + 1..] == rest;
      SplitJoinQuoted(vs[1..]);
    }
  }

  lemma StripQuotesOfQuote(v: string)
    requires PlainLiteral(v)
    ensures StripQuotes(Quote(v)) == v
  {
    var q := Quote(v);
    assert q[0] == '\'' && q[|q| - 1] == '\'';
    assert !IsSpace('\'');
    assert Trimmed(q);
    assert Trim(q) == q;
    assert q[1..|q| - 1] == v;
    forall i | 1 <= i < |q| - 1 ensures !IsLineTerminator(q[i]) {
      assert q[i] == v[i - 1];
    }
  }

  /** getEnumOptions reads back, in declaration order and without quotes, exactly the literals an
      enum column type was written with. */
  lemma EnumOptionsRoundTrip(schema: SchemaFacts, table: string, column: string, vs: seq<string>)
    requires vs != [] && forall i :: 0 <= i < |vs| ==> PlainLiteral(vs[i])
    requires (table, column) in schema.columnTypes && schema.columnTypes[(table, column)] == EnumColumnType(vs)
    ensures GetEnumOptions(schema, table, column) == vs
  {
    var body := JoinQuoted(vs);
    var ty := EnumColumnType(vs);
    assert ty[..5] == "enum(";
    assert NoUpper("enum(");
    LowerOfNoUpper("enum(");
    assert ty[5..|ty| - 1] == body;
    forall i | 5 <= i < |ty| - 1 ensures !IsLineTerminator(ty[i]) {
      JoinQuotedNoLineTerminator(vs, i - 5);
    }
    assert EnumBody(ty) == Some(body);
    SplitJoinQuoted(vs);
    forall i | 0 <= i < |vs| ensures MapStripQuotes(SplitTopLevel(body))[i] == vs[i] {
      StripQuotesOfQuote(vs[i]);
    }
  }

  lemma {:induction false} JoinQuotedNoLineTerminator(vs: seq<string>, k: nat)
    requires vs != [] && forall i :: 0 <= i < |vs| ==> PlainLiteral(vs[i])
    requires k < |JoinQuoted(vs)|
    ensures !IsLineTerminator(JoinQuoted(vs)[k])
  {
    var q := Quote(vs[0]);
    if |vs| > 1 && k > |q| {
      var s := JoinQuoted(vs);
      assert s[k] == JoinQuoted(vs[1..])[k - |q| - 1];
      JoinQuotedNoLineTerminator(vs[1..], k - |q| - 1);
    }
  }
}
