/** What both table pages read out of a table's label: its first run of digits, the zone
    that number suggests, and the order of tables by that number. */
module TableLabels {
  import opened Js

  /** Labels numbered up to this are placed inside. */
  const InsideMax: nat := 18

  /** The key of a label without digits, `1e9`. */
  const NoNumberKey: nat := 1000000000

  /** The digits at the very start of `s`. */
  function TakeDigits(s: string): (r: string)
    ensures AllDigits(r)
  {
    if s != [] && IsDigit(s[0]) then [s[0]] + TakeDigits(s[1..]) else []
  }

  /** `s.match(/\d+/)?.[0]`: the leftmost maximal run of digits, if any. */
  function FirstDigitRun(s: string): (r: Option<string>)
    ensures r.Some? ==> AllDigits(r.value)
  {
    if s == [] then None
    else if IsDigit(s[0]) then Some(TakeDigits(s))
    else FirstDigitRun(s[1..])
  }

  predicate NoDigits(s: string) {
    forall i :: 0 <= i < |s| ==> !IsDigit(s[i])
  }

  /** `TakeDigits` is the longest all-digit prefix. */
  lemma {:induction false} TakeDigitsSpec(s: string)
    ensures var r := TakeDigits(s);
      && AllDigits(r) && |r| <= |s| && r == s[..|r|]
      && (|r| == |s| || !IsDigit(s[|r|]))
  {
    if s != [] && IsDigit(s[0]) {
      TakeDigitsSpec(s[1..]);
    }
  }

  /** The position of the first digit of `s`, or `|s|` when there is none. */
  function FirstDigitAt(s: string): (k: nat)
    ensures k <= |s|
  {
    if s == [] || IsDigit(s[0]) then 0 else 1 + FirstDigitAt(s[1..])
  }

  /** No digit comes before the first digit position, and the first run is the digits
      taken from there. */
  lemma {:induction false} FirstDigitAtSpec(s: string)
    ensures NoDigits(s[..FirstDigitAt(s)])
    ensures FirstDigitAt(s) < |s| ==> IsDigit(s[FirstDigitAt(s)])
    ensures FirstDigitAt(s) < |s| ==> FirstDigitRun(s) == Some(TakeDigits(s[FirstDigitAt(s)..]))
    ensures FirstDigitAt(s) == |s| ==> FirstDigitRun(s).None?
  {
    if s != [] && !IsDigit(s[0]) {
      var k := FirstDigitAt(s[1..]);
      FirstDigitAtSpec(s[1..]);
      assert s[1..][k..] == s[k + 1..];
      assert s[..k + 1] == [s[0]] + s[1..][..k];
    }
  }

  /** There is no digit run exactly when the label has no digit. */
  lemma FirstDigitRunNone(s: string)
    ensures FirstDigitRun(s).None? <==> NoDigits(s)
  {
    FirstDigitAtSpec(s);
    if FirstDigitAt(s) == |s| {
      assert s[..|s|] == s;
    }
  }

  /** The digits taken from a digit at `k` form the maximal run there. */
  lemma TakeDigitsRunAt(s: string, k: nat)
    requires k < |s| && IsDigit(s[k])
    ensures RunAt(s, k, TakeDigits(s[k..]))
  {
    TakeDigitsSpec(s[k..]);
    var r := TakeDigits(s[k..]);
    forall i | 0 <= i < |r| ensures s[k..k + |r|][i] == r[i] {
      assert r[i] == s[k..][i];
    }
    assert k + |r| < |s| ==> s[k..][|r|] == s[k + |r|];
  }

  /** The first digit run starts at the first digit of the label, is made of digits only,
      and ends at the label's end or before a non-digit. */
  lemma FirstDigitRunSome(s: string)
    requires FirstDigitRun(s).Some?
    ensures exists k :: 0 <= k < |s| && NoDigits(s[..k]) && IsDigit(s[k]) && RunAt(s, k, FirstDigitRun(s).value)
  {
    var k := FirstDigitAt(s);
    FirstDigitAtSpec(s);
    TakeDigitsRunAt(s, k);
  }

  lemma FirstDigitRunSpec(s: string)
    ensures FirstDigitRun(s).None? <==> NoDigits(s)
    ensures FirstDigitRun(s).Some? ==> exists k :: 0 <= k < |s| && NoDigits(s[..k]) && IsDigit(s[k]) && RunAt(s, k, FirstDigitRun(s).value)
  {
    FirstDigitRunNone(s);
    if FirstDigitRun(s).Some? {
      FirstDigitRunSome(s);
    }
  }

  /** `r` is a maximal run of digits of `s` starting at `k`. */
  predicate RunAt(s: string, k: int, r: string) {
    && 0 <= k && k + |r| <= |s| && r != [] && AllDigits(r) && s[k..k + |r|] == r
    && (k + |r| == |s| || !IsDigit(s[k + |r|]))
  }

  /** The first number of a label, `Number(m[1])`. */
  function FirstNumber(s: string): Option<nat> {
    var m := FirstDigitRun(s);
    if m.None? then None else Some(DigitsValue(m.value))
  }

  /** The first number is the value of the first digit run, and there is one exactly when
      the label has a digit. */
  lemma FirstNumberSpec(s: string)
    ensures FirstNumber(s).None? <==> NoDigits(s)
    ensures FirstNumber(s).Some? ==> FirstNumber(s).value == DigitsValue(FirstDigitRun(s).value)
    ensures FirstNumber(s).Some? ==> exists k :: 0 <= k < |s| && NoDigits(s[..k]) && RunAt(s, k, FirstDigitRun(s).value)
  {
    FirstDigitRunSpec(s);
  }

  /** `deriveZoneFromLabel`, with the page's two zone names: a label with no number, or
      whose first number is at most 18, is inside; any other is outside. */
  function DeriveZone(text: string, inside: string, outside: string): string {
    var n := FirstNumber(text);
    if n.None? || n.value <= InsideMax then inside else outside
  }

  /** The derived zone is decided by the first digit run of the label alone: the run at
      position `k` settles it, whatever follows. */
  lemma DeriveZoneByFirstRun(text: string, k: nat, r: string, inside: string, outside: string)
    requires RunAt(text, k, r) && NoDigits(text[..k])
    ensures DeriveZone(text, inside, outside) == if DigitsValue(r) <= InsideMax then inside else outside
  {
    FirstRunUnique(text, k, r);
  }

  /** A label without digits is inside. */
  lemma DeriveZoneWithoutDigits(text: string, inside: string, outside: string)
    requires NoDigits(text)
    ensures DeriveZone(text, inside, outside) == inside
  {
    FirstDigitRunSpec(text);
  }

  /** Only one maximal run can follow a digit-free prefix. */
  lemma {:induction false} FirstRunUnique(s: string, k: nat, r: string)
    requires RunAt(s, k, r) && NoDigits(s[..k])
    ensures FirstDigitRun(s) == Some(r)
  {
    if k == 0 {
      assert IsDigit(s[0]);
      TakeDigitsSpec(s);
      var t := TakeDigits(s);
      assert t == s[..|t|] == r;
    } else {
      assert !IsDigit(s[..k][0]);
      assert s[1..][..k - 1] == s[..k][1..];
      assert s[1..][k - 1..k - 1 + |r|] == s[k..k + |r|];
      FirstRunUnique(s[1..], k - 1, r);
    }
  }

  /** The labels of the page's layout. */
  lemma DeriveZoneExamples()
    ensures DeriveZone("A7", "in", "out") == "in"
    ensures DeriveZone("T18", "in", "out") == "in"
    ensures DeriveZone("B19", "in", "out") == "out"
    ensures DeriveZone("VIP", "in", "out") == "in"
  {
    DeriveZoneByFirstRun("A7", 1, "7", "in", "out");
    assert DigitsValue("18") == 18 by { assert "18"[..1] == "1"; }
    DeriveZoneByFirstRun("T18", 1, "18", "in", "out");
    assert DigitsValue("19") == 19 by { assert "19"[..1] == "1"; }
    DeriveZoneByFirstRun("B19", 1, "19", "in", "out");
    DeriveZoneWithoutDigits("VIP", "in", "out");
  }

  // ---------------------------------------------------------------- ordering

  /** `Number(label.match(/\d+/)?.[0] ?? 1e9)`: the first number, or 1e9 without one. */
  function SortKey(text: string): nat {
    var n := FirstNumber(text);
    if n.Some? then n.value else NoNumberKey
  }

  predicate SortedBy<T>(s: seq<T>, key: T -> int) {
    forall i, j :: 0 <= i < j < |s| ==> key(s[i]) <= key(s[j])
  }

  /** Puts `x` before the first element whose key is not smaller. */
  function Insert<T>(x: T, s: seq<T>, key: T -> int): seq<T> {
    if s == [] || key(x) <= key(s[0]) then [x] + s else [s[0]] + Insert(x, s[1..], key)
  }

  /** The pages' `sort` with the comparator `na - nb`: a stable sort ascending by key. */
  function SortBy<T>(s: seq<T>, key: T -> int): seq<T> {
    if s == [] then [] else Insert(s[0], SortBy(s[1..], key), key)
  }

  lemma {:induction false} InsertMultiset<T>(x: T, s: seq<T>, key: T -> int)
    ensures multiset(Insert(x, s, key)) == multiset(s) + multiset{x}
  {
    if s != [] && key(s[0]) < key(x) {
      InsertMultiset(x, s[1..], key);
      assert s == [s[0]] + s[1..];
    }
  }

  lemma {:induction false} InsertSorted<T>(x: T, s: seq<T>, key: T -> int)
    requires SortedBy(s, key)
    ensures SortedBy(Insert(x, s, key), key)
    ensures forall y :: y in Insert(x, s, key) ==> y == x || y in s
  {
    if s != [] && key(s[0]) < key(x) {
      var rest := Insert(x, s[1..], key);
      InsertSorted(x, s[1..], key);
      forall y | y in rest ensures key(s[0]) <= key(y) {
        if y != x {
          var j :| 0 <= j < |s[1..]| && s[1..][j] == y;
          assert s[j + 1] == y;
        }
      }
      forall i, j | 0 <= i < j < |[s[0]] + rest| ensures key(([s[0]] + rest)[i]) <= key(([s[0]] + rest)[j]) {
        assert ([s[0]] + rest)[j] == rest[j - 1];
        if i > 0 {
          assert ([s[0]] + rest)[i] == rest[i - 1];
        }
      }
      forall y | y in [s[0]] + rest ensures y == x || y in s {
        if y in rest && y != x {
          var j :| 0 <= j < |s[1..]| && s[1..][j] == y;
          assert s[j + 1] == y;
        }
      }
    }
  }

  lemma InsertSpec<T>(x: T, s: seq<T>, key: T -> int)
    requires SortedBy(s, key)
    ensures multiset(Insert(x, s, key)) == multiset(s) + multiset{x}
    ensures SortedBy(Insert(x, s, key), key)
  {
    InsertMultiset(x, s, key);
    InsertSorted(x, s, key);
  }

  /** The ordered tables are the same tables, ascending by key. */
  lemma {:induction false} SortBySpec<T>(s: seq<T>, key: T -> int)
    ensures multiset(SortBy(s, key)) == multiset(s)
    ensures SortedBy(SortBy(s, key), key)
  {
    if s != [] {
      SortBySpec(s[1..], key);
      InsertSpec(s[0], SortBy(s[1..], key), key);
      assert s == [s[0]] + s[1..];
    }
  }

  /** A label with no number sorts after every label whose first number is below 1e9. */
  lemma NumberedBeforeUnnumbered(a: string, b: string)
    requires NoDigits(b) && FirstNumber(a).Some? && FirstNumber(a).value < NoNumberKey
    ensures SortKey(a) < SortKey(b)
  {
    FirstNumberSpec(b);
  }

  /** In a list ordered by a label key, no label without digits comes before a label
      numbered below 1e9. */
  lemma UnnumberedLast<T>(s: seq<T>, text: T -> string)
    ensures var o := SortBy(s, (t: T) => SortKey(text(t)));
      forall i, j :: 0 <= i < j < |o| && NoDigits(text(o[i])) ==>
        !(FirstNumber(text(o[j])).Some? && FirstNumber(text(o[j])).value < NoNumberKey)
  {
    var key := (t: T) => SortKey(text(t));
    var o := SortBy(s, key);
    SortBySpec(s, key);
    forall i, j | 0 <= i < j < |o| && NoDigits(text(o[i]))
      ensures !(FirstNumber(text(o[j])).Some? && FirstNumber(text(o[j])).value < NoNumberKey)
    {
      FirstNumberSpec(text(o[i]));
      assert key(o[i]) <= key(o[j]);
    }
  }
}
