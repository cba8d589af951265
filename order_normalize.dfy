/** The two pure normalisers of backend/models/orderModel.js: the item type of an order line and
    the payment method written to the `payments.method` column. */
module OrderNormalize {
  import opened Js

  // ---------------------------------------------------------------- item types

  const DrinkAliases: seq<string> := ["drink", "drinks", "beverage"]
  const SnackAliases: seq<string> := ["snack", "snacks"]
  const MainDishAliases: seq<string> := ["main_dish", "main", "maindish", "food", "foods", "main-dish", "main dish"]

  /** normalizeType: the alias lists map onto drink / snack / main_dish, a blank type is a drink,
      and any other type is kept trimmed and lower-cased. The caller always passes a string. */
  function NormalizeType(raw: string): (r: string)
    ensures Canon(raw) in DrinkAliases ==> r == "drink"
    ensures Canon(raw) in SnackAliases ==> r == "snack"
    ensures Canon(raw) in MainDishAliases ==> r == "main_dish"
    ensures Canon(raw) == "" ==> r == "drink"
    ensures Canon(raw) !in DrinkAliases + SnackAliases + MainDishAliases && Canon(raw) != "" ==> r == Canon(raw)
  {
    var t := Canon(raw);
    if t in DrinkAliases then "drink"
    else if t in SnackAliases then "snack"
    else if t in MainDishAliases then "main_dish"
    else if t != "" then t
    else "drink"
  }

  /** Every result of normalizeType is already in canonical form... */
  lemma NormalizeTypeCanonical(raw: string)
    ensures Canon(NormalizeType(raw)) == NormalizeType(raw)
  {
    CanonIdempotent(raw);
    CanonicalTypeNames();
  }

  lemma CanonicalTypeNames()
    ensures Canon("drink") == "drink" && Canon("snack") == "snack" && Canon("main_dish") == "main_dish"
  {
    DrinkCanonical();
    SnackCanonical();
    MainDishCanonical();
  }

  lemma DrinkCanonical() ensures Canon("drink") == "drink" {
    assert NoUpper("drink") && Trimmed("drink");
    CanonOfPlain("drink");
  }

  lemma SnackCanonical() ensures Canon("snack") == "snack" {
    assert NoUpper("snack") && Trimmed("snack");
    CanonOfPlain("snack");
  }

  lemma MainDishCanonical() ensures Canon("main_dish") == "main_dish" {
    assert NoUpper("main_dish") && Trimmed("main_dish");
    CanonOfPlain("main_dish");
  }

  /** ... and normalising it again changes nothing. */
  lemma NormalizeTypeIdempotent(raw: string)
    ensures NormalizeType(NormalizeType(raw)) == NormalizeType(raw)
  {
    NormalizeTypeCanonical(raw);
    var r := NormalizeType(raw);
    assert "drink" in DrinkAliases;
    assert "snack" in SnackAliases;
    assert "main_dish" in MainDishAliases;
  }

  /** A category the aliases do not know survives, trimmed and lower-cased, instead of
      becoming a drink. */
  lemma NormalizeTypeKeepsUnknown()
    ensures NormalizeType(" dessert ") == "dessert"
  {
    CanonOfPaddedDessert();
    assert "dessert" !in DrinkAliases + SnackAliases + MainDishAliases;
  }

  lemma CanonOfPaddedDessert()
    ensures Canon(" dessert ") == "dessert"
  {
    assert TrimStart(" dessert ") == "dessert ";
    assert TrimEnd("dessert ") == "dessert";
    assert NoUpper("dessert");
    LowerOfNoUpper("dessert");
  }

  // ---------------------------------------------------------------- payment methods

  /** One synonym group of payment methods. */
  datatype MethodGroup = MethodGroup(key: string, aliases: seq<string>)

  /** The synonym table normalizeMethod is written with. */
  const Groups: seq<MethodGroup> := [
    MethodGroup("cash", ["cash", "เงินสด"]),
    MethodGroup("card", ["card", "credit", "บัตร", "บัตรเครดิต"]),
    MethodGroup("transfer", ["transfer", "โอน", "โอนเงิน", "bank", "bank transfer"]),
    MethodGroup("qr", ["qr", "qr code", "คิวอาร์", "คิวอาร์โค้ด"]),
    MethodGroup("promptpay", ["promptpay", "พร้อมเพย์", "pp"])
  ]

  /** `g.aliases.some(a => a.toLowerCase() === val)` */
  predicate AliasMatches(aliases: seq<string>, val: string) {
    exists a :: a in aliases && Lower(a) == val
  }

  /** The key of the last group in `gs` with a matching alias, as the `for` loop leaves `groupKey`. */
  function LastGroupKey(gs: seq<MethodGroup>, val: string): (r: Option<string>)
    ensures r.Some? ==> exists i :: 0 <= i < |gs| && gs[i].key == r.value && AliasMatches(gs[i].aliases, val)
    ensures r.None? ==> forall i :: 0 <= i < |gs| ==> !AliasMatches(gs[i].aliases, val)
  {
    if gs == [] then None
    else if AliasMatches(gs[|gs| - 1].aliases, val) then Some(gs[|gs| - 1].key)
    else LastGroupKey(gs[..|gs| - 1], val)
  }

  /** `groups.find(x => x.key === groupKey)` */
  function FindGroup(gs: seq<MethodGroup>, key: string): (r: Option<MethodGroup>)
    ensures r.Some? ==> r.value in gs && r.value.key == key
    ensures r.None? ==> forall g :: g in gs ==> g.key != key
  {
    if gs == [] then None else if gs[0].key == key then Some(gs[0]) else FindGroup(gs[1..], key)
  }

  /** `options.find(o => o.toLowerCase() === v)` */
  function FindLowerEq(options: seq<string>, v: string): (r: Option<string>)
    ensures r.Some? ==> exists i :: 0 <= i < |options| && options[i] == r.value && Lower(r.value) == v
                                    && forall j :: 0 <= j < i ==> Lower(options[j]) != v
    ensures r.None? ==> forall o :: o in options ==> Lower(o) != v
  {
    if options == [] then None
    else if Lower(options[0]) == v then Some(options[0])
    else
      var r := FindLowerEq(options[1..], v);
      if r.Some? then
        var i :| 0 <= i < |options[1..]| && options[1..][i] == r.value && Lower(r.value) == v
                 && forall j :: 0 <= j < i ==> Lower(options[1..][j]) != v;
        assert options[i + 1] == r.value;
        assert forall j :: 0 <= j < i + 1 ==> Lower(options[j]) != v by {
          forall j | 0 <= j < i + 1 ensures Lower(options[j]) != v {
            if j > 0 { assert options[j] == options[1..][j - 1]; }
          }
        }
        r
      else r
  }

  /** `options.find(o => aliases.includes(o.toLowerCase()))` */
  function FindLowerIn(options: seq<string>, aliases: seq<string>): (r: Option<string>)
    ensures r.Some? ==> r.value in options && Lower(r.value) in aliases
    ensures r.Some? ==> exists i :: 0 <= i < |options| && options[i] == r.value
                                    && forall j :: 0 <= j < i ==> Lower(options[j]) !in aliases
    ensures r.None? ==> forall o :: o in options ==> Lower(o) !in aliases
  {
    if options == [] then None
    else if Lower(options[0]) in aliases then Some(options[0])
    else
      var r := FindLowerIn(options[1..], aliases);
      if r.Some? then
        var i :| 0 <= i < |options[1..]| && options[1..][i] == r.value
                 && forall j :: 0 <= j < i ==> Lower(options[1..][j]) !in aliases;
        assert options[i + 1] == r.value;
        assert forall j :: 0 <= j < i + 1 ==> Lower(options[j]) !in aliases by {
          forall j | 0 <= j < i + 1 ensures Lower(options[j]) !in aliases {
            if j > 0 { assert options[j] == options[1..][j - 1]; }
          }
        }
        r
      else r
  }

  /** `hit ? hit : fallback`: a find result that is the empty string is falsy. */
  function TruthyOr(hit: Option<string>, fallback: Option<string>): Option<string> {
    if hit.Some? && hit.value != "" then hit else fallback
  }

  /** normalizeMethod over the synonym table `gs`. Without enum options the raw input is passed
      through (null when empty); otherwise a recognised synonym prefers the option spelled as its
      group key, then an option that is itself a synonym of the group, and anything else must
      match an option directly, ignoring case. */
  function NormalizeMethodIn(gs: seq<MethodGroup>, input: string, options: seq<string>): (r: Option<string>)
    ensures options == [] ==> r == (if input == "" then None else Some(input))
    ensures options != [] && r.Some? ==> r.value in options && r.value != ""
  {
    var val := Canon(input);
    if options == [] then
      if input == "" then None else Some(input)
    else
      var directHit := TruthyOr(FindLowerEq(options, val), None);
      match LastGroupKey(gs, val)
      case None => directHit
      case Some(k) =>
        var hit1 := FindLowerEq(options, k);
        match FindGroup(gs, k)
        case None => TruthyOr(hit1, directHit)
        case Some(g) =>
          var hit2 := FindLowerIn(options, g.aliases);
          TruthyOr(hit1, TruthyOr(hit2, directHit))
  }

  /** normalizeMethod(input, enumOptions) */
  function NormalizeMethod(input: string, options: seq<string>): (r: Option<string>)
    ensures options == [] ==> r == (if input == "" then None else Some(input))
    ensures options != [] && r.Some? ==> r.value in options && r.value != ""
  {
    NormalizeMethodIn(Groups, input, options)
  }

  // ---------------------------------------------------------------- well-formed synonym tables

  /** Each group lists its own key; synonyms are non-empty, lower case and trimmed; no synonym is
      in two groups. */
  predicate WellFormedGroups(gs: seq<MethodGroup>) {
    KeysListed(gs) && AliasesPlain(gs) && AliasesDisjoint(gs)
  }

  predicate KeysListed(gs: seq<MethodGroup>) {
    forall i :: 0 <= i < |gs| ==> gs[i].key in gs[i].aliases && "" !in gs[i].aliases
  }

  predicate AliasesPlain(gs: seq<MethodGroup>) {
    forall i, a :: 0 <= i < |gs| && a in gs[i].aliases ==> NoUpper(a) && Trimmed(a)
  }

  predicate AliasesDisjoint(gs: seq<MethodGroup>) {
    forall i, j, a :: 0 <= i < |gs| && 0 <= j < |gs| && a in gs[i].aliases && a in gs[j].aliases ==> i == j
  }

  /** A synonym as the table must spell it: non-empty, no capitals, no surrounding blanks. */
  predicate Plain(s: string) {
    s != "" && NoUpper(s) && Trimmed(s)
  }

  predicate AllPlain(ss: seq<string>) {
    forall k :: 0 <= k < |ss| ==> Plain(ss[k])
  }

  /** Two synonym lists share no spelling. */
  predicate Apart(xs: seq<string>, ys: seq<string>) {
    forall p, q :: 0 <= p < |xs| && 0 <= q < |ys| ==> xs[p] != ys[q]
  }

  lemma CashPlain() ensures AllPlain(Groups[0].aliases) {
    assert Plain("cash") && Plain("เงินสด");
  }

  lemma CardPlain() ensures AllPlain(Groups[1].aliases) {
    assert Plain("card") && Plain("credit") && Plain("บัตร") && Plain("บัตรเครดิต");
  }

  lemma TransferPlain() ensures AllPlain(Groups[2].aliases) {
    assert Plain("transfer") && Plain("โอน") && Plain("โอนเงิน") && Plain("bank") && Plain("bank transfer");
  }

  lemma QrPlain() ensures AllPlain(Groups[3].aliases) {
    assert Plain("qr") && Plain("qr code") && Plain("คิวอาร์") && Plain("คิวอาร์โค้ด");
  }

  lemma PromptPayPlain() ensures AllPlain(Groups[4].aliases) {
    assert Plain("promptpay") && Plain("พร้อมเพย์") && Plain("pp");
  }

  /** Every synonym in the source's table is spelled plainly. */
  lemma GroupsPlain(i: int)
    requires 0 <= i < |Groups|
    ensures AllPlain(Groups[i].aliases)
  {
    if i == 0 { CashPlain(); }
    else if i == 1 { CardPlain(); }
    else if i == 2 { TransferPlain(); }
    else if i == 3 { QrPlain(); }
    else { PromptPayPlain(); }
  }

  lemma CashApart() ensures forall j :: 1 <= j < |Groups| ==> Apart(Groups[0].aliases, Groups[j].aliases) {}
  lemma CardApart() ensures forall j :: 2 <= j < |Groups| ==> Apart(Groups[1].aliases, Groups[j].aliases) {}
  lemma TransferApart() ensures forall j :: 3 <= j < |Groups| ==> Apart(Groups[2].aliases, Groups[j].aliases) {}
  lemma QrApart() ensures Apart(Groups[3].aliases, Groups[4].aliases) {}

  /** No spelling is listed under two groups of the source's table. */
  lemma GroupsApart(i: int, j: int)
    requires 0 <= i < j < |Groups|
    ensures Apart(Groups[i].aliases, Groups[j].aliases)
  {
    if i == 0 { CashApart(); }
    else if i == 1 { CardApart(); }
    else if i == 2 { TransferApart(); }
    else { QrApart(); }
  }

  /** The table in the source is well formed. */
  lemma GroupsWellFormed()
    ensures WellFormedGroups(Groups)
  {
    GroupsListKeys();
    GroupsPlainAliases();
    GroupsDisjoint();
  }

  lemma GroupsListKeys()
    ensures KeysListed(Groups)
  {
    forall i | 0 <= i < |Groups|
      ensures |Groups[i].aliases| > 0 && Groups[i].key == Groups[i].aliases[0] && AllPlain(Groups[i].aliases)
    {
      GroupsPlain(i);
    }
    KeysListedFrom(Groups);
  }

  lemma GroupsPlainAliases()
    ensures AliasesPlain(Groups)
  {
    forall i | 0 <= i < |Groups| ensures AllPlain(Groups[i].aliases) {
      GroupsPlain(i);
    }
    AliasesPlainFrom(Groups);
  }

  lemma GroupsDisjoint()
    ensures AliasesDisjoint(Groups)
  {
    forall i, j | 0 <= i < j < |Groups| ensures Apart(Groups[i].aliases, Groups[j].aliases) {
      GroupsApart(i, j);
    }
    AliasesDisjointFrom(Groups);
  }

  /** A table whose groups open with their key and spell every synonym plainly lists its keys. */
  lemma KeysListedFrom(gs: seq<MethodGroup>)
    requires forall i :: 0 <= i < |gs| ==> |gs[i].aliases| > 0 && gs[i].key == gs[i].aliases[0] && AllPlain(gs[i].aliases)
    ensures KeysListed(gs)
  {
    forall i | 0 <= i < |gs| ensures gs[i].key in gs[i].aliases && "" !in gs[i].aliases {
      assert forall k :: 0 <= k < |gs[i].aliases| ==> Plain(gs[i].aliases[k]);
    }
  }

  lemma AliasesPlainFrom(gs: seq<MethodGroup>)
    requires forall i :: 0 <= i < |gs| ==> AllPlain(gs[i].aliases)
    ensures AliasesPlain(gs)
  {
    forall i, a | 0 <= i < |gs| && a in gs[i].aliases ensures NoUpper(a) && Trimmed(a) {
      var k :| 0 <= k < |gs[i].aliases| && gs[i].aliases[k] == a;
      assert Plain(gs[i].aliases[k]);
    }
  }

  lemma AliasesDisjointFrom(gs: seq<MethodGroup>)
    requires forall i, j :: 0 <= i < j < |gs| ==> Apart(gs[i].aliases, gs[j].aliases)
    ensures AliasesDisjoint(gs)
  {
    forall i, j, a | 0 <= i < |gs| && 0 <= j < |gs| && a in gs[i].aliases && a in gs[j].aliases
      ensures i == j
    {
      var p :| 0 <= p < |gs[i].aliases| && gs[i].aliases[p] == a;
      var q :| 0 <= q < |gs[j].aliases| && gs[j].aliases[q] == a;
    }
  }

  /** Since synonyms are lower case, matching them case-insensitively is membership. */
  lemma AliasMatchesIsMembership(gs: seq<MethodGroup>, i: int, val: string)
    requires WellFormedGroups(gs) && 0 <= i < |gs|
    ensures AliasMatches(gs[i].aliases, val) <==> val in gs[i].aliases
  {
    if val in gs[i].aliases {
      LowerOfNoUpper(val);
    }
    if AliasMatches(gs[i].aliases, val) {
      var a :| a in gs[i].aliases && Lower(a) == val;
      LowerOfNoUpper(a);
    }
  }

  /** A synonym selects its own group, and that group is the one found again by key. */
  lemma GroupKeyOfAlias(gs: seq<MethodGroup>, i: int, val: string)
    requires WellFormedGroups(gs) && 0 <= i < |gs| && val in gs[i].aliases
    ensures LastGroupKey(gs, val) == Some(gs[i].key)
    ensures FindGroup(gs, gs[i].key) == Some(gs[i])
  {
    AliasMatchesIsMembership(gs, i, val);
    var k := LastGroupKey(gs, val);
    var j :| 0 <= j < |gs| && gs[j].key == k.value && AliasMatches(gs[j].aliases, val);
    AliasMatchesIsMembership(gs, j, val);
    var g := FindGroup(gs, gs[i].key).value;
    var m :| 0 <= m < |gs| && gs[m] == g;
    assert gs[i].key in gs[m].aliases;
  }

  /** Either `val` is a synonym of one group, whose key is found, or no group matches. */
  lemma GroupKeyCases(gs: seq<MethodGroup>, val: string)
    requires WellFormedGroups(gs)
    ensures LastGroupKey(gs, val).None? ==> forall i :: 0 <= i < |gs| ==> val !in gs[i].aliases
    ensures LastGroupKey(gs, val).Some? ==> exists i :: 0 <= i < |gs| && val in gs[i].aliases
  {
    var k := LastGroupKey(gs, val);
    if k.None? {
      forall i | 0 <= i < |gs| ensures val !in gs[i].aliases {
        AliasMatchesIsMembership(gs, i, val);
      }
    } else {
      var j :| 0 <= j < |gs| && gs[j].key == k.value && AliasMatches(gs[j].aliases, val);
      AliasMatchesIsMembership(gs, j, val);
    }
  }

  // ---------------------------------------------------------------- properties of normalizeMethod

  /** When the input is a synonym of group `i` and the column has options, the answer is the first
      option spelled as the key if there is one, otherwise an option that is a synonym of the
      group, and null when the options hold no synonym of the group. */
  lemma NormalizeMethodGroupedIn(gs: seq<MethodGroup>, input: string, options: seq<string>, i: int)
    requires WellFormedGroups(gs) && options != [] && 0 <= i < |gs| && Canon(input) in gs[i].aliases
    ensures var r := NormalizeMethodIn(gs, input, options);
            && (r.Some? ==> Lower(r.value) in gs[i].aliases)
            && ((exists o :: o in options && Lower(o) == gs[i].key) ==> r.Some? && Lower(r.value) == gs[i].key)
            && ((forall o :: o in options ==> Lower(o) !in gs[i].aliases) ==> r.None?)
            && ((exists o :: o in options && Lower(o) == gs[i].key) ==> r == FindLowerEq(options, gs[i].key))
            && ((forall o :: o in options ==> Lower(o) != gs[i].key) && (exists o :: o in options && Lower(o) in gs[i].aliases) ==>
                  r.Some? && r == FindLowerIn(options, gs[i].aliases))
  {
    var val := Canon(input);
    var g := gs[i];
    GroupKeyOfAlias(gs, i, val);
    var hit1 := FindLowerEq(options, g.key);
    var hit2 := FindLowerIn(options, g.aliases);
    var direct := FindLowerEq(options, val);
    assert NormalizeMethodIn(gs, input, options) == TruthyOr(hit1, TruthyOr(hit2, TruthyOr(direct, None)));
    if exists o :: o in options && Lower(o) == g.key {
      assert hit1.Some?;
    }
  }

  /** For a synonym of group `i`, the three lookups in the order the source tries them. */
  lemma GroupedUnfold(gs: seq<MethodGroup>, input: string, options: seq<string>, i: int)
    requires WellFormedGroups(gs) && options != [] && 0 <= i < |gs| && Canon(input) in gs[i].aliases
    ensures NormalizeMethodIn(gs, input, options)
         == TruthyOr(FindLowerEq(options, gs[i].key),
                     TruthyOr(FindLowerIn(options, gs[i].aliases),
                              TruthyOr(FindLowerEq(options, Canon(input)), None)))
  {
    GroupKeyOfAlias(gs, i, Canon(input));
  }

  /** All synonyms of one group give the same answer. */
  lemma AliasesNormalizeAlikeIn(gs: seq<MethodGroup>, a: string, b: string, options: seq<string>, i: int)
    requires WellFormedGroups(gs) && options != [] && 0 <= i < |gs|
    requires Canon(a) in gs[i].aliases && Canon(b) in gs[i].aliases
    ensures NormalizeMethodIn(gs, a, options) == NormalizeMethodIn(gs, b, options)
  {
    GroupedUnfold(gs, a, options, i);
    GroupedUnfold(gs, b, options, i);
    SynonymFallbacksAgree(options, gs[i].aliases, Canon(a), Canon(b));
  }

  /** Past the key lookup, two synonyms of one group fall back alike: to the group's synonym
      lookup, or, when no option is a synonym, to no direct match either. */
  lemma SynonymFallbacksAgree(options: seq<string>, aliases: seq<string>, va: string, vb: string)
    requires va in aliases && vb in aliases && "" !in aliases
    ensures TruthyOr(FindLowerIn(options, aliases), TruthyOr(FindLowerEq(options, va), None))
         == TruthyOr(FindLowerIn(options, aliases), TruthyOr(FindLowerEq(options, vb), None))
  {
    var hit := FindLowerIn(options, aliases);
    if hit.Some? {
      assert Lower(hit.value) in aliases;
    } else {
      DirectMissesGroup(options, aliases, va);
      DirectMissesGroup(options, aliases, vb);
    }
  }

  lemma DirectMissesGroup(options: seq<string>, aliases: seq<string>, val: string)
    requires val in aliases && FindLowerIn(options, aliases).None?
    ensures FindLowerEq(options, val).None?
  {
    forall o | o in options ensures Lower(o) != val {
      assert Lower(o) !in aliases;
    }
  }

  /** An input no group knows can only match an option directly, ignoring case. */
  lemma NormalizeMethodUngroupedIn(gs: seq<MethodGroup>, input: string, options: seq<string>)
    requires WellFormedGroups(gs) && options != []
    requires forall i :: 0 <= i < |gs| ==> Canon(input) !in gs[i].aliases
    ensures var r := NormalizeMethodIn(gs, input, options);
            && (r.Some? ==> Lower(r.value) == Canon(input))
            && (Canon(input) != "" ==> (r.Some? <==> exists o :: o in options && Lower(o) == Canon(input)))
  {
    GroupKeyCases(gs, Canon(input));
  }

  /** What normalizeMethod returns normalises to itself against the same options. */
  lemma NormalizeMethodIdempotentIn(gs: seq<MethodGroup>, input: string, options: seq<string>)
    requires WellFormedGroups(gs) && NormalizeMethodIn(gs, input, options).Some?
    ensures NormalizeMethodIn(gs, NormalizeMethodIn(gs, input, options).value, options) == NormalizeMethodIn(gs, input, options)
  {
    var m := NormalizeMethodIn(gs, input, options).value;
    if options != [] {
      var val := Canon(input);
      GroupKeyCases(gs, val);
      if i :| 0 <= i < |gs| && val in gs[i].aliases {
        NormalizeMethodGroupedIn(gs, input, options, i);
        // m is a synonym of the group up to case, and a synonym is already trimmed
        LowerKeepsSpaces(m);
        assert Canon(m) in gs[i].aliases;
        AliasesNormalizeAlikeIn(gs, input, m, options, i);
      } else {
        NormalizeMethodUngroupedIn(gs, input, options);
        assert Lower(m) == val;
        LowerKeepsSpaces(Trim(input));
        LowerKeepsSpaces(m);
        assert Trimmed(m);
        assert Trim(m) == m;
        assert Canon(m) == val;
      }
    }
  }

  // ---------------------------------------------------------------- the same, for the source's table

  lemma NormalizeMethodGrouped(input: string, options: seq<string>, i: int)
    requires options != [] && 0 <= i < |Groups| && Canon(input) in Groups[i].aliases
    ensures var r := NormalizeMethod(input, options);
            && (r.Some? ==> Lower(r.value) in Groups[i].aliases)
            && ((exists o :: o in options && Lower(o) == Groups[i].key) ==> r.Some? && Lower(r.value) == Groups[i].key)
            && ((forall o :: o in options ==> Lower(o) !in Groups[i].aliases) ==> r.None?)
            && ((exists o :: o in options && Lower(o) == Groups[i].key) ==> r == FindLowerEq(options, Groups[i].key))
            && ((forall o :: o in options ==> Lower(o) != Groups[i].key) && (exists o :: o in options && Lower(o) in Groups[i].aliases) ==>
                  r.Some? && r == FindLowerIn(options, Groups[i].aliases))
  {
    GroupsWellFormed();
    NormalizeMethodGroupedIn(Groups, input, options, i);
  }

  lemma AliasesNormalizeAlike(a: string, b: string, options: seq<string>, i: int)
    requires options != [] && 0 <= i < |Groups|
    requires Canon(a) in Groups[i].aliases && Canon(b) in Groups[i].aliases
    ensures NormalizeMethod(a, options) == NormalizeMethod(b, options)
  {
    GroupsWellFormed();
    AliasesNormalizeAlikeIn(Groups, a, b, options, i);
  }

  lemma NormalizeMethodUngrouped(input: string, options: seq<string>)
    requires options != [] && forall i :: 0 <= i < |Groups| ==> Canon(input) !in Groups[i].aliases
    ensures var r := NormalizeMethod(input, options);
            && (r.Some? ==> Lower(r.value) == Canon(input))
            && (Canon(input) != "" ==> (r.Some? <==> exists o :: o in options && Lower(o) == Canon(input)))
  {
    GroupsWellFormed();
    NormalizeMethodUngroupedIn(Groups, input, options);
  }

  lemma NormalizeMethodIdempotent(input: string, options: seq<string>)
    requires NormalizeMethod(input, options).Some?
    ensures NormalizeMethod(NormalizeMethod(input, options).value, options) == NormalizeMethod(input, options)
  {
    GroupsWellFormed();
    NormalizeMethodIdempotentIn(Groups, input, options);
  }

  /** With both spellings of cash in the enum, the Thai spelling is stored as "cash": an enum
      value is not always kept as it was given. */
  lemma ThaiCashPrefersKey()
    ensures NormalizeMethod("เงินสด", ["cash", "เงินสด"]) == Some("cash")
  {
    var options := ["cash", "เงินสด"];
    CashSynonyms();
    GroupedUnfold(Groups, "เงินสด", options, 0);
    FirstOptionIsCash(options);
  }

  lemma CashSynonyms()
    ensures WellFormedGroups(Groups) && Groups[0].key == "cash" && Canon("เงินสด") in Groups[0].aliases
  {
    GroupsWellFormed();
    assert "เงินสด" in Groups[0].aliases;
    assert Canon("เงินสด") == "เงินสด";
  }

  lemma FirstOptionIsCash(options: seq<string>)
    requires options != [] && options[0] == "cash"
    ensures FindLowerEq(options, "cash") == Some("cash")
  {
    assert NoUpper("cash");
    LowerOfNoUpper("cash");
  }
}
