/** The SQL both controllers run against production and prices: the inner
    join that every income figure uses, the left join of the production
    listing, and the grouping by (month, product). Every query is scoped by
    `p.farm_id = $1`, compared as SQL compares (a NULL farm matches nothing). */
module Queries {
  import opened Values
  import opened Tables
  import opened Relational

  /** `ON pr.product = p.product AND pr.farm_id = p.farm_id`. */
  predicate PriceApplies(pr: PriceRow, p: ProductionRow) {
    pr.product == p.product && SqlEq(pr.farmId, p.farmId)
  }

  /** The price rows the join pairs with production row `p`. */
  function MatchingPrices(prices: seq<PriceRow>, p: ProductionRow): (r: seq<PriceRow>)
    ensures forall i :: 0 <= i < |r| ==> r[i] in prices && PriceApplies(r[i], p)
    ensures forall i :: 0 <= i < |prices| && PriceApplies(prices[i], p) ==> prices[i] in r
    ensures r == [] <==> forall i :: 0 <= i < |prices| ==> !PriceApplies(prices[i], p)
  {
    if prices == [] then []
    else
      var r := (if PriceApplies(prices[0], p) then [prices[0]] else []) + MatchingPrices(prices[1..], p);
      assert (forall i :: 0 <= i < |prices| ==> !PriceApplies(prices[i], p)) <==>
               !PriceApplies(prices[0], p) &&
               forall i :: 0 <= i < |prices[1..]| ==> !PriceApplies(prices[1..][i], p) by {
        forall i | 0 < i < |prices| ensures prices[1..][i - 1] == prices[i] {
        }
      }
      r
  }

  /** With at most one price per (product, farm), a production row has at most one price. */
  lemma {:induction false} AtMostOnePrice(prices: seq<PriceRow>, p: ProductionRow)
    requires UniquePrices(prices)
    ensures |MatchingPrices(prices, p)| <= 1
  {
    if prices != [] {
      AtMostOnePrice(prices[1..], p);
      if PriceApplies(prices[0], p) {
        forall i | 0 <= i < |prices[1..]| ensures !PriceApplies(prices[1..][i], p) {
          assert prices[1..][i] == prices[i + 1];
        }
      }
    }
  }

  /** One row of `production p JOIN prices pr`. */
  datatype Joined = Joined(row: ProductionRow, price: PriceRow)

  /** `p.quantity * pr.price`. */
  function Income(j: Joined): real {
    j.row.quantity * j.price.price
  }

  function Pair(p: ProductionRow, prs: seq<PriceRow>): seq<Joined> {
    seq(|prs|, i requires 0 <= i < |prs| => Joined(p, prs[i]))
  }

  /** `FROM production p JOIN prices pr ON ... WHERE p.farm_id = $1`. */
  function InnerJoin(production: seq<ProductionRow>, prices: seq<PriceRow>, farm: FarmRef): seq<Joined> {
    if production == [] then []
    else
      (if SqlEq(production[0].farmId, farm) then Pair(production[0], MatchingPrices(prices, production[0])) else [])
      + InnerJoin(production[1..], prices, farm)
  }

  /** The inner join holds exactly the pairs of a production row of the
      caller's farm with a price row for the same product and farm. */
  lemma {:induction false} InnerJoinMembers(production: seq<ProductionRow>, prices: seq<PriceRow>,
                                            farm: FarmRef, j: Joined)
    ensures j in InnerJoin(production, prices, farm) <==>
              j.row in production && SqlEq(j.row.farmId, farm) &&
              j.price in prices && PriceApplies(j.price, j.row)
  {
    if production != [] {
      InnerJoinMembers(production[1..], prices, farm, j);
      var p := production[0];
      var head := if SqlEq(p.farmId, farm) then Pair(p, MatchingPrices(prices, p)) else [];
      assert InnerJoin(production, prices, farm) == head + InnerJoin(production[1..], prices, farm);
      assert production == [p] + production[1..];
      if j in head {
        var i :| 0 <= i < |head| && head[i] == j;
        assert MatchingPrices(prices, p)[i] == j.price;
      }
      if j.row == p && SqlEq(j.row.farmId, farm) && j.price in prices && PriceApplies(j.price, j.row) {
        var m := MatchingPrices(prices, p);
        var i :| 0 <= i < |prices| && prices[i] == j.price;
        assert j.price in m;
        var k :| 0 <= k < |m| && m[k] == j.price;
        assert head[k] == j;
      }
    }
  }

  lemma {:induction false} InnerJoinConcat(a: seq<ProductionRow>, b: seq<ProductionRow>,
                                           prices: seq<PriceRow>, farm: FarmRef)
    ensures InnerJoin(a + b, prices, farm) == InnerJoin(a, prices, farm) + InnerJoin(b, prices, farm)
  {
    if a == [] {
      assert a + b == b;
    } else {
      assert (a + b)[0] == a[0] && (a + b)[1..] == a[1..] + b;
      InnerJoinConcat(a[1..], b, prices, farm);
    }
  }

  /** A production row without a price row for its product on its farm
      adds nothing to the inner join, so to no income figure. */
  lemma UnpricedRowIgnored(production: seq<ProductionRow>, p: ProductionRow, prices: seq<PriceRow>,
                           farm: FarmRef)
    requires forall i :: 0 <= i < |prices| ==> !PriceApplies(prices[i], p)
    ensures InnerJoin(production + [p], prices, farm) == InnerJoin(production, prices, farm)
  {
    InnerJoinConcat(production, [p], prices, farm);
    assert InnerJoin([p], prices, farm) == [] + InnerJoin([], prices, farm);
  }

  /** The rows of the caller's farm. */
  function OwnRows(production: seq<ProductionRow>, farm: FarmRef): seq<ProductionRow> {
    Filter(production, (p: ProductionRow) => SqlEq(p.farmId, farm))
  }

  /** The price rows of the caller's farm. */
  function OwnPrices(prices: seq<PriceRow>, farm: FarmRef): seq<PriceRow> {
    Filter(prices, (pr: PriceRow) => SqlEq(pr.farmId, farm))
  }

  lemma {:induction false} MatchingOwnPrices(prices: seq<PriceRow>, p: ProductionRow, farm: FarmRef)
    requires SqlEq(p.farmId, farm)
    ensures MatchingPrices(OwnPrices(prices, farm), p) == MatchingPrices(prices, p)
  {
    if prices != [] {
      MatchingOwnPrices(prices[1..], p, farm);
      var h := if SqlEq(prices[0].farmId, farm) then [prices[0]] else [];
      assert OwnPrices(prices, farm) == h + OwnPrices(prices[1..], farm);
      MatchingConcat(h, OwnPrices(prices[1..], farm), p);
    }
  }

  lemma {:induction false} MatchingConcat(a: seq<PriceRow>, b: seq<PriceRow>, p: ProductionRow)
    ensures MatchingPrices(a + b, p) == MatchingPrices(a, p) + MatchingPrices(b, p)
  {
    if a == [] {
      assert a + b == b;
    } else {
      assert (a + b)[0] == a[0] && (a + b)[1..] == a[1..] + b;
      MatchingConcat(a[1..], b, p);
    }
  }

  /** Tenant isolation: the join for a farm sees only that farm's production
      and price rows; rows of any other farm (and rows with a NULL farm) make
      no difference. */
  lemma {:induction false} InnerJoinIsolated(production: seq<ProductionRow>, prices: seq<PriceRow>,
                                             farm: FarmRef)
    ensures InnerJoin(production, prices, farm) ==
              InnerJoin(OwnRows(production, farm), OwnPrices(prices, farm), farm)
  {
    if production != [] {
      InnerJoinIsolated(production[1..], prices, farm);
      var p := production[0];
      assert OwnRows(production, farm) ==
               (if SqlEq(p.farmId, farm) then [p] else []) + OwnRows(production[1..], farm);
      InnerJoinConcat(if SqlEq(p.farmId, farm) then [p] else [], OwnRows(production[1..], farm),
                      OwnPrices(prices, farm), farm);
      if SqlEq(p.farmId, farm) {
        MatchingOwnPrices(prices, p, farm);
        assert InnerJoin([p], OwnPrices(prices, farm), farm) ==
                 Pair(p, MatchingPrices(prices, p)) + InnerJoin([], OwnPrices(prices, farm), farm);
      }
    }
  }

  /** One row of the production listing: the stored columns plus the
      current price and `quantity * price`, both null when unpriced. */
  datatype Listed = Listed(id: int, product: string, quantity: real, unit: string, date: Date,
                           notes: Option<string>, userId: int, price: Option<real>,
                           income: Option<real>)

  function ListedAs(p: ProductionRow, price: Option<real>): Listed {
    Listed(p.id, p.product, p.quantity, p.unit, p.date, p.notes, p.userId, price,
           if price.Some? then Some(p.quantity * price.value) else None)
  }

  function ListPriced(p: ProductionRow, prs: seq<PriceRow>): seq<Listed> {
    seq(|prs|, i requires 0 <= i < |prs| => ListedAs(p, Some(prs[i].price)))
  }

  /** `FROM production p LEFT JOIN prices pr ON ... WHERE p.farm_id = $1`. */
  function LeftJoin(production: seq<ProductionRow>, prices: seq<PriceRow>, farm: FarmRef): seq<Listed> {
    if production == [] then []
    else
      var p := production[0];
      var m := MatchingPrices(prices, p);
      (if !SqlEq(p.farmId, farm) then [] else if m == [] then [ListedAs(p, None)] else ListPriced(p, m))
      + LeftJoin(production[1..], prices, farm)
  }

  /** The price of production row `p`, if its farm has one for its product. */
  function PriceOf(prices: seq<PriceRow>, p: ProductionRow): Option<real> {
    var m := MatchingPrices(prices, p);
    if m == [] then None else Some(m[0].price)
  }

  /** With one price per (product, farm), a production row of the farm is
      listed once, with its price or with none. */
  lemma LeftJoinCons(production: seq<ProductionRow>, prices: seq<PriceRow>, farm: FarmRef)
    requires UniquePrices(prices) && production != []
    ensures LeftJoin(production, prices, farm) ==
            (if SqlEq(production[0].farmId, farm) then [ListedAs(production[0], PriceOf(prices, production[0]))] else [])
            + LeftJoin(production[1..], prices, farm)
  {
    AtMostOnePrice(prices, production[0]);
  }

  lemma OwnRowsCons(production: seq<ProductionRow>, farm: FarmRef)
    requires production != []
    ensures OwnRows(production, farm) ==
            (if SqlEq(production[0].farmId, farm) then [production[0]] else []) + OwnRows(production[1..], farm)
  {
  }

  /** With one price per (product, farm), the listing has exactly one row per
      production row of the farm, in the same order, priced when a price
      exists and with null price and income otherwise. */
  lemma {:induction false} LeftJoinListsEveryRow(production: seq<ProductionRow>, prices: seq<PriceRow>,
                                                 farm: FarmRef)
    requires UniquePrices(prices)
    ensures |LeftJoin(production, prices, farm)| == |OwnRows(production, farm)|
    ensures forall i :: 0 <= i < |OwnRows(production, farm)| ==>
              LeftJoin(production, prices, farm)[i] ==
                ListedAs(OwnRows(production, farm)[i], PriceOf(prices, OwnRows(production, farm)[i]))
  {
    if production != [] {
      LeftJoinListsEveryRow(production[1..], prices, farm);
      var p := production[0];
      LeftJoinCons(production, prices, farm);
      OwnRowsCons(production, farm);
      var own := OwnRows(production, farm);
      var rest := OwnRows(production[1..], farm);
      var listed := LeftJoin(production, prices, farm);
      var tail := LeftJoin(production[1..], prices, farm);
      if SqlEq(p.farmId, farm) {
        assert own == [p] + rest && listed == [ListedAs(p, PriceOf(prices, p))] + tail;
        forall i | 0 < i < |own| ensures listed[i] == ListedAs(own[i], PriceOf(prices, own[i])) {
          assert own[i] == rest[i - 1] && listed[i] == tail[i - 1];
        }
      } else {
        assert own == rest && listed == tail;
      }
    }
  }

  /** A grouping key: `TO_CHAR(p.date, 'YYYY-MM')` and `p.product`. */
  function KeyOf(j: Joined): (Month, string) {
    (MonthOf(j.row.date), j.row.product)
  }

  function WithKey(js: seq<Joined>, k: (Month, string)): seq<Joined> {
    Filter(js, (j: Joined) => KeyOf(j) == k)
  }

  function WithoutKey(js: seq<Joined>, k: (Month, string)): seq<Joined> {
    Filter(js, (j: Joined) => KeyOf(j) != k)
  }

  function InMonth(js: seq<Joined>, m: Month): seq<Joined> {
    Filter(js, (j: Joined) => MonthOf(j.row.date) == m)
  }

  function OnDay(js: seq<Joined>, d: Date): seq<Joined> {
    Filter(js, (j: Joined) => j.row.date == d)
  }

  /** One row of `GROUP BY month, p.product` with `SUM(p.quantity * pr.price)`. */
  datatype MonthProductTotal = MonthProductTotal(month: Month, product: string, total: real)

  function GroupKey(g: MonthProductTotal): (Month, string) {
    (g.month, g.product)
  }

  /** `GROUP BY month, p.product`: one row per key present, in order of first
      appearance (the ORDER BY is applied afterwards). */
  function GroupBy(js: seq<Joined>): (groups: seq<MonthProductTotal>)
    decreases |js|
  {
    if js == [] then []
    else
      var k := KeyOf(js[0]);
      var rest := WithoutKey(js, k);
      assert |rest| < |js| by {
        assert rest == Filter(js[1..], (j: Joined) => KeyOf(j) != k);
      }
      [MonthProductTotal(k.0, k.1, Sum(WithKey(js, k), Income))] + GroupBy(rest)
  }

  /** Some group has key `k`. */
  predicate HasGroup(gs: seq<MonthProductTotal>, k: (Month, string)) {
    exists i :: 0 <= i < |gs| && GroupKey(gs[i]) == k
  }

  /** Some joined row has key `k`. */
  predicate HasRow(js: seq<Joined>, k: (Month, string)) {
    exists i :: 0 <= i < |js| && KeyOf(js[i]) == k
  }

  /** The first group has the first row's key; the others are the groups of
      the rows with a different key. */
  lemma GroupByUnfold(js: seq<Joined>)
    requires js != []
    ensures |WithoutKey(js, KeyOf(js[0]))| < |js|
    ensures GroupKey(GroupBy(js)[0]) == KeyOf(js[0])
    ensures GroupBy(js)[1..] == GroupBy(WithoutKey(js, KeyOf(js[0])))
  {
    var k0 := KeyOf(js[0]);
    assert WithoutKey(js, k0) == Filter(js[1..], (j: Joined) => KeyOf(j) != k0);
  }

  /** Every group's key is the key of some joined row. */
  lemma {:induction false} GroupHasRow(js: seq<Joined>, k: (Month, string))
    requires HasGroup(GroupBy(js), k)
    ensures HasRow(js, k)
    decreases |js|
  {
    var k0 := KeyOf(js[0]);
    if k != k0 {
      GroupByUnfold(js);
      var rest := WithoutKey(js, k0);
      var gs := GroupBy(js);
      var i :| 0 <= i < |gs| && GroupKey(gs[i]) == k;
      assert GroupBy(rest)[i - 1] == gs[i];
      assert HasGroup(GroupBy(rest), k);
      GroupHasRow(rest, k);
      var t :| 0 <= t < |rest| && KeyOf(rest[t]) == k;
      var u :| 0 <= u < |js| && js[u] == rest[t];
    }
  }

  /** Every joined row's key has a group. */
  lemma {:induction false} RowHasGroup(js: seq<Joined>, k: (Month, string))
    requires HasRow(js, k)
    ensures HasGroup(GroupBy(js), k)
    decreases |js|
  {
    GroupByUnfold(js);
    var k0 := KeyOf(js[0]);
    var gs := GroupBy(js);
    if k == k0 {
      assert GroupKey(gs[0]) == k;
    } else {
      var rest := WithoutKey(js, k0);
      var i :| 0 <= i < |js| && KeyOf(js[i]) == k;
      assert js[i] in rest;
      var t :| 0 <= t < |rest| && rest[t] == js[i];
      assert HasRow(rest, k);
      RowHasGroup(rest, k);
      var g :| 0 <= g < |GroupBy(rest)| && GroupKey(GroupBy(rest)[g]) == k;
      assert gs[g + 1] == GroupBy(rest)[g];
    }
  }

  /** The groups formed after the first key's rows are removed all have
      other keys. */
  lemma RestGroupsAvoidKey(js: seq<Joined>, k0: (Month, string))
    ensures forall g :: 0 <= g < |GroupBy(WithoutKey(js, k0))| ==>
              GroupKey(GroupBy(WithoutKey(js, k0))[g]) != k0
  {
    var rest := WithoutKey(js, k0);
    forall g | 0 <= g < |GroupBy(rest)| ensures GroupKey(GroupBy(rest)[g]) != k0 {
      var k := GroupKey(GroupBy(rest)[g]);
      assert HasGroup(GroupBy(rest), k);
      GroupHasRow(rest, k);
      var t :| 0 <= t < |rest| && KeyOf(rest[t]) == k;
    }
  }

  /** No two groups share a key. */
  lemma {:induction false} GroupKeysDistinct(js: seq<Joined>)
    ensures forall a, b :: 0 <= a < b < |GroupBy(js)| ==> GroupKey(GroupBy(js)[a]) != GroupKey(GroupBy(js)[b])
    decreases |js|
  {
    if js != [] {
      var k0 := KeyOf(js[0]);
      var rest := WithoutKey(js, k0);
      GroupByUnfold(js);
      GroupKeysDistinct(rest);
      RestGroupsAvoidKey(js, k0);
      var gs := GroupBy(js);
      forall a, b | 0 <= a < b < |gs| ensures GroupKey(gs[a]) != GroupKey(gs[b]) {
        assert gs[b] == GroupBy(rest)[b - 1];
        if a > 0 {
          assert gs[a] == GroupBy(rest)[a - 1];
        }
      }
    }
  }

  /** Each group's total is the sum of income over the joined rows with its key. */
  lemma {:induction false} GroupTotals(js: seq<Joined>)
    ensures forall g :: 0 <= g < |GroupBy(js)| ==>
              GroupBy(js)[g].total == Sum(WithKey(js, GroupKey(GroupBy(js)[g])), Income)
    decreases |js|
  {
    if js != [] {
      var k0 := KeyOf(js[0]);
      var rest := WithoutKey(js, k0);
      assert |rest| < |js| by {
        assert rest == Filter(js[1..], (j: Joined) => KeyOf(j) != k0);
      }
      GroupTotals(rest);
      GroupKeysDistinct(js);
      var gs := GroupBy(js);
      assert gs == [MonthProductTotal(k0.0, k0.1, Sum(WithKey(js, k0), Income))] + GroupBy(rest);
      assert GroupKey(gs[0]) == k0;
      forall g | 0 < g < |gs| ensures gs[g].total == Sum(WithKey(js, GroupKey(gs[g])), Income) {
        var k := GroupKey(gs[g]);
        assert gs[g] == GroupBy(rest)[g - 1];
        assert k != k0;
        FilterCommute(js, (j: Joined) => KeyOf(j) != k0, (j: Joined) => KeyOf(j) == k);
        FilterAll(WithKey(js, k), (j: Joined) => KeyOf(j) != k0);
      }
    }
  }

  function GroupTotal(g: MonthProductTotal): real {
    g.total
  }

  /** Grouping loses no income: the group totals add up to the income of all joined rows. */
  lemma {:induction false} GroupByPreservesIncome(js: seq<Joined>)
    ensures Sum(GroupBy(js), GroupTotal) == Sum(js, Income)
    decreases |js|
  {
    if js != [] {
      var k0 := KeyOf(js[0]);
      var rest := WithoutKey(js, k0);
      assert rest == Filter(js[1..], (j: Joined) => KeyOf(j) != k0);
      GroupByPreservesIncome(rest);
      assert GroupBy(js)[1..] == GroupBy(rest);
      SumPartition(js, (j: Joined) => KeyOf(j) == k0, (j: Joined) => KeyOf(j) != k0, Income);
    }
  }

  /** The total of month `m` contributed by a group (0 for other months). */
  function MonthShare(m: Month): MonthProductTotal -> real {
    (g: MonthProductTotal) => if g.month == m then g.total else 0.0
  }

  /** The rows of month `m` with key `k0` are all rows of key `k0` when `k0`
      is in month `m`, and none otherwise. */
  lemma HeadGroupInMonth(js: seq<Joined>, k0: (Month, string), m: Month)
    ensures Sum(Filter(InMonth(js, m), (j: Joined) => KeyOf(j) == k0), Income) ==
            MonthShare(m)(MonthProductTotal(k0.0, k0.1, Sum(WithKey(js, k0), Income)))
  {
    var inKey := (j: Joined) => KeyOf(j) == k0;
    var inMonth := (j: Joined) => MonthOf(j.row.date) == m;
    FilterCommute(js, inMonth, inKey);
    if k0.0 == m {
      FilterAll(WithKey(js, k0), inMonth);
    } else {
      FilterNone(WithKey(js, k0), inMonth);
    }
  }

  lemma RestInMonth(js: seq<Joined>, k0: (Month, string), m: Month)
    ensures Filter(InMonth(js, m), (j: Joined) => KeyOf(j) != k0) == InMonth(WithoutKey(js, k0), m)
  {
    FilterCommute(js, (j: Joined) => MonthOf(j.row.date) == m, (j: Joined) => KeyOf(j) != k0);
  }

  /** The groups of month `m` add up to the income of that month's joined rows. */
  lemma {:induction false} GroupByMonthIncome(js: seq<Joined>, m: Month)
    ensures Sum(GroupBy(js), MonthShare(m)) == Sum(InMonth(js, m), Income)
    decreases |js|
  {
    if js != [] {
      var k0 := KeyOf(js[0]);
      GroupByUnfold(js);
      GroupByMonthIncome(WithoutKey(js, k0), m);
      SumPartition(InMonth(js, m), (j: Joined) => KeyOf(j) == k0, (j: Joined) => KeyOf(j) != k0, Income);
      HeadGroupInMonth(js, k0, m);
      RestInMonth(js, k0, m);
    }
  }

  /** ORDER BY month ASC, product ASC. */
  function MonthProductKey(g: MonthProductTotal): seq<int> {
    [g.month.year, g.month.month] + TextKey(g.product)
  }

}
