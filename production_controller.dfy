/** The production handlers (backend/controllers/productionController.js).
    Every query is scoped to the caller's farm, `req.user.farm_id`; the
    income figures inner-join the farm's prices, so unpriced rows count for
    nothing, while the listing left-joins them. The current date is a
    parameter. */
module ProductionController {
  import opened Values
  import opened Tables
  import opened Relational
  import opened Queries
  import opened MonthlyIncome
  import opened AuthMiddleware

  /* ---------- getProduction ---------- */

  /** Chronological order of dates. */
  predicate DateLe(a: Date, b: Date) {
    a.year < b.year || (a.year == b.year && (a.month < b.month || (a.month == b.month && a.day <= b.day)))
  }

  /** ORDER BY p.date DESC. */
  function DateDescKey(l: Listed): seq<int> {
    [-l.date.year, -l.date.month, -l.date.day]
  }

  lemma NewerFirst(x: Listed, y: Listed)
    requires KeyLe(DateDescKey(x), DateDescKey(y))
    ensures DateLe(y.date, x.date)
  {
    var kx, ky := DateDescKey(x), DateDescKey(y);
    KeyLeStep(kx, ky);
    KeyLeStep(kx[1..], ky[1..]);
    KeyLeStep(kx[1..][1..], ky[1..][1..]);
  }

  /** The listing: every production row of the farm, newest date first, with
      its price and income when its product is priced. */
  function GetProduction(production: seq<ProductionRow>, prices: seq<PriceRow>, user: Identity)
    : (rows: seq<Listed>)
    ensures forall i, j :: 0 <= i < j < |rows| ==> DateLe(rows[j].date, rows[i].date)
    ensures multiset(rows) == multiset(LeftJoin(production, prices, user.farm_id))
  {
    var rows := SortBy(LeftJoin(production, prices, user.farm_id), DateDescKey);
    assert forall i, j :: 0 <= i < j < |rows| ==> DateLe(rows[j].date, rows[i].date) by {
      forall i, j | 0 <= i < j < |rows| ensures DateLe(rows[j].date, rows[i].date) {
        NewerFirst(rows[i], rows[j]);
      }
    }
    rows
  }

  /** With one price per (product, farm), the listing holds one entry per
      production row of the caller's farm and nothing else: the row's
      columns, its price and quantity * price when priced, null for both
      when not. */
  lemma GetProductionListsFarmRows(production: seq<ProductionRow>, prices: seq<PriceRow>, user: Identity)
    requires UniquePrices(prices)
    ensures var rows := GetProduction(production, prices, user);
            var own := OwnRows(production, user.farm_id);
            && |rows| == |own|
            && (forall k :: 0 <= k < |own| ==> ListedAs(own[k], PriceOf(prices, own[k])) in rows)
            && (forall i :: 0 <= i < |rows| ==>
                  exists k :: 0 <= k < |own| && rows[i] == ListedAs(own[k], PriceOf(prices, own[k])))
  {
    var rows := GetProduction(production, prices, user);
    var listing := LeftJoin(production, prices, user.farm_id);
    var own := OwnRows(production, user.farm_id);
    LeftJoinListsEveryRow(production, prices, user.farm_id);
    assert |rows| == |multiset(rows)| == |multiset(listing)| == |listing|;
    forall k | 0 <= k < |own| ensures ListedAs(own[k], PriceOf(prices, own[k])) in rows {
      PermutationMember(listing, rows, k);
    }
    forall i | 0 <= i < |rows|
      ensures exists k :: 0 <= k < |own| && rows[i] == ListedAs(own[k], PriceOf(prices, own[k]))
    {
      PermutationMember(rows, listing, i);
    }
  }

  /* ---------- addProduction ---------- */

  /** The body of an add request; a missing or empty date is None. */
  datatype ProductionInput = ProductionInput(product: string, quantity: real, unit: string,
                                             date: Option<Date>, notes: Option<string>)

  /** The 201 payload: the stored row plus the price used and the income. */
  datatype Created = Created(row: ProductionRow, price: real, income: real)

  /** `date || today`. */
  function DateOr(date: Option<Date>, today: Date): Date {
    if date.Some? then date.value else today
  }

  /** `SELECT price FROM prices WHERE product = $1 AND farm_id = $2`, first
      row's price, `|| 0`. */
  function QuotedPrice(prices: seq<PriceRow>, product: string, farm: FarmRef): (price: real)
    ensures (forall i :: 0 <= i < |prices| ==> !(prices[i].product == product && SqlEq(prices[i].farmId, farm))) ==>
              price == 0.0
    ensures price != 0.0 ==>
              exists i :: 0 <= i < |prices| && prices[i].product == product && SqlEq(prices[i].farmId, farm) &&
                          prices[i].price == price
  {
    var found := Filter(prices, (pr: PriceRow) => pr.product == product && SqlEq(pr.farmId, farm));
    assert (forall i :: 0 <= i < |prices| ==> !(prices[i].product == product && SqlEq(prices[i].farmId, farm))) ==>
             found == [] by {
      if forall i :: 0 <= i < |prices| ==> !(prices[i].product == product && SqlEq(prices[i].farmId, farm)) {
        FilterNone(prices, (pr: PriceRow) => pr.product == product && SqlEq(pr.farmId, farm));
      }
    }
    if found == [] || found[0].price == 0.0 then 0.0 else found[0].price
  }

  lemma {:induction false} QuoteIsMatch(prices: seq<PriceRow>, p: ProductionRow)
    ensures Filter(prices, (pr: PriceRow) => pr.product == p.product && SqlEq(pr.farmId, p.farmId))
            == MatchingPrices(prices, p)
  {
    if prices != [] {
      QuoteIsMatch(prices[1..], p);
    }
  }

  /** The price an add reports is the price the listing shows for the new
      row, or 0 where the listing shows null. */
  lemma QuotedPriceIsListedPrice(prices: seq<PriceRow>, p: ProductionRow)
    ensures PriceOf(prices, p).None? ==> QuotedPrice(prices, p.product, p.farmId) == 0.0
    ensures PriceOf(prices, p).Some? ==> QuotedPrice(prices, p.product, p.farmId) == PriceOf(prices, p).value
  {
    QuoteIsMatch(prices, p);
  }

  /** Inserts the row for the caller (date defaulting to today), then reports
      it with 201 together with the farm's price for the product (0 when
      there is none) and quantity * price. Nothing but the production table
      and its serial changes. */
  method AddProduction(db: Database, user: Identity, input: ProductionInput, today: Date)
    returns (r: Reply<Created>)
    requires db.Valid()
    modifies db
    ensures db.Valid()
    ensures r.Ok? && r.status == 201
    ensures r.body.row == ProductionRow(old(db.nextProductionId), input.product, input.quantity, input.unit,
                                        DateOr(input.date, today), input.notes, user.id, user.farm_id)
    ensures r.body.price == QuotedPrice(db.prices, input.product, user.farm_id)
    ensures r.body.income == input.quantity * r.body.price
    ensures db.production == old(db.production) + [r.body.row]
    ensures db.users == old(db.users) && db.farms == old(db.farms) && db.prices == old(db.prices)
    ensures db.nextUserId == old(db.nextUserId) && db.nextFarmId == old(db.nextFarmId)
  {
    var row := db.InsertProduction(input.product, input.quantity, input.unit, DateOr(input.date, today),
                                   input.notes, user.id, user.farm_id);
    var price := QuotedPrice(db.prices, input.product, user.farm_id);
    r := Ok(201, Created(row, price, row.quantity * price));
    assert row.quantity == input.quantity;
  }

  /** After an add, the listing of the caller's farm shows the new row. */
  lemma AddedRowIsListed(production: seq<ProductionRow>, prices: seq<PriceRow>, user: Identity,
                         row: ProductionRow)
    requires UniquePrices(prices)
    requires row.farmId == user.farm_id && user.farm_id.Some?
    ensures ListedAs(row, PriceOf(prices, row)) in GetProduction(production + [row], prices, user)
  {
    var all := production + [row];
    var own := OwnRows(all, user.farm_id);
    OwnRowsEndWith(production, row, user.farm_id);
    var listing := LeftJoin(all, prices, user.farm_id);
    LeftJoinListsEveryRow(all, prices, user.farm_id);
    assert listing[|own| - 1] == ListedAs(row, PriceOf(prices, row));
    PermutationMember(listing, GetProduction(all, prices, user), |own| - 1);
  }

  /** For a priced product the income an add reports is the income the
      listing shows for the row; for an unpriced one the add reports 0 where
      the listing shows null. */
  lemma AddedIncomeIsListedIncome(prices: seq<PriceRow>, row: ProductionRow)
    ensures PriceOf(prices, row).Some? ==>
              ListedAs(row, PriceOf(prices, row)).income.Some? &&
              ListedAs(row, PriceOf(prices, row)).income.value ==
                row.quantity * QuotedPrice(prices, row.product, row.farmId)
    ensures PriceOf(prices, row).None? ==>
              ListedAs(row, PriceOf(prices, row)).income.None? &&
              row.quantity * QuotedPrice(prices, row.product, row.farmId) == 0.0
  {
    QuotedPriceIsListedPrice(prices, row);
  }

  lemma OwnRowsEndWith(production: seq<ProductionRow>, row: ProductionRow, farm: FarmRef)
    requires SqlEq(row.farmId, farm)
    ensures |OwnRows(production + [row], farm)| > 0
    ensures OwnRows(production + [row], farm)[|OwnRows(production + [row], farm)| - 1] == row
  {
    FilterConcat(production, [row], (p: ProductionRow) => SqlEq(p.farmId, farm));
    assert Filter([row], (p: ProductionRow) => SqlEq(p.farmId, farm)) == [row];
  }

  /* ---------- income totals ---------- */

  /** getCurrentMonthIncome: SUM(quantity * price) over the priced rows dated
      in today's month; COALESCE makes it 0 when there are none. */
  function CurrentMonthIncome(production: seq<ProductionRow>, prices: seq<PriceRow>, user: Identity,
                              today: Date): (total: real)
    ensures (forall i :: 0 <= i < |InnerJoin(production, prices, user.farm_id)| ==>
               MonthOf(InnerJoin(production, prices, user.farm_id)[i].row.date) != MonthOf(today)) ==> total == 0.0
  {
    var js := InnerJoin(production, prices, user.farm_id);
    var total := Sum(InMonth(js, MonthOf(today)), Income);
    assert (forall i :: 0 <= i < |js| ==> MonthOf(js[i].row.date) != MonthOf(today)) ==> total == 0.0 by {
      if forall i :: 0 <= i < |js| ==> MonthOf(js[i].row.date) != MonthOf(today) {
        FilterNone(js, (j: Joined) => MonthOf(j.row.date) == MonthOf(today));
      }
    }
    total
  }

  /** getTodayIncome: the same sum over the priced rows dated today; 0 when there are none. */
  function TodayIncome(production: seq<ProductionRow>, prices: seq<PriceRow>, user: Identity,
                       today: Date): (total: real)
    ensures (forall i :: 0 <= i < |InnerJoin(production, prices, user.farm_id)| ==>
               InnerJoin(production, prices, user.farm_id)[i].row.date != today) ==> total == 0.0
  {
    var js := InnerJoin(production, prices, user.farm_id);
    var total := Sum(OnDay(js, today), Income);
    assert (forall i :: 0 <= i < |js| ==> js[i].row.date != today) ==> total == 0.0 by {
      if forall i :: 0 <= i < |js| ==> js[i].row.date != today {
        FilterNone(js, (j: Joined) => j.row.date == today);
      }
    }
    total
  }

  /** Today's income is part of this month's: the month's income is today's
      plus that of the month's other days. */
  lemma TodayWithinMonth(production: seq<ProductionRow>, prices: seq<PriceRow>, user: Identity, today: Date)
    ensures CurrentMonthIncome(production, prices, user, today) ==
            TodayIncome(production, prices, user, today) +
            Sum(Filter(InMonth(InnerJoin(production, prices, user.farm_id), MonthOf(today)),
                       (j: Joined) => j.row.date != today), Income)
  {
    var js := InnerJoin(production, prices, user.farm_id);
    var inMonth := (j: Joined) => MonthOf(j.row.date) == MonthOf(today);
    var onDay := (j: Joined) => j.row.date == today;
    SumPartition(InMonth(js, MonthOf(today)), onDay, (j: Joined) => j.row.date != today, Income);
    FilterCommute(js, inMonth, onDay);
    FilterAll(OnDay(js, today), inMonth);
  }

  /* ---------- getTodayProductsCount ---------- */

  /** A row counted by the product count: the caller's farm, dated today. */
  predicate RecordedToday(p: ProductionRow, farm: FarmRef, today: Date) {
    SqlEq(p.farmId, farm) && p.date == today
  }

  /** The distinct products of the farm's rows dated today. */
  function TodayProducts(production: seq<ProductionRow>, farm: FarmRef, today: Date): (names: set<string>)
    ensures forall x :: x in names <==>
              exists i :: 0 <= i < |production| && RecordedToday(production[i], farm, today) &&
                          production[i].product == x
  {
    if production == [] then {}
    else
      var rest := TodayProducts(production[1..], farm, today);
      var p := production[0];
      assert forall i :: 1 <= i < |production| ==> production[i] == production[1..][i - 1];
      (if RecordedToday(p, farm, today) then {p.product} else {}) + rest
  }

  /** getTodayProductsCount: COUNT(DISTINCT product) over the farm's rows
      dated today, priced or not. */
  function TodayProductsCount(production: seq<ProductionRow>, user: Identity, today: Date): (count: nat)
    ensures count == 0 <==> forall i :: 0 <= i < |production| ==> !RecordedToday(production[i], user.farm_id, today)
    ensures count <= |Filter(production, (p: ProductionRow) => RecordedToday(p, user.farm_id, today))|
  {
    CountFacts(production, user.farm_id, today);
    |TodayProducts(production, user.farm_id, today)|
  }

  lemma {:induction false} CountFacts(production: seq<ProductionRow>, farm: FarmRef, today: Date)
    ensures |TodayProducts(production, farm, today)| == 0 <==>
              forall i :: 0 <= i < |production| ==> !RecordedToday(production[i], farm, today)
    ensures |TodayProducts(production, farm, today)| <=
            |Filter(production, (p: ProductionRow) => RecordedToday(p, farm, today))|
  {
    var names := TodayProducts(production, farm, today);
    if exists i :: 0 <= i < |production| && RecordedToday(production[i], farm, today) {
      var i :| 0 <= i < |production| && RecordedToday(production[i], farm, today);
      assert production[i].product in names;
    }
    if production != [] {
      CountFacts(production[1..], farm, today);
    }
  }

  /* ---------- getIncomeByProductMonthly ---------- */

  /** One row per (month, product) of the farm's priced rows, ordered by month
      then product. */
  function IncomeByProductMonthly(production: seq<ProductionRow>, prices: seq<PriceRow>, user: Identity)
    : (r: seq<MonthProductTotal>)
    ensures SortedBy(r, MonthProductKey)
    ensures forall a, b :: 0 <= a < b < |r| ==> GroupKey(r[a]) != GroupKey(r[b])
    ensures forall k :: HasGroup(r, k) <==> HasRow(InnerJoin(production, prices, user.farm_id), k)
    ensures forall g :: 0 <= g < |r| ==>
              r[g].total == Sum(WithKey(InnerJoin(production, prices, user.farm_id), GroupKey(r[g])), Income)
  {
    var js := InnerJoin(production, prices, user.farm_id);
    var r := SortBy(GroupBy(js), MonthProductKey);
    ByProductFacts(js, r);
    r
  }

  lemma ByProductFacts(js: seq<Joined>, r: seq<MonthProductTotal>)
    requires multiset(r) == multiset(GroupBy(js))
    ensures forall a, b :: 0 <= a < b < |r| ==> GroupKey(r[a]) != GroupKey(r[b])
    ensures forall k :: HasGroup(r, k) <==> HasRow(js, k)
    ensures forall g :: 0 <= g < |r| ==> r[g].total == Sum(WithKey(js, GroupKey(r[g])), Income)
  {
    var gs := GroupBy(js);
    GroupKeysDistinct(js);
    GroupTotals(js);
    assert forall a, b :: 0 <= a < b < |gs| ==> gs[a] != gs[b] by {
      forall a, b | 0 <= a < b < |gs| ensures gs[a] != gs[b] {
        assert GroupKey(gs[a]) != GroupKey(gs[b]);
      }
    }
    NoRepeatsPermutation(r, gs);
    forall a, b | 0 <= a < b < |r| ensures GroupKey(r[a]) != GroupKey(r[b]) {
      PermutationMember(r, gs, a);
      PermutationMember(r, gs, b);
      var x :| 0 <= x < |gs| && gs[x] == r[a];
      var y :| 0 <= y < |gs| && gs[y] == r[b];
      assert x != y;
    }
    forall g | 0 <= g < |r| ensures r[g].total == Sum(WithKey(js, GroupKey(r[g])), Income) {
      PermutationMember(r, gs, g);
    }
    forall k ensures HasGroup(r, k) <==> HasRow(js, k) {
      if HasGroup(r, k) {
        var g :| 0 <= g < |r| && GroupKey(r[g]) == k;
        PermutationMember(r, gs, g);
        GroupHasRow(js, k);
      }
      if HasRow(js, k) {
        RowHasGroup(js, k);
        var g :| 0 <= g < |gs| && GroupKey(gs[g]) == k;
        PermutationMember(gs, r, g);
      }
    }
  }

  /* ---------- getMonthlyIncome ---------- */

  /** ORDER BY month ASC. */
  function MonthKey(g: MonthProductTotal): seq<int> {
    [g.month.year, g.month.month]
  }

  /** The grouped rows of the monthly query, by month. Rows of one month come
      in an order SQL leaves open; this is one such order. */
  function MonthlyRows(production: seq<ProductionRow>, prices: seq<PriceRow>, user: Identity)
    : seq<MonthProductTotal>
  {
    SortBy(GroupBy(InnerJoin(production, prices, user.farm_id)), MonthKey)
  }

  /** The handler: run the grouped query, then reshape it. */
  method GetMonthlyIncome(production: seq<ProductionRow>, prices: seq<PriceRow>, user: Identity)
    returns (records: seq<MonthRecord>)
    ensures records == Records(Fold(MonthlyRows(production, prices, user)))
  {
    records := Reshape(MonthlyRows(production, prices, user));
  }

  /** There is one record per month with priced rows, and no other: no
      priced rows, no records. */
  lemma MonthlyRecordsPerMonth(production: seq<ProductionRow>, prices: seq<PriceRow>, user: Identity,
                               m: Month)
    ensures var js := InnerJoin(production, prices, user.farm_id);
            var st := Fold(MonthlyRows(production, prices, user));
            && (m in st.order <==> exists i :: 0 <= i < |js| && MonthOf(js[i].row.date) == m)
            && (js == [] <==> st.order == [])
  {
    var js := InnerJoin(production, prices, user.farm_id);
    var rows := MonthlyRows(production, prices, user);
    var gs := GroupBy(js);
    FoldOrderMatchesData(rows);
    FoldMonths(rows, m);
    if exists i :: 0 <= i < |rows| && rows[i].month == m {
      var i :| 0 <= i < |rows| && rows[i].month == m;
      PermutationMember(rows, gs, i);
      var g :| 0 <= g < |gs| && gs[g] == rows[i];
      assert HasGroup(gs, GroupKey(rows[i]));
      GroupHasRow(js, GroupKey(rows[i]));
    }
    if exists i :: 0 <= i < |js| && MonthOf(js[i].row.date) == m {
      var i :| 0 <= i < |js| && MonthOf(js[i].row.date) == m;
      assert HasRow(js, KeyOf(js[i]));
      RowHasGroup(js, KeyOf(js[i]));
      var g :| 0 <= g < |gs| && GroupKey(gs[g]) == KeyOf(js[i]);
      PermutationMember(gs, rows, g);
    }
    if js != [] {
      var m0 := MonthOf(js[0].row.date);
      FoldMonths(rows, m0);
      assert HasRow(js, KeyOf(js[0]));
      RowHasGroup(js, KeyOf(js[0]));
      var g :| 0 <= g < |gs| && GroupKey(gs[g]) == KeyOf(js[0]);
      PermutationMember(gs, rows, g);
      assert m0 in Fold(rows).order;
    } else {
      assert |rows| == |multiset(rows)| == |multiset(gs)| == 0;
    }
  }

  /** The records come out in strictly ascending month order. */
  lemma MonthlyRecordsAscending(production: seq<ProductionRow>, prices: seq<PriceRow>, user: Identity)
    ensures var order := Fold(MonthlyRows(production, prices, user)).order;
            forall a, b :: 0 <= a < b < |order| ==> MonthLe(order[a], order[b]) && order[a] != order[b]
  {
    var rows := MonthlyRows(production, prices, user);
    forall i, j | 0 <= i < j < |rows| ensures MonthLe(rows[i].month, rows[j].month) {
      var ki, kj := MonthKey(rows[i]), MonthKey(rows[j]);
      assert KeyLe(ki, kj);
      KeyLeStep(ki, kj);
      KeyLeStep(ki[1..], kj[1..]);
    }
    AscendingMonths(rows);
  }

  /** A month record's total is that month's income, the figure the
      current-month endpoint reports for today's month, provided no product
      name lower-cases to "total". */
  lemma MonthlyTotalIsMonthIncome(production: seq<ProductionRow>, prices: seq<PriceRow>, user: Identity,
                                  today: Date)
    requires forall i :: 0 <= i < |InnerJoin(production, prices, user.farm_id)| ==>
               Lower(InnerJoin(production, prices, user.farm_id)[i].row.product) != "total"
    requires MonthOf(today) in Fold(MonthlyRows(production, prices, user)).data
    ensures Fold(MonthlyRows(production, prices, user)).data[MonthOf(today)].total ==
            CurrentMonthIncome(production, prices, user, today)
  {
    var js := InnerJoin(production, prices, user.farm_id);
    var rows := MonthlyRows(production, prices, user);
    var gs := GroupBy(js);
    var m := MonthOf(today);
    forall i | 0 <= i < |rows| && rows[i].month == m ensures Lower(rows[i].product) != "total" {
      PermutationMember(rows, gs, i);
      var g :| 0 <= g < |gs| && gs[g] == rows[i];
      assert HasGroup(gs, GroupKey(rows[i]));
      GroupHasRow(js, GroupKey(rows[i]));
    }
    FoldTotal(rows, m);
    SumPermutation(rows, gs, MonthShare(m));
    GroupByMonthIncome(js, m);
  }
}
