/** The price handlers (backend/controllers/priceController.js). All three
    refuse a caller whose token carries no farm (a falsy farm_id) before
    touching the store; everything they read or change is scoped to the
    caller's farm. The current time and date are parameters. */
module PriceController {
  import opened Values
  import opened Tables
  import opened Relational
  import opened Queries
  import opened AuthMiddleware
  import ProductionController

  const MissingFarm := "Missing farm_id in token"
  const InvalidPrice := "Valid price is required"
  const NoSuchProduct := "Product not found for this farm"

  /* ---------- getPrices ---------- */

  /** ORDER BY product ASC. */
  function ProductKey(pr: PriceRow): seq<int> {
    TextKey(pr.product)
  }

  /** The caller farm's price rows, ordered by product. */
  function GetPrices(prices: seq<PriceRow>, user: Identity): (r: Reply<seq<PriceRow>>)
    ensures r.Fail? <==> !Truthy(user.farm_id)
    ensures r.Fail? ==> r == Fail(400, MissingFarm)
    ensures r.Ok? ==> r.status == 200 && SortedBy(r.body, ProductKey) && |r.body| == |OwnPrices(prices, user.farm_id)|
    ensures r.Ok? ==> multiset(r.body) == multiset(OwnPrices(prices, user.farm_id))
    ensures r.Ok? ==> forall i :: 0 <= i < |r.body| ==> r.body[i] in prices && SqlEq(r.body[i].farmId, user.farm_id)
    ensures r.Ok? ==> forall i :: 0 <= i < |prices| && SqlEq(prices[i].farmId, user.farm_id) ==> prices[i] in r.body
  {
    if !Truthy(user.farm_id) then Fail(400, MissingFarm)
    else
      var own := OwnPrices(prices, user.farm_id);
      var rows := SortBy(own, ProductKey);
      PricesListing(own, rows);
      Ok(200, rows)
  }

  lemma PricesListing(own: seq<PriceRow>, rows: seq<PriceRow>)
    requires multiset(rows) == multiset(own)
    ensures |rows| == |own|
    ensures forall i :: 0 <= i < |rows| ==> rows[i] in own
    ensures forall i :: 0 <= i < |own| ==> own[i] in rows
  {
    assert |rows| == |multiset(rows)| == |multiset(own)| == |own|;
    forall i | 0 <= i < |rows| ensures rows[i] in own {
      PermutationMember(rows, own, i);
    }
    forall i | 0 <= i < |own| ensures own[i] in rows {
      PermutationMember(own, rows, i);
    }
  }

  /* ---------- updatePrice ---------- */

  /** `req.body.price` as JSON delivers it: absent or null, a number, or a string. */
  datatype PriceInput = Absent | Number(x: real) | Text(s: string)

  /** JavaScript falsiness of the price: absent or null, the number 0, the
      empty string. */
  predicate Falsy(input: PriceInput) {
    input.Absent? || input == Number(0.0) || input == Text("")
  }

  /** JavaScript's Number() of the price, None for NaN: undefined is NaN, a
      number is itself, a string goes to `coerce`. */
  function AsNumber(input: PriceInput, coerce: string -> Option<real>): Option<real> {
    match input
    case Absent => None
    case Number(x) => Some(x)
    case Text(s) => coerce(s)
  }

  /** The price check `!price || isNaN(price)`: rejected (None) exactly when
      the price is falsy or not a number; otherwise the number stored. */
  function AcceptedPrice(input: PriceInput, coerce: string -> Option<real>): (p: Option<real>)
    ensures p.None? <==> Falsy(input) || AsNumber(input, coerce).None?
    ensures p.Some? ==> p == AsNumber(input, coerce)
  {
    match input
    case Absent => None
    case Number(x) => if x == 0.0 then None else Some(x)
    case Text(s) => if s == "" then None else coerce(s)
  }

  /** The rule for every input: a number passes exactly when it is not 0, so
      every negative number passes; a non-empty string passes exactly when
      Number() makes a number of it, the string "0" included. */
  lemma PriceRule(coerce: string -> Option<real>)
    ensures AcceptedPrice(Absent, coerce).None?
    ensures AcceptedPrice(Text(""), coerce).None?
    ensures forall x: real :: AcceptedPrice(Number(x), coerce).Some? <==> x != 0.0
    ensures forall x: real :: x < 0.0 ==> AcceptedPrice(Number(x), coerce) == Some(x)
    ensures forall s :: s != "" ==> AcceptedPrice(Text(s), coerce) == coerce(s)
    ensures coerce("0") == Some(0.0) ==> AcceptedPrice(Text("0"), coerce) == Some(0.0)
  {
  }

  /** The handler: the farm check, then the price check, then the scoped
      update; 404 and no change when no row of the caller's farm has that
      product, otherwise the updated row. */
  method UpdatePrice(db: Database, user: Identity, product: string, input: PriceInput,
                     coerce: string -> Option<real>, now: int)
    returns (r: Reply<PriceRow>)
    requires db.Valid()
    modifies db
    ensures db.Valid()
    ensures !Truthy(user.farm_id) ==> r == Fail(400, MissingFarm) && db.prices == old(db.prices)
    ensures Truthy(user.farm_id) && AcceptedPrice(input, coerce).None? ==>
              r == Fail(400, InvalidPrice) && db.prices == old(db.prices)
    ensures Truthy(user.farm_id) && AcceptedPrice(input, coerce).Some? ==>
              db.prices == Repriced(old(db.prices), product, user.farm_id, AcceptedPrice(input, coerce).value, now)
    ensures Truthy(user.farm_id) && AcceptedPrice(input, coerce).Some? &&
            (forall i :: 0 <= i < |old(db.prices)| ==> !Targets(old(db.prices)[i], product, user.farm_id)) ==>
              r == Fail(404, NoSuchProduct) && db.prices == old(db.prices)
    ensures Truthy(user.farm_id) && AcceptedPrice(input, coerce).Some? &&
            (exists i :: 0 <= i < |old(db.prices)| && Targets(old(db.prices)[i], product, user.farm_id)) ==>
              r.Ok?
    ensures r == Fail(404, NoSuchProduct) ==> db.prices == old(db.prices)
    ensures r.Ok? ==>
              r.status == 200 && r.body in db.prices && Targets(r.body, product, user.farm_id) &&
              r.body.price == AcceptedPrice(input, coerce).value && r.body.updatedAt == now
    ensures db.users == old(db.users) && db.farms == old(db.farms) && db.production == old(db.production)
    ensures db.nextUserId == old(db.nextUserId) && db.nextFarmId == old(db.nextFarmId)
    ensures db.nextProductionId == old(db.nextProductionId)
  {
    if !Truthy(user.farm_id) {
      return Fail(400, MissingFarm);
    }
    var price := AcceptedPrice(input, coerce);
    if price.None? {
      return Fail(400, InvalidPrice);
    }
    ghost var before := db.prices;
    var updated := db.UpdatePrices(product, user.farm_id, price.value, now);
    if |updated| == 0 {
      TargetSurvivesUpdate(before, product, user.farm_id, price.value, now);
      RepricedNoMatch(before, product, user.farm_id, price.value, now);
      return Fail(404, NoSuchProduct);
    }
    r := Ok(200, updated[0]);
    UpdatedRowIsRepriced(before, product, user.farm_id, price.value, now);
  }

  /** A row the update targets is still found by the same WHERE clause afterwards. */
  lemma TargetSurvivesUpdate(prices: seq<PriceRow>, product: string, farm: FarmRef, price: real, now: int)
    ensures (exists i :: 0 <= i < |prices| && Targets(prices[i], product, farm)) ==>
              Filter(Repriced(prices, product, farm, price, now), (pr: PriceRow) => Targets(pr, product, farm)) != []
  {
    if exists i :: 0 <= i < |prices| && Targets(prices[i], product, farm) {
      var i :| 0 <= i < |prices| && Targets(prices[i], product, farm);
      var after := Repriced(prices, product, farm, price, now);
      assert Targets(after[i], product, farm);
    }
  }

  /** Every row the update reports back carries the new price and time. */
  lemma UpdatedRowIsRepriced(prices: seq<PriceRow>, product: string, farm: FarmRef, price: real, now: int)
    ensures var after := Repriced(prices, product, farm, price, now);
            forall i :: 0 <= i < |after| && Targets(after[i], product, farm) ==>
              after[i].price == price && after[i].updatedAt == now
  {
    RepricedChangesOnlyTarget(prices, product, farm, price, now);
  }

  /** When a row matched, the update found it under the same product and
      farm: with one price per (product, farm) it is the only one. */
  lemma UpdateHitsOneRow(prices: seq<PriceRow>, product: string, farm: FarmRef, price: real, now: int)
    requires UniquePrices(prices)
    ensures |Filter(Repriced(prices, product, farm, price, now), (pr: PriceRow) => Targets(pr, product, farm))| <= 1
  {
    var after := Repriced(prices, product, farm, price, now);
    RepricedKeepsUnique(prices, product, farm, price, now);
    AtMostOneTarget(after, product, farm);
  }

  lemma {:induction false} AtMostOneTarget(prices: seq<PriceRow>, product: string, farm: FarmRef)
    requires UniquePrices(prices)
    ensures |Filter(prices, (pr: PriceRow) => Targets(pr, product, farm))| <= 1
  {
    if prices != [] {
      AtMostOneTarget(prices[1..], product, farm);
      if Targets(prices[0], product, farm) {
        FilterNone(prices[1..], (pr: PriceRow) => Targets(pr, product, farm));
      }
    }
  }

  /* ---------- getCurrentMonthIncome ---------- */

  /** The `month` of the reply: the first day of the month as the query
      returns it, or the 'YYYY-MM' text of the fallback. */
  datatype MonthLabel = FirstDay(d: Date) | YearMonth(m: Month)

  datatype MonthIncome = MonthIncome(month: MonthLabel, income: real)

  /** The month's priced rows of the caller's farm summed, or the fallback
      {month: current 'YYYY-MM', income: 0} when there are none. */
  function CurrentMonthSummary(production: seq<ProductionRow>, prices: seq<PriceRow>, user: Identity,
                               today: Date): (r: Reply<MonthIncome>)
    ensures r.Fail? <==> !Truthy(user.farm_id)
    ensures r.Fail? ==> r == Fail(400, MissingFarm)
    ensures r.Ok? ==>
              && r.status == 200
              && r.body.income == Sum(InMonth(InnerJoin(production, prices, user.farm_id), MonthOf(today)), Income)
    ensures r.Ok? ==> (r.body.month == YearMonth(MonthOf(today)) <==>
              forall i :: 0 <= i < |InnerJoin(production, prices, user.farm_id)| ==>
                MonthOf(InnerJoin(production, prices, user.farm_id)[i].row.date) != MonthOf(today))
  {
    if !Truthy(user.farm_id) then Fail(400, MissingFarm)
    else
      var js := InMonth(InnerJoin(production, prices, user.farm_id), MonthOf(today));
      MonthRowsEmpty(InnerJoin(production, prices, user.farm_id), MonthOf(today));
      if js == [] then Ok(200, MonthIncome(YearMonth(MonthOf(today)), 0.0))
      else Ok(200, MonthIncome(FirstDay(Date(today.year, today.month, 1)), Sum(js, Income)))
  }

  lemma MonthRowsEmpty(js: seq<Joined>, m: Month)
    ensures InMonth(js, m) == [] <==> forall i :: 0 <= i < |js| ==> MonthOf(js[i].row.date) != m
  {
    if forall i :: 0 <= i < |js| ==> MonthOf(js[i].row.date) != m {
      FilterNone(js, (j: Joined) => MonthOf(j.row.date) == m);
    }
  }

  /** The two current-month endpoints report the same amount for a caller
      with a farm. */
  lemma CurrentMonthEndpointsAgree(production: seq<ProductionRow>, prices: seq<PriceRow>, user: Identity,
                                   today: Date)
    requires Truthy(user.farm_id)
    ensures CurrentMonthSummary(production, prices, user, today).Ok?
    ensures CurrentMonthSummary(production, prices, user, today).body.income ==
            ProductionController.CurrentMonthIncome(production, prices, user, today)
  {
  }
}
