/** The reshaping loop of `getMonthlyIncome`
    (backend/controllers/productionController.js): the grouped rows
    (month, product, income) become one record per month, created on the
    month's first row with the fields month, milk, tea, honey, macadamia,
    apples and total, where each row ASSIGNS its income to the field named by
    its lower-cased product and ADDS it to total. Records come out in the
    order their months were first seen. A record is modelled as a map from
    field name to value; the order of keys inside one JSON object is not
    modelled. */
module MonthlyIncome {
  import opened Values
  import opened Relational
  import opened Queries

  /** A field of a month record: the month itself, or an amount. */
  datatype Field = Label(m: Month) | Amount(x: real)

  /** One month's record: its `total` key, held apart because every row adds
      to it, and every other key with its value. */
  datatype MonthRecord = MonthRecord(fields: map<string, Field>, total: real)

  /** The JSON object the record is sent as. */
  function AsObject(rec: MonthRecord): map<string, Field> {
    rec.fields["total" := Amount(rec.total)]
  }

  /** The five products every record starts with, at 0. */
  const FixedProducts: set<string> := {"milk", "tea", "honey", "macadamia", "apples"}

  /** Assigning a number to `obj["__proto__"]` on a plain object is ignored:
      the prototype setter accepts only objects and null, and no own field is
      created. */
  const ProtoKey := "__proto__"

  /** The record created for a month on its first row. */
  function NewRecord(m: Month): MonthRecord {
    MonthRecord(map["month" := Label(m), "milk" := Amount(0.0), "tea" := Amount(0.0), "honey" := Amount(0.0),
                    "macadamia" := Amount(0.0), "apples" := Amount(0.0)], 0.0)
  }

  /** The loop state: `monthlyData` keyed by month, and the months in the
      order they were inserted (the order of `Object.values`). */
  datatype Reshaping = Reshaping(order: seq<Month>, data: map<Month, MonthRecord>)

  /** Every month in the order has a record. */
  ghost predicate Indexed(st: Reshaping) {
    forall k :: 0 <= k < |st.order| ==> st.order[k] in st.data
  }

  /** The state once month `m` has a record: a new record is created at the
      end of the order on the month's first row. */
  function Opened(st: Reshaping, m: Month): (r: Reshaping)
    requires Indexed(st)
    ensures Indexed(r) && m in r.data
  {
    if m in st.data then st else Reshaping(st.order + [m], st.data[m := NewRecord(m)])
  }

  /** The row's income is assigned to the field of its lower-cased product
      (to the total itself when that name is "total", to nothing when it is
      "__proto__"), then added to total. */
  function Booked(rec: MonthRecord, g: MonthProductTotal): MonthRecord {
    var key := Lower(g.product);
    var posted := if key == "total" then rec.(total := g.total)
                  else if key == ProtoKey then rec
                  else rec.(fields := rec.fields[key := Amount(g.total)]);
    posted.(total := posted.total + g.total)
  }

  /** One iteration of the forEach on grouped row `g`. */
  function Step(st: Reshaping, g: MonthProductTotal): (r: Reshaping)
    requires Indexed(st)
    ensures Indexed(r)
  {
    var st1 := Opened(st, g.month);
    Reshaping(st1.order, st1.data[g.month := Booked(st1.data[g.month], g)])
  }

  /** The state after the forEach has run over all of `rows`. */
  function Fold(rows: seq<MonthProductTotal>): (r: Reshaping)
    ensures Indexed(r)
  {
    if rows == [] then Reshaping([], map[])
    else Step(Fold(rows[..|rows| - 1]), rows[|rows| - 1])
  }

  /** `Object.values(monthlyData)`. */
  function Records(st: Reshaping): seq<MonthRecord>
    requires Indexed(st)
  {
    seq(|st.order|, k requires 0 <= k < |st.order| => st.data[st.order[k]])
  }

  /** The reshaping loop as the source runs it: a dictionary of records and
      the insertion order of its keys, updated row by row, then the values
      in insertion order. */
  method Reshape(rows: seq<MonthProductTotal>) returns (records: seq<MonthRecord>)
    ensures records == Records(Fold(rows))
  {
    var monthlyData: map<Month, MonthRecord> := map[];
    var order: seq<Month> := [];
    for i := 0 to |rows|
      invariant Reshaping(order, monthlyData) == Fold(rows[..i])
    {
      FoldLast(rows[..i + 1]);
      assert rows[..i + 1][..i] == rows[..i];
      ghost var st := Reshaping(order, monthlyData);
      var row := rows[i];
      if row.month !in monthlyData {
        monthlyData := monthlyData[row.month := NewRecord(row.month)];
        order := order + [row.month];
      }
      assert Reshaping(order, monthlyData) == Opened(st, row.month);
      var rec := monthlyData[row.month];
      var key := Lower(row.product);
      if key == "total" {
        rec := rec.(total := row.total);
      } else if key != ProtoKey {
        rec := rec.(fields := rec.fields[key := Amount(row.total)]);
      }
      rec := rec.(total := rec.total + row.total);
      monthlyData := monthlyData[row.month := rec];
    }
    assert rows[..|rows|] == rows;
    records := seq(|order|, k requires 0 <= k < |order| => monthlyData[order[k]]);
  }

  /** Prefix decomposition used by every induction below. */
  lemma FoldLast(rows: seq<MonthProductTotal>)
    requires rows != []
    ensures Fold(rows) == Step(Fold(rows[..|rows| - 1]), rows[|rows| - 1])
  {
  }

  lemma SplitLast<T>(s: seq<T>)
    requires s != []
    ensures s == s[..|s| - 1] + [s[|s| - 1]]
  {
  }

  /** A month has a record exactly when some row has that month; there are
      no two records for one month. */
  lemma {:induction false} FoldMonths(rows: seq<MonthProductTotal>, m: Month)
    ensures m in Fold(rows).data <==> exists i :: 0 <= i < |rows| && rows[i].month == m
    decreases |rows|
  {
    if rows != [] {
      var pre := rows[..|rows| - 1];
      FoldLast(rows);
      FoldMonths(pre, m);
      if exists i :: 0 <= i < |pre| && pre[i].month == m {
        var i :| 0 <= i < |pre| && pre[i].month == m;
        assert rows[i] == pre[i];
      }
      if exists i :: 0 <= i < |rows| && rows[i].month == m {
        var i :| 0 <= i < |rows| && rows[i].month == m;
        if i < |pre| {
          assert pre[i] == rows[i];
        }
      }
    }
  }

  /** `monthlyData` and the order agree: a month has a record exactly when it
      is in the order, and it is there once. */
  lemma {:induction false} FoldOrderMatchesData(rows: seq<MonthProductTotal>)
    ensures forall m :: m in Fold(rows).data <==> m in Fold(rows).order
    ensures forall a, b :: 0 <= a < b < |Fold(rows).order| ==> Fold(rows).order[a] != Fold(rows).order[b]
    decreases |rows|
  {
    if rows != [] {
      var pre := rows[..|rows| - 1];
      FoldLast(rows);
      FoldOrderMatchesData(pre);
    }
  }

  /** Month `x` occurs in `rows` before any occurrence of month `y`. */
  predicate AppearsBefore(rows: seq<MonthProductTotal>, x: Month, y: Month) {
    exists i :: 0 <= i < |rows| && rows[i].month == x && forall j :: 0 <= j <= i ==> rows[j].month != y
  }

  /** Records come out in the order of their months' first appearance. */
  lemma {:induction false} FoldOrderFirstAppearance(rows: seq<MonthProductTotal>)
    ensures forall a, b :: 0 <= a < b < |Fold(rows).order| ==>
              AppearsBefore(rows, Fold(rows).order[a], Fold(rows).order[b])
    decreases |rows|
  {
    if rows != [] {
      var pre := rows[..|rows| - 1];
      var g := rows[|rows| - 1];
      FoldLast(rows);
      FoldOrderFirstAppearance(pre);
      var before := Fold(pre).order;
      var after := Fold(rows).order;
      forall a, b | 0 <= a < b < |after| ensures AppearsBefore(rows, after[a], after[b]) {
        if b < |before| {
          assert after[a] == before[a] && after[b] == before[b];
          var i :| 0 <= i < |pre| && pre[i].month == before[a] &&
                   forall j :: 0 <= j <= i ==> pre[j].month != before[b];
          assert rows[i] == pre[i];
          assert forall j :: 0 <= j <= i ==> rows[j] == pre[j];
        } else {
          assert g.month !in Fold(pre).data && after[b] == g.month;
          assert after[a] == before[a];
          FoldMonths(pre, after[a]);
          FoldMonths(pre, g.month);
          var i :| 0 <= i < |pre| && pre[i].month == after[a];
          assert rows[i] == pre[i];
          assert forall j :: 0 <= j <= i ==> rows[j] == pre[j];
        }
      }
    }
  }

  /** Rows ordered by month (as `ORDER BY month ASC` leaves them) give
      records in strictly ascending month order. */
  lemma AscendingMonths(rows: seq<MonthProductTotal>)
    requires forall i, j :: 0 <= i < j < |rows| ==> MonthLe(rows[i].month, rows[j].month)
    ensures forall a, b :: 0 <= a < b < |Fold(rows).order| ==>
              MonthLe(Fold(rows).order[a], Fold(rows).order[b]) && Fold(rows).order[a] != Fold(rows).order[b]
  {
    var order := Fold(rows).order;
    FoldOrderFirstAppearance(rows);
    forall a, b | 0 <= a < b < |order| ensures MonthLe(order[a], order[b]) {
      assert AppearsBefore(rows, order[a], order[b]);
      var i :| 0 <= i < |rows| && rows[i].month == order[a] &&
               forall j :: 0 <= j <= i ==> rows[j].month != order[b];
      FoldMonths(rows, order[b]);
      var k :| 0 <= k < |rows| && rows[k].month == order[b];
      assert i < k;
    }
  }

  /** The total of a month is the sum of the incomes of all its rows,
      whatever their products, provided no product's lower-cased name is
      "total" (such a row would overwrite the running total). */
  lemma {:induction false} FoldTotal(rows: seq<MonthProductTotal>, m: Month)
    requires m in Fold(rows).data
    requires forall i :: 0 <= i < |rows| && rows[i].month == m ==> Lower(rows[i].product) != "total"
    ensures Fold(rows).data[m].total == Sum(rows, MonthShare(m))
    decreases |rows|
  {
    var pre := rows[..|rows| - 1];
    var g := rows[|rows| - 1];
    FoldLast(rows);
    SplitLast(rows);
    SumConcat(pre, [g], MonthShare(m));
    assert Sum([g], MonthShare(m)) == MonthShare(m)(g);
    if m in Fold(pre).data {
      FoldTotal(pre, m);
    } else {
      assert g.month == m;
      FoldMonths(pre, m);
      SumZero(pre, MonthShare(m));
    }
  }

  /** The income of the last row of month `m` whose lower-cased product is `key`. */
  function LastFor(rows: seq<MonthProductTotal>, m: Month, key: string): Option<real>
    decreases |rows|
  {
    if rows == [] then None
    else
      var g := rows[|rows| - 1];
      if g.month == m && Lower(g.product) == key then Some(g.total)
      else LastFor(rows[..|rows| - 1], m, key)
  }

  /** Every field other than total holds the income of the month's last row
      for that lower-cased product name (posted, not added). A name no row
      used keeps its initial value (0 for the five fixed products, the month
      for "month") or is absent. So a product outside the five adds a field,
      and a product named "month" replaces the month. The name "__proto__"
      never becomes a field. */
  lemma {:induction false} FoldField(rows: seq<MonthProductTotal>, m: Month, key: string)
    requires m in Fold(rows).data && key != "total"
    ensures key == ProtoKey ==> key !in Fold(rows).data[m].fields
    ensures key != ProtoKey && LastFor(rows, m, key).Some? ==>
              key in Fold(rows).data[m].fields &&
              Fold(rows).data[m].fields[key] == Amount(LastFor(rows, m, key).value)
    ensures key != ProtoKey && LastFor(rows, m, key).None? ==>
              (key in Fold(rows).data[m].fields <==> key in NewRecord(m).fields) &&
              (key in NewRecord(m).fields ==> Fold(rows).data[m].fields[key] == NewRecord(m).fields[key])
    decreases |rows|
  {
    var pre := rows[..|rows| - 1];
    FoldLast(rows);
    if m in Fold(pre).data {
      FoldField(pre, m, key);
    } else {
      FoldMonths(pre, m);
      LastForAbsent(pre, m, key);
    }
  }

  lemma {:induction false} LastForAbsent(rows: seq<MonthProductTotal>, m: Month, key: string)
    requires forall i :: 0 <= i < |rows| ==> rows[i].month != m
    ensures LastFor(rows, m, key).None?
    decreases |rows|
  {
    if rows != [] {
      LastForAbsent(rows[..|rows| - 1], m, key);
    }
  }

  /** A month whose only row is for a product outside the five gets that
      product as an extra field, next to the five at 0. */
  lemma UnknownProductAddsField(m: Month, product: string, income: real)
    requires Lower(product) !in FixedProducts && Lower(product) != "total" && Lower(product) != "month"
    requires Lower(product) != ProtoKey
    ensures var rec := AsObject(Fold([MonthProductTotal(m, product, income)]).data[m]);
            && Lower(product) in rec && rec[Lower(product)] == Amount(income)
            && (forall f :: f in FixedProducts ==> f in rec && rec[f] == Amount(0.0))
            && "month" in rec && rec["month"] == Label(m)
            && rec["total"] == Amount(income)
  {
    var rows := [MonthProductTotal(m, product, income)];
    FoldLast(rows);
    assert rows[..0] == [];
  }

  /** A product whose lower-cased name is "__proto__" adds no field; its
      income still goes into the total. */
  lemma ProtoProductAddsNoField(m: Month, product: string, income: real)
    requires Lower(product) == ProtoKey
    ensures var rec := AsObject(Fold([MonthProductTotal(m, product, income)]).data[m]);
            && ProtoKey !in rec
            && rec.Keys == {"month", "milk", "tea", "honey", "macadamia", "apples", "total"}
            && rec["total"] == Amount(income)
  {
    var rows := [MonthProductTotal(m, product, income)];
    FoldLast(rows);
    assert rows[..0] == [];
  }

  /** A product whose lower-cased name is "total" overwrites the running
      total and is then added to it: one such row of income x gives total 2x. */
  lemma ProductNamedTotalDoubles(m: Month, product: string, income: real)
    requires Lower(product) == "total"
    ensures Fold([MonthProductTotal(m, product, income)]).data[m].total == 2.0 * income
  {
    var rows := [MonthProductTotal(m, product, income)];
    FoldLast(rows);
    assert rows[..0] == [];
  }
}
