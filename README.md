# Farm manager backend: a Dafny model of its handlers

This project models the request handlers of a small farm-management backend
written for Express and PostgreSQL. It also proves what those handlers
promise. Four pieces are modelled:

- **The authentication gate** (`backend/middleware/authMiddleware.js`). It
  checks for the `Authorization` header, then for the exact `Bearer <token>`
  shape, then asks the JWT verifier. On success it admits the request with
  the identity `{id, role, farm_id}`. The farm id is taken from either of
  the two claim names.
- **Accounts** (`backend/controllers/authController.js`). This covers token
  issue, login, signup and the current-user lookup. Signup checks its fields
  in the source's order and applies the role rules: an owner gets a new farm
  and a manager must name one. A duplicate email found by the pre-check and
  one caught by the store's unique constraint give the same reply. No reply
  carries the password hash.
- **Prices** (`backend/controllers/priceController.js`). This covers the
  farm's price list ordered by product, and the price validation rule. It
  also covers the in-place update scoped to (product, farm), which answers
  404 when no row of the caller's farm matches. The current-month income
  has its fallback value.
- **Production and income** (`backend/controllers/productionController.js`):
  - the listing, which left-joins prices and is newest first;
  - the insert, which reports the price it used (0 when there is none) and
    the derived income;
  - the income totals, which inner-join prices and are 0 when nothing
    matches;
  - the per-(month, product) grouping and the count of distinct products
    recorded today;
  - the loop in `getMonthlyIncome` that reshapes grouped rows into one record
    per month.

The model's modules:

- `Values`: JavaScript truthiness, SQL comparison with NULL, dates and
  months, and the reply shape.
- `Relational`: filter, sum and a stable sort with lexicographic keys. These
  stand for WHERE, SUM and ORDER BY.
- `Tables`: the four tables, held as sequences inside the `Database` class.
  Its methods are the INSERT and UPDATE statements the handlers issue. The
  class keeps the store's invariants: serial ids, unique emails, and one
  price per (product, farm).
- `Queries`: the inner join, the left join and the grouping.
- `AuthMiddleware`, `AuthController`, `PriceController`,
  `ProductionController` and `MonthlyIncome`: the handlers.

Where the source changes state, the model is imperative:

- The INSERT and UPDATE statements are methods of the `Database` class.
  They keep the class's invariant.
- The signup, price-update and production-insert handlers are methods that
  take a `Database` and call those statements.
- The monthly reshape is a loop over a map and an insertion-order sequence.

Two of these methods are proved against a function that specifies them:

- the price UPDATE against `Repriced`;
- the reshape loop against `Fold`.

The lemmas about those methods are stated on the specifying function. The
other methods state the new tables directly in terms of the old ones. The
pure handlers are functions whose definitions and contracts together give
the reply for every input, error cases included.

External services are parameters:

- the JWT verifier and signer;
- bcrypt's hash and compare;
- JavaScript's `Number()` on a price string;
- the clock (`now`, `today`).

## Model

| member | source | states |
|---|---|---|
| AuthMiddleware.Authenticate | backend/middleware/authMiddleware.js:8-34 | Checks run in a fixed order. A missing or empty header gives 401 "No token provided". A header that is not exactly "Bearer", one space and a token without spaces gives 401 "Invalid token format". A failed verification gives 401 "Invalid or expired token". Each of these holds in both directions. Only the success path accepts, and the token verified is exactly the text after "Bearer ". |
| AuthMiddleware.FormatCheck | backend/middleware/authMiddleware.js:14-19 | Splitting on single spaces gives exactly two parts, the first "Bearer", if and only if the header is "Bearer " followed by a space-free token. The second part is then that token. |
| AuthMiddleware.SplitJoin | backend/middleware/authMiddleware.js:14 | `split(" ")` loses nothing: no part holds a space, and joining the parts with single spaces gives the header back. |
| AuthMiddleware.Split | backend/middleware/authMiddleware.js:14 | `split(" ")`: the pieces between single spaces, empty pieces kept, always at least one. Its meaning is fixed by AuthMiddleware.SplitJoin. |
| AuthMiddleware.Normalize | backend/middleware/authMiddleware.js:27-31 | The identity has the claims' id and role. Its farm_id is `farm_id` when that claim is truthy and `farmId` otherwise. It is truthy if and only if one of the two claims is. |
| AuthMiddleware.DoubleSpaceRejected | backend/middleware/authMiddleware.js:14-17 | "Bearer", two spaces and a token is rejected as malformed, whatever the verifier says. |
| AuthMiddleware.LowerCaseSchemeRejected | backend/middleware/authMiddleware.js:15-16 | The scheme is case-sensitive: "bearer <token>" is rejected as malformed. |
| AuthMiddleware.BareTokenRejected | backend/middleware/authMiddleware.js:14-17 | A token sent without the scheme is rejected as malformed. |
| AuthController.TokenClaims | backend/controllers/authController.js:8-14 | The signed payload is issued at `now` and expires one day (86400 s) later. Read back by the gate, it gives the user's id and role. It gives the user's farm_id when that is truthy, and no farm otherwise. |
| AuthController.GenerateToken | backend/controllers/authController.js:8-14 | The token is the signer's output on TokenClaims. Its properties are stated by AuthController.TokenCarriesNoSecrets and AuthController.IssuedTokenAuthenticates. |
| AuthController.TokenCarriesNoSecrets | backend/controllers/authController.js:8-14 | Two users with the same id, role and farm_id get the same token at the same time. So the password hash, username and email never enter it. |
| AuthController.IssuedTokenAuthenticates | backend/controllers/authController.js:8-14 | The signed payload is the user's id, role and farm_id, issued at `now` and expiring one day later. Given a verifier that returns what was signed, the token passes the gate as that user's id, role and farm. |
| AuthController.FindByEmail | backend/controllers/authController.js:28-29 | Finds a user if and only if the email is stored. The user found has that email. With unique emails it is the only such user. |
| AuthController.FindById | backend/controllers/authController.js:131-135 | Finds nothing if and only if no stored user has the id. Otherwise it finds a stored user with that id. |
| AuthController.Login | backend/controllers/authController.js:21-51 | A missing or empty email or password gives 400 before any lookup. An unknown email gives 400 "No account found with that email", in both directions. With unique emails, a wrong password gives 400 "Incorrect password", in both directions. Success holds exactly when the stored hash matches. The reply is then the signed token and the user's public fields: id, username as name, email, role and farm_id. |
| AuthController.LoginFindsStoredUser | backend/controllers/authController.js:28-51 | A stored user whose hash is the hash of a password logs in with that password and receives their token and public fields. |
| AuthController.LoginFailuresDistinguishable | backend/controllers/authController.js:31-38 | An unknown email and a wrong password give different messages. |
| AuthController.GetCurrentUser | backend/controllers/authController.js:130-141 | 404 "User not found" if and only if no stored user has the token's id. Otherwise the reply is that user's id, username, email, role and farm_id. |
| AuthController.Signup | backend/controllers/authController.js:63-119 | Missing fields give 400 and no change. An email already stored gives 400 "Email already registered" and no change. An owner gets a farm named after them, with the next farm id, stored before the user. A manager without a truthy farm_id gives 400 and no user is stored. Any other role keeps the farm_id it sent. A signup that takes the email between the pre-check and the insert makes the insert fail with the same 400. Otherwise the user row is appended with the next id and the hashed password, and the reply is the token and public fields. Prices and production are unchanged throughout. |
| Tables.Database.InsertFarm | backend/controllers/authController.js:80-84 | Appends the farm with the next serial id, which no stored farm has, and returns that id. Nothing else changes. |
| Tables.Database.InsertUser | backend/controllers/authController.js:94-101 | A stored email gives the unique violation and no change. Otherwise the row is appended with the next serial id. The serial value is used up either way. |
| Tables.Database.UpdatePrices | backend/controllers/priceController.js:38-44 | The price table becomes its repriced version. The rows returned are those of the product on that farm afterwards. One price per (product, farm) still holds, and the other tables are unchanged. |
| Tables.Repriced | backend/controllers/priceController.js:38-44 | The prices table after `UPDATE ... SET price, updated_at WHERE product AND farm_id`. The rows matching both conditions get the new price and time, and every other row is kept as it was. Its properties are stated by the four Repriced lemmas below. |
| Tables.RepricedChangesOnlyTarget | backend/controllers/priceController.js:38-44 | The update changes only price and updated_at, and only on the rows of that product on that farm. The same product on another farm, and every other row, is untouched. |
| Tables.RepricedNoMatch | backend/controllers/priceController.js:46-48 | An update that matches no row leaves the table unchanged. |
| Tables.RepricedIdempotent | backend/controllers/priceController.js:38-50 | Repeating the update gives the same rows and the same prices. Only updated_at moves to the later time. |
| Tables.RepricedKeepsUnique | backend/controllers/priceController.js:38-44 | The update keeps at most one price per (product, farm). |
| Tables.Database.InsertProduction | backend/controllers/productionController.js:45-50 | Appends the row with the next serial id and returns it. Nothing else changes. |
| Queries.MatchingPrices | backend/controllers/productionController.js:85-86 | The price rows paired with a production row are exactly those with the same product and the same non-NULL farm. There are none if and only if no price row matches. |
| Queries.AtMostOnePrice | backend/controllers/productionController.js:85-86 | With one price per (product, farm), a production row is paired with at most one price. |
| Queries.InnerJoin | backend/controllers/productionController.js:84-87 | `production JOIN prices ON product and farm_id WHERE p.farm_id = $1`: each production row of the farm is paired with each of its matching price rows, in production order. Its meaning is fixed by Queries.InnerJoinMembers and Queries.InnerJoinIsolated. |
| Queries.InnerJoinMembers | backend/controllers/productionController.js:84-87 | A pair is in the inner join if and only if its production row is stored on the caller's farm and its price row is stored with the same product and farm. |
| Queries.UnpricedRowIgnored | backend/controllers/productionController.js:127-131 | A production row with no price for its product on its farm adds nothing to the inner join, so nothing to any income figure. |
| Queries.InnerJoinIsolated | backend/controllers/productionController.js:84-87 | The join for a farm sees only that farm's rows. Production and price rows of other farms, or with NULL farms, make no difference. |
| Queries.LeftJoin | backend/controllers/productionController.js:21-24 | The left join restricted to the farm. A production row with no matching price is listed once with null price and income. Its meaning is fixed by Queries.LeftJoinListsEveryRow. |
| Queries.LeftJoinListsEveryRow | backend/controllers/productionController.js:21-24 | With one price per (product, farm), the left join holds exactly one entry per production row of the farm, in order. Each entry carries its price and quantity × price, or null for both when unpriced. |
| Queries.GroupBy | backend/controllers/productionController.js:83-88 | `GROUP BY month, product` with `SUM(quantity * price)`: one group per key, in order of first appearance. Its meaning is fixed by the five lemmas below. |
| Queries.GroupHasRow | backend/controllers/productionController.js:83-88 | Every group's (month, product) key is the key of some joined row. |
| Queries.RowHasGroup | backend/controllers/productionController.js:83-88 | Every joined row's (month, product) key has a group. |
| Queries.GroupKeysDistinct | backend/controllers/productionController.js:83-88 | No two groups share a (month, product) key. |
| Queries.GroupTotals | backend/controllers/productionController.js:83-88 | A group's total is the sum of quantity × price over the joined rows with its key. |
| Queries.GroupByPreservesIncome | backend/controllers/productionController.js:83-88 | The group totals add up to the income of all joined rows. |
| Queries.GroupByMonthIncome | backend/controllers/productionController.js:83-88 | The groups of one month add up to that month's income. |
| MonthlyIncome.Booked | backend/controllers/productionController.js:107-108 | One row's effect on its month's record. The income is assigned to the field named by the lower-cased product. When that name is "total" it is assigned to the total itself. When that name is "__proto__" it is assigned nowhere, since JavaScript ignores a number assigned there. The income is then added to total. |
| MonthlyIncome.Fold | backend/controllers/productionController.js:93-109 | The map of records and its insertion order after the forEach has run over the rows. Every month in the order has a record. The lemmas below state what it holds. |
| MonthlyIncome.Reshape | backend/controllers/productionController.js:92-111 | The loop over the grouped rows, on a map and its insertion order, returns the records of the row-by-row fold. The loop invariant keeps the state equal to the fold of the rows seen so far. |
| MonthlyIncome.FoldMonths | backend/controllers/productionController.js:95-106 | A month has a record if and only if some row has that month. |
| MonthlyIncome.FoldOrderMatchesData | backend/controllers/productionController.js:93-111 | The output order lists exactly the months with a record, each once, so there is one record per month. |
| MonthlyIncome.FoldOrderFirstAppearance | backend/controllers/productionController.js:95-111 | Records come out in the order their months first appear in the rows. |
| MonthlyIncome.AscendingMonths | backend/controllers/productionController.js:89-111 | Rows ordered by month give records in strictly ascending month order. |
| MonthlyIncome.FoldTotal | backend/controllers/productionController.js:108 | A month's total is the sum of the incomes of all its rows, whatever their products. This assumes no product lower-cases to "total". |
| MonthlyIncome.FoldField | backend/controllers/productionController.js:96-107 | "__proto__" never becomes a field. Every other field except total holds the income of the month's last row for that lower-cased name, assigned rather than added. A name no row used keeps its initial value or is absent. The initial value is 0 for milk, tea, honey, macadamia and apples, and the month for "month". |
| MonthlyIncome.UnknownProductAddsField | backend/controllers/productionController.js:96-108 | A product outside the five fixed names adds its own field. The fixed fields stay at 0, and the month and total are set. |
| MonthlyIncome.ProtoProductAddsNoField | backend/controllers/productionController.js:96-108 | A product whose lower-cased name is "__proto__" adds no field. The record keeps exactly month, the five fixed products and total, and the income still goes into the total. |
| MonthlyIncome.ProductNamedTotalDoubles | backend/controllers/productionController.js:107-108 | A product whose lower-cased name is "total" overwrites the running total and is then added to it, so one such row of income x gives total 2x. |
| ProductionController.GetProduction | backend/controllers/productionController.js:10-26 | The listing is newest date first and is a permutation of the farm's left join. |
| ProductionController.GetProductionListsFarmRows | backend/controllers/productionController.js:10-26 | With one price per (product, farm), the listing has one entry per production row of the caller's farm and no other entries. Each entry has its price and income, or null for both. |
| ProductionController.QuotedPrice | backend/controllers/productionController.js:52-56 | The first matching row's price, or 0 when that price is missing or falsy. It is 0 when the farm has no price row for the product. A non-zero result is the price of a row of that product on that farm. |
| ProductionController.QuotedPriceIsListedPrice | backend/controllers/productionController.js:52-56 | The price an insert reports is the farm's price for the product, the one the listing shows. It is 0 when the listing shows null. |
| ProductionController.AddProduction | backend/controllers/productionController.js:41-64 | Replies 201. The stored row has the next id, the request's fields, the date or else today, and the caller's user id and farm. The reply carries that row, the farm's price for the product (0 when there is none) and quantity × price. Only the production table and its serial change. |
| ProductionController.AddedRowIsListed | backend/controllers/productionController.js:45-50 | After an insert, the caller's listing shows the new row with its price. |
| ProductionController.AddedIncomeIsListedIncome | backend/controllers/productionController.js:56-61 | For a priced product the income an insert reports is the income the listing shows. For an unpriced product the insert reports 0 where the listing shows null. |
| ProductionController.CurrentMonthIncome | backend/controllers/productionController.js:126-133 | The sum of quantity × price over the farm's priced rows in today's month is 0 when there are none. The result is never empty. |
| ProductionController.TodayIncome | backend/controllers/productionController.js:178-185 | The same sum over the farm's priced rows dated today is 0 when there are none. |
| ProductionController.TodayWithinMonth | backend/controllers/productionController.js:126-185 | The month's income is today's income plus that of the month's other days. |
| ProductionController.TodayProducts | backend/controllers/productionController.js:202-207 | A name is in the set if and only if some row of the caller's farm dated today has that product. Priced and unpriced rows both count. |
| ProductionController.TodayProductsCount | backend/controllers/productionController.js:202-209 | The count is 0 if and only if the farm has no row dated today. It never exceeds the number of such rows. |
| ProductionController.IncomeByProductMonthly | backend/controllers/productionController.js:150-161 | The result is ordered by month, then product. There is one row per (month, product) that has priced rows, and no other rows. Each row's total is the sum of quantity × price over that key's rows. |
| ProductionController.MonthlyRows | backend/controllers/productionController.js:79-90 | The grouped, inner-joined rows of the farm ordered by month. Within a month the order is the groups' first appearance, one of the orders SQL allows. Its properties are stated by the three Monthly lemmas below. |
| ProductionController.GetMonthlyIncome | backend/controllers/productionController.js:75-111 | The records are the reshaping of the grouped monthly rows. |
| ProductionController.MonthlyRecordsPerMonth | backend/controllers/productionController.js:79-111 | There is a record for a month if and only if the farm has priced rows in it. No priced rows gives no records. |
| ProductionController.MonthlyRecordsAscending | backend/controllers/productionController.js:89-111 | The records come in strictly ascending month order. |
| ProductionController.MonthlyTotalIsMonthIncome | backend/controllers/productionController.js:79-132 | A month record's total equals the current-month income for that month. This assumes no product lower-cases to "total". |
| PriceController.GetPrices | backend/controllers/priceController.js:6-16 | 400 "Missing farm_id in token" if and only if the farm id is falsy. Otherwise 200 with exactly the caller farm's price rows, each stored on that farm, every such row present, sorted by product. |
| PriceController.AcceptedPrice | backend/controllers/priceController.js:34-36 | The `!price`/`isNaN(price)` test. The price is rejected exactly when it is falsy (absent, 0 or "") or Number() of it is NaN. Otherwise the stored value is Number() of it. |
| PriceController.PriceRule | backend/controllers/priceController.js:34-36 | For every input: a missing price and the empty string are rejected. A number passes exactly when it is not 0, so every negative number passes unchanged. A non-empty string gives whatever Number() makes of it, so "0" passes as 0. |
| PriceController.UpdatePrice | backend/controllers/priceController.js:26-50 | A falsy farm gives 400 and no change, checked first. An invalid price gives 400 and no change. A valid price reprices exactly the caller's (product, farm) rows at `now`. When no row matches, the reply is 404 "Product not found for this farm". When some row matches, the reply is 200. A 404 leaves the table unchanged. A 200 reply carries a stored row of that product and farm with the new price and time. Users, farms and production are unchanged. |
| PriceController.TargetSurvivesUpdate | backend/controllers/priceController.js:38-48 | When some row of the caller's farm has the product, the update's RETURNING is not empty. PriceController.UpdatePrice uses this to prove that such a request gets 200. |
| PriceController.UpdatedRowIsRepriced | backend/controllers/priceController.js:38-50 | Every row the update returns carries the new price and time. |
| PriceController.UpdateHitsOneRow | backend/controllers/priceController.js:38-50 | With one price per (product, farm), the update returns at most one row. |
| PriceController.CurrentMonthSummary | backend/controllers/priceController.js:60-77 | 400 if and only if the farm id is falsy. Otherwise the income is the sum of quantity × price over the farm's priced rows in today's month. The month label is the 'YYYY-MM' fallback with income 0 exactly when there are no such rows. Otherwise it is the first day of the month. |
| PriceController.CurrentMonthEndpointsAgree | backend/controllers/priceController.js:65-77 | For a caller with a farm, this endpoint and the production controller's current-month total report the same income. |

## Left out

- JWT signing and verification are oracles `sign` and `verify`. bcrypt hashing and comparison are oracles `hash` and `matches`. Signatures, the secret and expiry checking are not modelled.
- The model is sequential. Asynchrony, the connection pool, logging and every catch→500 path are not modelled. Store failures are not modelled either: a NOT NULL violation, or a date string that does not cast. The only store error modelled is the unique violation on users.email.
- AuthController.Signup: the only concurrent interleaving modelled is one rival signup that commits between the pre-check and the insert.
- Quantities, prices and incomes are exact reals. JavaScript number rounding and PostgreSQL numeric scale are not modelled.
- PostgreSQL returns numeric columns as strings. As a result, a stored price of 0 reaches `price || 0` as the truthy text "0.00". The model works with the numeric value, which makes no difference to the income.
- PriceController.UpdatePrice: one oracle `coerce` stands both for JavaScript's `Number()` in the `isNaN` test and for PostgreSQL's parse of the text it stores. Inputs on which the two differ are not modelled, for example hexadecimal text or "Infinity". JSON booleans, arrays and objects sent as a price are not modelled.
- `ORDER BY product` is modelled as code-point order on the text. The database's collation is not modelled.
- `toLowerCase` is modelled on ASCII letters only.
- MonthlyIncome.Reshape: a record is a map from field name to value. The order of keys inside a JSON object is not modelled.
- ProductionController.GetMonthlyIncome: SQL leaves the order of rows within one month open. The model takes one such order, so which product wins a lower-cased name clash within a month follows that order.
- ProductionController.GetProduction: rows with the same date come in an order SQL leaves open. The model fixes one order and states only that dates do not increase.
- The clock is read once, as a parameter. The difference between the server's UTC date (`toISOString`) and the database's `CURRENT_DATE` is not modelled.
- Token claims are assumed to carry `id` and `role`.
- Farm ids are modelled as integers or absent only. A JSON string `farm_id`
  such as `"0"`, which is truthy for the manager rule, cannot be expressed.
  `COUNT(DISTINCT ...)`, which the driver returns as a bigint string, is
  modelled as a number. The salted, randomised `bcrypt.hash` is modelled as
  a deterministic function `hash`.
- MonthlyIncome.FoldTotal: stated only for months where no product lower-cases to "total". That case is stated on its own by MonthlyIncome.ProductNamedTotalDoubles.
- ProductionController.MonthlyTotalIsMonthIncome: stated only when no priced product lower-cases to "total", for the same reason.
- backend/server.js, the route files and the model files are not part of this model. They hold Express wiring, and SQL wrappers that no handler imports.
