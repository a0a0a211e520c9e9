/** The four PostgreSQL tables the handlers use (users, farms, prices,
    production), held as sequences in insertion order, with the store's own
    guarantees: serial ids, the unique constraint on users.email and at most
    one price row per (product, farm). The INSERT and UPDATE statements the
    handlers issue are the methods of Database. */
module Tables {
  import opened Values
  import opened Relational

  /** A row of `users`; `passwordHash` is the stored one-way hash. */
  datatype UserRow = UserRow(id: int, username: string, email: string, passwordHash: string,
                             role: string, farmId: FarmRef)

  /** A row of `farms`. */
  datatype FarmRow = FarmRow(id: int, name: string)

  /** A row of `prices`: the current price of one product on one farm. */
  datatype PriceRow = PriceRow(product: string, price: real, unit: string, farmId: FarmRef,
                               updatedAt: int)

  /** A row of `production`: one recorded harvest or yield. */
  datatype ProductionRow = ProductionRow(id: int, product: string, quantity: real, unit: string,
                                         date: Date, notes: Option<string>, userId: int,
                                         farmId: FarmRef)

  /** The values of an `INSERT INTO users` before the store assigns the id. */
  datatype NewUser = NewUser(username: string, email: string, passwordHash: string, role: string,
                             farmId: FarmRef)

  /** Outcome of `INSERT INTO users ... RETURNING`: the stored row, or the
      unique violation (SQLSTATE 23505) on users.email. */
  datatype UserInsert = Inserted(row: UserRow) | UniqueViolation

  predicate EmailTaken(users: seq<UserRow>, email: string) {
    exists i :: 0 <= i < |users| && users[i].email == email
  }

  predicate UniqueEmails(users: seq<UserRow>) {
    forall i, j :: 0 <= i < j < |users| ==> users[i].email != users[j].email
  }

  /** At most one price row per (product, farm). */
  predicate UniquePrices(prices: seq<PriceRow>) {
    forall i, j :: 0 <= i < j < |prices| ==>
      prices[i].product != prices[j].product || prices[i].farmId != prices[j].farmId
  }

  /** Serial ids: every id lies in [1, next) and ids grow in insertion order. */
  predicate UserIdsSerial(users: seq<UserRow>, next: int) {
    && (forall i :: 0 <= i < |users| ==> 1 <= users[i].id < next)
    && (forall i, j :: 0 <= i < j < |users| ==> users[i].id < users[j].id)
  }

  predicate FarmIdsSerial(farms: seq<FarmRow>, next: int) {
    && (forall i :: 0 <= i < |farms| ==> 1 <= farms[i].id < next)
    && (forall i, j :: 0 <= i < j < |farms| ==> farms[i].id < farms[j].id)
  }

  predicate ProductionIdsSerial(rows: seq<ProductionRow>, next: int) {
    && (forall i :: 0 <= i < |rows| ==> 1 <= rows[i].id < next)
    && (forall i, j :: 0 <= i < j < |rows| ==> rows[i].id < rows[j].id)
  }

  /** `WHERE product = $2 AND farm_id = $3` of the price update. */
  predicate Targets(pr: PriceRow, product: string, farm: FarmRef) {
    pr.product == product && SqlEq(pr.farmId, farm)
  }

  /** `UPDATE prices SET price = $1, updated_at = NOW() WHERE ...`: the
      table after the update. */
  function Repriced(prices: seq<PriceRow>, product: string, farm: FarmRef, price: real, now: int)
    : seq<PriceRow>
  {
    seq(|prices|, i requires 0 <= i < |prices| =>
      if Targets(prices[i], product, farm) then prices[i].(price := price, updatedAt := now) else prices[i])
  }

  /** The update changes only price and updated_at, and only on the rows of
      that product on that farm; the same product on any other farm, and
      every other row, is untouched. */
  lemma RepricedChangesOnlyTarget(prices: seq<PriceRow>, product: string, farm: FarmRef, price: real, now: int)
    ensures var r := Repriced(prices, product, farm, price, now);
            && |r| == |prices|
            && (forall i :: 0 <= i < |prices| && !Targets(prices[i], product, farm) ==> r[i] == prices[i])
            && (forall i :: 0 <= i < |prices| && Targets(prices[i], product, farm) ==>
                  r[i].price == price && r[i].updatedAt == now &&
                  r[i].product == prices[i].product && r[i].unit == prices[i].unit &&
                  r[i].farmId == prices[i].farmId)
  {
  }

  /** An update that matches no row leaves the table as it was. */
  lemma RepricedNoMatch(prices: seq<PriceRow>, product: string, farm: FarmRef, price: real, now: int)
    requires forall i :: 0 <= i < |prices| ==> !Targets(prices[i], product, farm)
    ensures Repriced(prices, product, farm, price, now) == prices
  {
  }

  /** Repeating an update, at any later time, leaves the same rows with the
      same prices; only updated_at moves. */
  lemma RepricedIdempotent(prices: seq<PriceRow>, product: string, farm: FarmRef, price: real,
                           now: int, later: int)
    ensures var once := Repriced(prices, product, farm, price, now);
            var twice := Repriced(once, product, farm, price, later);
            && |twice| == |once|
            && (forall i :: 0 <= i < |once| ==> twice[i].price == once[i].price)
            && twice == Repriced(prices, product, farm, price, later)
  {
  }

  /** The update keeps at most one price row per (product, farm). */
  lemma RepricedKeepsUnique(prices: seq<PriceRow>, product: string, farm: FarmRef, price: real, now: int)
    requires UniquePrices(prices)
    ensures UniquePrices(Repriced(prices, product, farm, price, now))
  {
  }

  class Database {
    var users: seq<UserRow>
    var farms: seq<FarmRow>
    var prices: seq<PriceRow>
    var production: seq<ProductionRow>
    /** The next values of the serial sequences behind users.id, farms.id and production.id. */
    var nextUserId: int
    var nextFarmId: int
    var nextProductionId: int

    ghost predicate Valid()
      reads this
    {
      && UniqueEmails(users)
      && UniquePrices(prices)
      && 1 <= nextUserId && UserIdsSerial(users, nextUserId)
      && 1 <= nextFarmId && FarmIdsSerial(farms, nextFarmId)
      && 1 <= nextProductionId && ProductionIdsSerial(production, nextProductionId)
    }

    /** An empty store whose price list is seeded (no handler inserts prices). */
    constructor (seed: seq<PriceRow>)
      requires UniquePrices(seed)
      ensures Valid()
      ensures users == [] && farms == [] && production == [] && prices == seed
    {
      users, farms, prices, production := [], [], seed, [];
      nextUserId, nextFarmId, nextProductionId := 1, 1, 1;
    }

    /** `INSERT INTO farms (name) VALUES ($1) RETURNING id`: the new farm gets
        the next serial id, which no existing farm has. */
    method InsertFarm(name: string) returns (id: int)
      requires Valid()
      modifies this
      ensures Valid()
      ensures id == old(nextFarmId) && nextFarmId == id + 1
      ensures forall k :: 0 <= k < |old(farms)| ==> old(farms)[k].id != id
      ensures farms == old(farms) + [FarmRow(id, name)]
      ensures users == old(users) && prices == old(prices) && production == old(production)
      ensures nextUserId == old(nextUserId) && nextProductionId == old(nextProductionId)
    {
      id := nextFarmId;
      farms := farms + [FarmRow(id, name)];
      nextFarmId := nextFarmId + 1;
    }

    /** `INSERT INTO users ... RETURNING ...`: refused with a unique violation
        when the email is already stored; otherwise the row is appended with
        the next serial id. The serial value is consumed either way, as a
        PostgreSQL sequence is. */
    method InsertUser(u: NewUser) returns (r: UserInsert)
      requires Valid()
      modifies this
      ensures Valid()
      ensures nextUserId == old(nextUserId) + 1
      ensures EmailTaken(old(users), u.email) ==> r == UniqueViolation && users == old(users)
      ensures !EmailTaken(old(users), u.email) ==>
        && r == Inserted(UserRow(old(nextUserId), u.username, u.email, u.passwordHash, u.role, u.farmId))
        && users == old(users) + [r.row]
      ensures farms == old(farms) && prices == old(prices) && production == old(production)
      ensures nextFarmId == old(nextFarmId) && nextProductionId == old(nextProductionId)
    {
      if EmailTaken(users, u.email) {
        r := UniqueViolation;
      } else {
        var row := UserRow(nextUserId, u.username, u.email, u.passwordHash, u.role, u.farmId);
        users := users + [row];
        r := Inserted(row);
      }
      nextUserId := nextUserId + 1;
    }

    /** `UPDATE prices SET price = $1, updated_at = NOW() WHERE product = $2
        AND farm_id = $3 RETURNING *`: the table is repriced in place and the
        rows it now holds for that product and farm are returned. */
    method UpdatePrices(product: string, farm: FarmRef, price: real, now: int)
      returns (updated: seq<PriceRow>)
      requires Valid()
      modifies this
      ensures Valid()
      ensures prices == Repriced(old(prices), product, farm, price, now)
      ensures updated == Filter(prices, (pr: PriceRow) => Targets(pr, product, farm))
      ensures users == old(users) && farms == old(farms) && production == old(production)
      ensures nextUserId == old(nextUserId) && nextFarmId == old(nextFarmId)
      ensures nextProductionId == old(nextProductionId)
    {
      RepricedKeepsUnique(prices, product, farm, price, now);
      prices := Repriced(prices, product, farm, price, now);
      updated := Filter(prices, (pr: PriceRow) => Targets(pr, product, farm));
    }

    /** `INSERT INTO production (...) RETURNING *`: the row is appended with
        the next serial id. */
    method InsertProduction(product: string, quantity: real, unit: string, date: Date,
                            notes: Option<string>, userId: int, farmId: FarmRef)
      returns (row: ProductionRow)
      requires Valid()
      modifies this
      ensures Valid()
      ensures row == ProductionRow(old(nextProductionId), product, quantity, unit, date, notes, userId, farmId)
      ensures production == old(production) + [row] && nextProductionId == old(nextProductionId) + 1
      ensures users == old(users) && farms == old(farms) && prices == old(prices)
      ensures nextUserId == old(nextUserId) && nextFarmId == old(nextFarmId)
    {
      row := ProductionRow(nextProductionId, product, quantity, unit, date, notes, userId, farmId);
      production := production + [row];
      nextProductionId := nextProductionId + 1;
    }
  }
}
