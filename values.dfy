/** Values shared by every handler: JavaScript truthiness of request and
    token fields, SQL comparison with NULL, calendar dates, and the shape of
    an HTTP reply (a status with a payload, or a status with a message). */
module Values {

  datatype Option<+T> = None | Some(value: T)

  /** A farm id as it travels through request bodies, token claims and table
      rows. None stands for JavaScript undefined/null and for SQL NULL. */
  type FarmRef = Option<int>

  /** JavaScript truthiness of a farm id: undefined, null and 0 are falsy. */
  predicate Truthy(f: FarmRef) {
    f.Some? && f.value != 0
  }

  /** JavaScript `a || b` on two farm ids. */
  function OrElse(a: FarmRef, b: FarmRef): FarmRef {
    if Truthy(a) then a else b
  }

  /** JavaScript truthiness of a string field of a request body: a missing
      field and the empty string are falsy. */
  predicate Filled(s: Option<string>) {
    s.Some? && s.value != ""
  }

  /** SQL `a = b` in a WHERE or ON clause: NULL never compares equal. */
  predicate SqlEq(a: FarmRef, b: FarmRef) {
    a.Some? && b.Some? && a.value == b.value
  }

  /** A calendar date (a PostgreSQL `date`). */
  datatype Date = Date(year: int, month: int, day: int)

  /** A calendar month, the value of `TO_CHAR(date, 'YYYY-MM')`. */
  datatype Month = Month(year: int, month: int)

  /** `TO_CHAR(d, 'YYYY-MM')`, equivalently `DATE_TRUNC('month', d)`. */
  function MonthOf(d: Date): Month {
    Month(d.year, d.month)
  }

  /** Chronological order of months (the order of their 'YYYY-MM' text). */
  predicate MonthLe(a: Month, b: Month) {
    a.year < b.year || (a.year == b.year && a.month <= b.month)
  }

  /** What a handler sends: a success status with its JSON payload, or an
      error status with the message it puts in the JSON error object. */
  datatype Reply<+T> = Ok(status: int, body: T) | Fail(status: int, message: string)

  /** `String.prototype.toLowerCase` on one character (ASCII letters only). */
  function LowerChar(c: char): char {
    if 'A' <= c <= 'Z' then (c as int + 32) as char else c
  }

  /** `String.prototype.toLowerCase` (ASCII letters only). */
  function Lower(s: string): string {
    seq(|s|, i requires 0 <= i < |s| => LowerChar(s[i]))
  }
}
