/**
 * The data shapes of the ratings client: a stored rating row, the input of
 * rating creation, the response envelope, and the rating summary.
 *
 * Dates are strings as the store gives them. Turning one into a point in time
 * and a local calendar month (what the source's `Date` parsing and its
 * timezone-dependent month and year accessors do) is an injected `DateParser`;
 * `None` stands for a string that does not parse (an invalid date).
 */
module Ratings {
  import opened Outcomes

  /** A derived timestamp: epoch milliseconds, or NaN for an unparseable date. */
  datatype Timestamp = Millis(ms: int) | NotANumber

  /** A calendar month in the local timezone. */
  datatype CalendarMonth = CalendarMonth(year: int, month: int)

  /** A parsed date: its epoch milliseconds and its local calendar month. */
  datatype LocalDate = LocalDate(epochMs: int, local: CalendarMonth)

  type DateParser = string -> Option<LocalDate>

  /** One stored review. `timestamp` is absent in the store and attached on read. */
  datatype Rating = Rating(
    id: string,
    rating: real,
    createdAt: string,
    comment: Option<string>,
    timestamp: Option<Timestamp>)

  /** What a caller passes to rating creation: a rating without `id` and `createdAt`. */
  datatype RatingInput = RatingInput(rating: real, comment: Option<string>, timestamp: Option<Timestamp>)

  /** The row the client asks the store to insert. */
  datatype NewRow = NewRow(rating: real, comment: Option<string>)

  /** The response envelope of the client operations. */
  datatype ApiResponse<T> = ApiResponse(data: T, error: Option<string>)

  /** The summary shown beside the ratings. `distribution[k - 1]` is the count for score `k`. */
  datatype RatingSummary = RatingSummary(total: nat, average: real, monthly: nat, distribution: seq<nat>)

  /** The envelope of the summary operation, whose error slot holds a thrown value or null. */
  datatype SummaryResponse = SummaryResponse(data: RatingSummary, error: Option<Thrown>)

  /** The timestamp derived from a creation date. */
  function TimestampOf(createdAt: string, parse: DateParser): Timestamp
  {
    match parse(createdAt)
    case Some(d) => Millis(d.epochMs)
    case None => NotANumber
  }
}
