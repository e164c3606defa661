/**
 * The ratings client: fetching all ratings, creating one, and computing the
 * summary, each run inside the retry wrapper.
 *
 * The hosted store is injected. `select(i)` is the store's answer to the select
 * issued on the `i`-th attempt of the wrapper, and `insert(i, row)` its answer to
 * the insert of `row` on the `i`-th attempt. An answer carrying an error and a
 * call that throws are both a rejected outcome, because the client rethrows the
 * former and the store raises the latter.
 */
module RatingsClient {
  import opened Outcomes
  import opened Ratings
  import opened Retry
  import opened Aggregation

  /** The store's answer to a select of all rows: the rows, a null data field, or a failure. */
  type SelectAnswer = Outcome<Option<seq<Rating>>>

  /** The rows of an answer, a null data field standing for no rows. */
  function RowsOf(data: Option<seq<Rating>>): seq<Rating>
  {
    match data
    case Some(rows) => rows
    case None => []
  }

  /** The rows as read, each with a timestamp derived from its creation date. */
  function WithTimestamps(rows: seq<Rating>, parse: DateParser): (stamped: seq<Rating>)
    ensures |stamped| == |rows|
    ensures forall i :: 0 <= i < |rows| ==> stamped[i].(timestamp := rows[i].timestamp) == rows[i]
    ensures forall i :: 0 <= i < |rows| ==> stamped[i].timestamp == Some(TimestampOf(rows[i].createdAt, parse))
  {
    if rows == [] then []
    else [rows[0].(timestamp := Some(TimestampOf(rows[0].createdAt, parse)))] + WithTimestamps(rows[1..], parse)
  }

  /** One attempt of the fetch, which catches every failure of the store itself. */
  function FetchAttempt(answer: SelectAnswer, parse: DateParser): (r: ApiResponse<seq<Rating>>)
    ensures r.error.Some? <==> answer.Rejected?
    ensures answer.Rejected? ==> r.data == []
    ensures answer.Resolved? ==> |r.data| == |RowsOf(answer.value)|
  {
    match answer
    case Resolved(data) => ApiResponse(WithTimestamps(RowsOf(data), parse), None)
    case Rejected(e) => ApiResponse([], Some(Message(e)))
  }

  /** The operation the fetch hands to the retry wrapper. */
  function FetchOp(select: nat -> SelectAnswer, parse: DateParser): nat -> Outcome<ApiResponse<seq<Rating>>>
  {
    (i: nat) => Resolved(FetchAttempt(select(i), parse))
  }

  /** fetchRatings: how the promise it returns settles. */
  function FetchRatings(select: nat -> SelectAnswer, parse: DateParser): (r: Outcome<ApiResponse<seq<Rating>>>)
    ensures r.Resolved?
    ensures r.value.error.Some? <==> select(0).Rejected?
  {
    NeverRejectingOpRunsOnce(FetchOp(select, parse));
    RetryRun(FetchOp(select, parse)).result
  }

  /** The fetch never rejects and makes one attempt, so the store is asked once.
      On success it returns the store's rows in the same order and number, each
      unchanged but for its derived timestamp; on failure it returns no rows and
      the failure's message. */
  lemma FetchRatingsContract(select: nat -> SelectAnswer, parse: DateParser)
    ensures RetryRun(FetchOp(select, parse)).attempts == 1
    ensures RetryRun(FetchOp(select, parse)).waits == 0
    ensures FetchRatings(select, parse).Resolved?
    ensures var resp := FetchRatings(select, parse).value;
      && (resp.error.Some? <==> select(0).Rejected?)
      && (select(0).Rejected? ==> resp.data == [] && resp.error == Some(Message(select(0).error)))
      && (select(0).Resolved? ==>
            var rows := RowsOf(select(0).value);
            && |resp.data| == |rows|
            && (forall i :: 0 <= i < |rows| ==> resp.data[i].(timestamp := rows[i].timestamp) == rows[i])
            && (forall i :: 0 <= i < |rows| ==> resp.data[i].timestamp == Some(TimestampOf(rows[i].createdAt, parse))))
  {
    NeverRejectingOpRunsOnce(FetchOp(select, parse));
  }

  /** The row that creation inserts: exactly the caller's rating and comment. */
  function Payload(input: RatingInput): NewRow
  {
    NewRow(input.rating, input.comment)
  }

  /** One attempt of the creation. `None` stands for the empty placeholder object
      returned in place of a rating when the insert fails. */
  function CreateAttempt(answer: Outcome<Rating>): (r: ApiResponse<Option<Rating>>)
    ensures r.error.Some? <==> answer.Rejected?
    ensures r.data.Some? <==> answer.Resolved?
  {
    match answer
    case Resolved(row) => ApiResponse(Some(row), None)
    case Rejected(e) => ApiResponse(None, Some(Message(e)))
  }

  /** The operation the creation hands to the retry wrapper. */
  function CreateOp(input: RatingInput, insert: (nat, NewRow) -> Outcome<Rating>): nat -> Outcome<ApiResponse<Option<Rating>>>
  {
    (i: nat) => Resolved(CreateAttempt(insert(i, Payload(input))))
  }

  /** createRating: how the promise it returns settles. */
  function CreateRating(input: RatingInput, insert: (nat, NewRow) -> Outcome<Rating>): (r: Outcome<ApiResponse<Option<Rating>>>)
    ensures r.Resolved?
    ensures r.value.error.Some? <==> insert(0, NewRow(input.rating, input.comment)).Rejected?
  {
    NeverRejectingOpRunsOnce(CreateOp(input, insert));
    assert CreateOp(input, insert)(0) == Resolved(CreateAttempt(insert(0, Payload(input))));
    RetryRun(CreateOp(input, insert)).result
  }

  /** The creation never rejects and makes one attempt, inserting only the
      caller's rating and comment. It returns the stored row when the insert
      succeeds and the placeholder with the failure's message when it fails. */
  lemma CreateRatingContract(input: RatingInput, insert: (nat, NewRow) -> Outcome<Rating>)
    ensures RetryRun(CreateOp(input, insert)).attempts == 1
    ensures RetryRun(CreateOp(input, insert)).waits == 0
    ensures CreateRating(input, insert).Resolved?
    ensures var resp := CreateRating(input, insert).value;
      var answer := insert(0, NewRow(input.rating, input.comment));
      && (resp.error.Some? <==> answer.Rejected?)
      && (answer.Resolved? ==> resp.data == Some(answer.value))
      && (answer.Rejected? ==> resp.data == None && resp.error == Some(Message(answer.error)))
  {
    NeverRejectingOpRunsOnce(CreateOp(input, insert));
    assert CreateOp(input, insert)(0) == Resolved(CreateAttempt(insert(0, Payload(input))));
  }

  /** JavaScript truthiness of the fetch's error slot: present and non-empty. */
  predicate Truthy(error: Option<string>)
  {
    error.Some? && error.value != ""
  }

  /** One attempt of the summary, given how the inner fetch settled: a truthy
      fetch error and a rejected fetch (the catch path) both give the all-zero
      summary, and the error slot is null on every path. */
  function SummaryAttempt(fetched: Outcome<ApiResponse<seq<Rating>>>, now: CalendarMonth, parse: DateParser): (r: SummaryResponse)
    ensures r.error == None
    ensures fetched.Rejected? || (fetched.Resolved? && Truthy(fetched.value.error)) ==> r.data == ZeroSummary
    ensures r.data.total <= (if fetched.Resolved? then |fetched.value.data| else 0)
  {
    match fetched
    case Rejected(_) => SummaryResponse(ZeroSummary, None)
    case Resolved(resp) =>
      if Truthy(resp.error) then SummaryResponse(ZeroSummary, None)
      else SummaryResponse(Summarize(resp.data, now, parse), None)
  }

  /** The operation the summary hands to the retry wrapper. Each of its attempts
      runs one fetch, and each fetch issues exactly one select, so the fetch of
      attempt `i` sees the store's answers from the `i`-th on. */
  function SummaryOp(select: nat -> SelectAnswer, now: CalendarMonth, parse: DateParser): nat -> Outcome<SummaryResponse>
  {
    (i: nat) => Resolved(SummaryAttempt(FetchRatings((j: nat) => select(i + j), parse), now, parse))
  }

  /** getRatingSummary: how the promise it returns settles; `now` is the caller's
      current local month. */
  function GetRatingSummary(select: nat -> SelectAnswer, now: CalendarMonth, parse: DateParser): (r: Outcome<SummaryResponse>)
    ensures r.Resolved? && r.value.error == None
  {
    NeverRejectingOpRunsOnce(SummaryOp(select, now, parse));
    RetryRun(SummaryOp(select, now, parse)).result
  }

  /** The summary never rejects, makes one attempt, and always reports a null
      error. It is the all-zero summary when the store fails, and otherwise the
      summary of exactly the rows the store returned. */
  lemma GetRatingSummaryContract(select: nat -> SelectAnswer, now: CalendarMonth, parse: DateParser)
    ensures RetryRun(SummaryOp(select, now, parse)).attempts == 1
    ensures RetryRun(SummaryOp(select, now, parse)).waits == 0
    ensures GetRatingSummary(select, now, parse) == Resolved(SummaryResponse(
      match select(0)
      case Rejected(_) => ZeroSummary
      case Resolved(data) => Summarize(RowsOf(data), now, parse),
      None))
  {
    var op := SummaryOp(select, now, parse);
    NeverRejectingOpRunsOnce(op);
    var select0 := (j: nat) => select(0 + j);
    FetchRatingsContract(select0, parse);
    var resp := FetchRatings(select0, parse).value;
    assert select0(0) == select(0);
    match select(0)
    case Rejected(e) =>
      assert resp.data == [];
    case Resolved(data) =>
      SummarizeIgnoresTimestamps(RowsOf(data), resp.data, now, parse);
  }

  /** When the store fails, the summary is all zeros, every bucket included, and
      its error is still null. */
  lemma SummaryMasksStoreFailure(select: nat -> SelectAnswer, now: CalendarMonth, parse: DateParser)
    requires select(0).Rejected?
    ensures GetRatingSummary(select, now, parse) ==
      Resolved(SummaryResponse(RatingSummary(0, 0.0, 0, [0, 0, 0, 0, 0]), None))
  {
    GetRatingSummaryContract(select, now, parse);
  }
}
