/** The `/api/summaries` route: POST creates a summary behind the rate
    limiter and the input checks; GET lists stored summaries through a
    where-clause built from optional query parameters. */
module SummariesRoute {
  import opened Wrappers
  import opened Text
  import opened Types
  import opened Sequences
  import RateLimit

  const MaxTextLength: int := 10000
  const MaxListed: nat := 50

  const RateLimitedMessage: string := "Rate limit exceeded. Please try again later."
  const RequiredMessage: string := "Original text is required"
  const EmptyMessage: string := "Original text cannot be empty"
  const TooLongMessage: string := "Text is too long. Please limit to 10,000 characters."
  const InvalidStyleMessage: string := "Invalid summary style"
  const FetchFailedMessage: string := "Failed to fetch summaries"

  /** A member of the JSON request body: absent (undefined), a string, or
      any other JSON value (null, a number, a boolean, an array, an object). */
  datatype Field = Absent | Str(s: string) | Other

  /** The parsed request body, or the message of the error that reading or
      destructuring it threw. */
  datatype CreateBody =
    | Malformed(message: string)
    | CreateBody(originalText: Field, summaryStyle: Field)

  /** What a response carries under its `{success, data, error}` envelope. */
  datatype Payload = One(summary: Summary) | Many(summaries: seq<Summary>) | Error(message: string)

  datatype Response = Response(status: int, payload: Payload)

  /** The data handed to the store's `create`. */
  datatype NewSummary = NewSummary(originalText: string, summaryText: string, summaryStyle: Style)

  /** What the store assigns to a created record. */
  datatype Stamp = Stamp(id: string, createdAt: int)

  /** The response of a POST, and the record handed to the store if the
      handler got as far as calling `create`. */
  datatype PostResult = PostResult(response: Response, created: Option<NewSummary>)

  // ---------------------------------------------------------------- POST

  /** The style the request asks for: an absent style defaults to concise;
      a string must name a style; any other value (null included) names none. */
  function RequestedStyle(f: Field): Option<Style> {
    match f
    case Absent => Some(Concise)
    case Str(s) => ParseStyle(s)
    case Other => None
  }

  /** The POST input checks, in the order the handler runs them; the first
      failing check decides the message. On success, the style to use. */
  function Validate(originalText: Field, summaryStyle: Field): Outcome<Style> {
    if !originalText.Str? || originalText.s == "" then Failed(RequiredMessage)
    else if |Trim(originalText.s)| == 0 then Failed(EmptyMessage)
    else if |originalText.s| > MaxTextLength then Failed(TooLongMessage)
    else
      match RequestedStyle(summaryStyle)
      case None => Failed(InvalidStyleMessage)
      case Some(style) => Ok(style)
  }

  /** Each validation message is returned exactly when every earlier check
      passed and its own check fails; otherwise the request is accepted. */
  lemma ValidationOrder(t: Field, st: Field)
    ensures Validate(t, st) == Failed(RequiredMessage) <==> !t.Str? || t.s == ""
    ensures Validate(t, st) == Failed(EmptyMessage) <==> t.Str? && t.s != "" && IsBlank(t.s)
    ensures Validate(t, st) == Failed(TooLongMessage) <==> t.Str? && !IsBlank(t.s) && |t.s| > MaxTextLength
    ensures Validate(t, st) == Failed(InvalidStyleMessage) <==>
      t.Str? && !IsBlank(t.s) && |t.s| <= MaxTextLength && RequestedStyle(st).None?
    ensures Validate(t, st).Ok? <==>
      t.Str? && !IsBlank(t.s) && |t.s| <= MaxTextLength && RequestedStyle(st).Some?
    ensures Validate(t, st).Ok? ==> Validate(t, st).value == RequestedStyle(st).value
  {
    if t.Str? && t.s == "" {
      assert IsBlank(t.s);
    }
  }

  /** Boundaries: exactly 10,000 characters pass and 10,001 do not; text
      made only of whitespace is "empty" although its raw length is not 0;
      the empty string is "required"; an omitted style means concise, a
      null one is invalid. */
  lemma ValidationBoundaries()
    ensures Validate(Str(seq(10000, _ => 'a')), Absent) == Ok(Concise)
    ensures Validate(Str(seq(10001, _ => 'a')), Absent) == Failed(TooLongMessage)
    ensures Validate(Str(" \t\n"), Absent) == Failed(EmptyMessage)
    ensures Validate(Str(""), Absent) == Failed(RequiredMessage)
    ensures Validate(Str("text"), Other) == Failed(InvalidStyleMessage)
  {
    var ok := seq(10000, _ => 'a');
    assert !IsJsWhitespace(ok[0]);
    var long := seq(10001, _ => 'a');
    assert !IsJsWhitespace(long[0]);
    assert !IsJsWhitespace("text"[0]);
  }

  /** The POST handler after the rate-limit decision: reject when not
      admitted, read and validate the body, generate the summary text, then
      persist. Every error thrown on the way becomes a 500 with its message. */
  function HandlePost(admitted: bool, body: CreateBody,
                      generate: (string, Style) -> Outcome<string>,
                      store: Outcome<Stamp>): PostResult
  {
    if !admitted then PostResult(Response(429, Error(RateLimitedMessage)), None)
    else
      match body
      case Malformed(m) => PostResult(Response(500, Error(m)), None)
      case CreateBody(t, st) =>
        match Validate(t, st)
        case Failed(m) => PostResult(Response(400, Error(m)), None)
        case Ok(style) =>
          match generate(t.s, style)
          case Failed(m) => PostResult(Response(500, Error(m)), None)
          case Ok(text) =>
            var record := NewSummary(t.s, text, style);
            match store
            case Failed(m) => PostResult(Response(500, Error(m)), Some(record))
            case Ok(stamp) =>
              var saved := Summary(stamp.id, t.s, text, style, stamp.createdAt, stamp.createdAt);
              PostResult(Response(200, One(saved)), Some(record))
  }

  /** A request the limiter turns away is answered 429 before its body is
      looked at, and nothing reaches the store. */
  lemma PostRateLimited(body: CreateBody, generate: (string, Style) -> Outcome<string>, store: Outcome<Stamp>)
    ensures HandlePost(false, body, generate, store) == PostResult(Response(429, Error(RateLimitedMessage)), None)
  {
  }

  /** The store is called only after the limiter admitted the request, the
      body validated, and generation succeeded; it is called with the
      request's text, the validated style and the generated text. */
  lemma PostCreatesOnlyAfterGeneration(admitted: bool, body: CreateBody,
                                       generate: (string, Style) -> Outcome<string>,
                                       store: Outcome<Stamp>)
    ensures var r := HandlePost(admitted, body, generate, store);
      r.created.Some? <==>
        && admitted && body.CreateBody?
        && Validate(body.originalText, body.summaryStyle).Ok?
        && generate(body.originalText.s, Validate(body.originalText, body.summaryStyle).value).Ok?
    ensures var r := HandlePost(admitted, body, generate, store);
      r.created.Some? ==>
        var style := Validate(body.originalText, body.summaryStyle).value;
        r.created.value == NewSummary(body.originalText.s, generate(body.originalText.s, style).value, style)
  {
  }

  /** The outcome classes of POST: 429 for the limiter, 400 exactly for a
      validation failure (with its message), 200 exactly when the store
      accepted a record, 500 otherwise. Only 200 carries data. */
  lemma PostStatus(admitted: bool, body: CreateBody,
                   generate: (string, Style) -> Outcome<string>,
                   store: Outcome<Stamp>)
    ensures var r := HandlePost(admitted, body, generate, store);
      && (r.response.status == 429 <==> !admitted)
      && (r.response.status == 400 <==>
            admitted && body.CreateBody? && Validate(body.originalText, body.summaryStyle).Failed?)
      && (r.response.status == 400 ==>
            r.response.payload == Error(Validate(body.originalText, body.summaryStyle).message))
      && (r.response.status == 200 <==> r.created.Some? && store.Ok?)
      && (r.response.payload.One? <==> r.response.status == 200)
      && r.response.status in {200, 400, 429, 500}
  {
  }

  /** A valid admitted request either yields the saved record, whose text
      and style are the request's, whose summary is what generation
      produced and whose id is the store's, or a 500 carrying the failing
      collaborator's message; never a record that differs from the request. */
  lemma ValidRequestYieldsRecordOrServerError(text: string, st: Field,
                                              generate: (string, Style) -> Outcome<string>,
                                              store: Outcome<Stamp>)
    requires Validate(Str(text), st).Ok?
    ensures var style := Validate(Str(text), st).value;
      var r := HandlePost(true, CreateBody(Str(text), st), generate, store).response;
      || (&& r.status == 200 && r.payload.One?
          && r.payload.summary.originalText == text
          && r.payload.summary.summaryStyle == style
          && r.payload.summary.summaryText == generate(text, style).value
          && r.payload.summary.id == store.value.id)
      || (r.status == 500 && r.payload.Error?
          && (generate(text, style).Failed? || store.Failed?)
          && r.payload.message == if generate(text, style).Failed? then generate(text, style).message else store.message)
  {
  }

  /** POST as a whole: the limiter is consulted and charged first, so a
      request with an invalid body still uses up quota; then the rest of the
      handler runs on the decision. */
  method Post(limiter: RateLimit.RateLimiter, headers: RateLimit.Headers, now: int, body: CreateBody,
              generate: (string, Style) -> Outcome<string>, store: Outcome<Stamp>)
    returns (result: PostResult)
    requires limiter.Valid()
    modifies limiter
    ensures limiter.Valid()
    ensures var d := RateLimit.Admit(old(limiter.entries), RateLimit.RateLimitKey(headers), now);
      limiter.entries == d.entries && result == HandlePost(d.admitted, body, generate, store)
  {
    var key := RateLimit.RateLimitKey(headers);
    var admitted := limiter.Check(key, now);
    result := HandlePost(admitted, body, generate, store);
  }

  // ----------------------------------------------------------------- GET

  /** The where-clause: an OR of case-insensitive `contains` on the two
      texts, and an exact style; either part may be missing. */
  datatype WhereClause = WhereClause(textContains: Option<string>, summaryStyle: Option<Style>)

  /** The store query: an optional where-clause (absent means no filter),
      newest first by `createdAt`, at most `take` rows. */
  datatype Query = Query(where: Option<WhereClause>, take: nat)

  /** The query GET builds from its optional `search` and `style`
      parameters. */
  function BuildQuery(search: Option<string>, style: Option<string>): Query {
    var text := if search.Some? && search.value != "" then Some(search.value) else None;
    var st := if style.Some? then ParseStyle(style.value) else None;
    Query(if text.None? && st.None? then None else Some(WhereClause(text, st)), MaxListed)
  }

  /** The text condition is present exactly for a non-empty `search`, the
      style condition exactly for a valid `style`; the clause is left out
      when both are; at most 50 rows are asked for. */
  lemma BuildQueryShape(search: Option<string>, style: Option<string>)
    ensures var q := BuildQuery(search, style);
      && q.take == 50
      && (q.where.None? <==>
            (search.None? || search.value == "") && (style.None? || ParseStyle(style.value).None?))
      && (q.where.Some? ==>
            && (q.where.value.textContains.Some? <==> search.Some? && search.value != "")
            && (q.where.value.textContains.Some? ==> q.where.value.textContains.value == search.value)
            && (q.where.value.summaryStyle.Some? <==> style.Some? && ParseStyle(style.value).Some?)
            && (q.where.value.summaryStyle.Some? ==> StyleName(q.where.value.summaryStyle.value) == style.value))
  {
  }

  /** An invalid style is dropped rather than reported, and an empty search
      is the same as none. */
  lemma BuildQueryIgnoresInvalidInput(search: Option<string>, style: Option<string>)
    ensures style.Some? && ParseStyle(style.value).None? ==> BuildQuery(search, style) == BuildQuery(search, None)
    ensures search == Some("") ==> BuildQuery(search, style) == BuildQuery(None, style)
  {
  }

  /** What a where-clause admits: the text condition holds when either text
      contains the term ignoring case, the style condition on equal style. */
  predicate Matches(w: Option<WhereClause>, s: Summary) {
    || w.None?
    || (&& (w.value.textContains.None?
              || ContainsIgnoringCase(s.originalText, w.value.textContains.value)
              || ContainsIgnoringCase(s.summaryText, w.value.textContains.value))
        && (w.value.summaryStyle.None? || s.summaryStyle == w.value.summaryStyle.value))
  }

  function Matcher(w: Option<WhereClause>): Summary -> bool {
    s => Matches(w, s)
  }

  /** Rows in non-increasing `createdAt` order. */
  ghost predicate NewestFirst(s: seq<Summary>) {
    forall i, j :: 0 <= i < j < |s| ==> s[i].createdAt >= s[j].createdAt
  }

  /** A row no older than the head of a newest-first sequence may go in
      front of it. */
  lemma PrependNewest(x: Summary, sorted: seq<Summary>)
    requires NewestFirst(sorted)
    requires sorted == [] || x.createdAt >= sorted[0].createdAt
    ensures NewestFirst([x] + sorted)
  {
    var r := [x] + sorted;
    forall i, j | 0 <= i < j < |r|
      ensures r[i].createdAt >= r[j].createdAt
    {
      assert r[j] == sorted[j - 1];
      if i > 0 {
        assert r[i] == sorted[i - 1];
      } else if j > 1 {
        assert sorted[0].createdAt >= sorted[j - 1].createdAt;
      }
    }
  }

  /** Places `x` into a newest-first sequence. */
  function InsertNewest(x: Summary, sorted: seq<Summary>): (r: seq<Summary>)
    requires NewestFirst(sorted)
    ensures NewestFirst(r)
    ensures multiset(r) == multiset(sorted) + multiset{x}
    ensures |r| == |sorted| + 1 && (r[0] == x || (sorted != [] && r[0] == sorted[0]))
  {
    if sorted == [] || x.createdAt >= sorted[0].createdAt then
      PrependNewest(x, sorted);
      [x] + sorted
    else
      var head, tail := sorted[0], sorted[1..];
      assert sorted == [head] + tail;
      assert NewestFirst(tail);
      var rest := InsertNewest(x, tail);
      assert head.createdAt >= rest[0].createdAt;
      PrependNewest(head, rest);
      [head] + rest
  }

  /** `orderBy: { createdAt: 'desc' }`: a newest-first permutation. */
  function SortNewestFirst(s: seq<Summary>): (r: seq<Summary>)
    ensures NewestFirst(r)
    ensures multiset(r) == multiset(s)
  {
    if s == [] then []
    else
      assert s == [s[0]] + s[1..];
      InsertNewest(s[0], SortNewestFirst(s[1..]))
  }

  /** All rows that match the query's clause, newest first. */
  function Ranked(rows: seq<Summary>, q: Query): seq<Summary> {
    SortNewestFirst(Filter(rows, Matcher(q.where)))
  }

  /** The meaning of a query over the stored rows: the matching rows,
      newest first, cut to `take`. */
  function FindMany(rows: seq<Summary>, q: Query): seq<Summary> {
    var ranked := Ranked(rows, q);
    ranked[..if |ranked| <= q.take then |ranked| else q.take]
  }

  /** A query returns at most `take` rows, each of them stored and matching
      the clause, newest first. */
  lemma FindManySound(rows: seq<Summary>, q: Query)
    ensures var r := FindMany(rows, q);
      && |r| <= q.take
      && NewestFirst(r)
      && (forall i :: 0 <= i < |r| ==> r[i] in rows && Matches(q.where, r[i]))
  {
    var matching := Filter(rows, Matcher(q.where));
    var sorted := Ranked(rows, q);
    var r := FindMany(rows, q);
    forall i | 0 <= i < |r|
      ensures r[i] in rows && Matches(q.where, r[i])
    {
      assert r[i] == sorted[i];
      assert sorted[i] in multiset(sorted);
      assert r[i] in multiset(matching);
    }
  }

  /** Together with the matching rows it leaves out, a query's result makes
      up all the matching rows; it leaves rows out only when `take` is
      reached, and none of those left out is newer than any row returned. */
  lemma FindManyKeepsNewest(rows: seq<Summary>, q: Query)
    ensures var r := FindMany(rows, q);
      var omitted := Ranked(rows, q)[|r|..];
      && multiset(r) + multiset(omitted) == multiset(Filter(rows, Matcher(q.where)))
      && (|r| < q.take ==> omitted == [])
      && (forall i, j :: 0 <= i < |r| && 0 <= j < |omitted| ==> r[i].createdAt >= omitted[j].createdAt)
  {
    var sorted := Ranked(rows, q);
    var r := FindMany(rows, q);
    var omitted := sorted[|r|..];
    assert sorted == r + omitted;
    forall i, j | 0 <= i < |r| && 0 <= j < |omitted|
      ensures r[i].createdAt >= omitted[j].createdAt
    {
      assert r[i] == sorted[i] && omitted[j] == sorted[|r| + j];
    }
  }

  /** The stored rows as the store would return them, or a store failure. */
  datatype StoreState = Available(rows: seq<Summary>) | Unavailable

  /** The GET handler: 200 with the query's rows, or 500 when the store
      fails. An empty result is a success, not an error. */
  function HandleGet(search: Option<string>, style: Option<string>, store: StoreState): Response {
    match store
    case Unavailable => Response(500, Error(FetchFailedMessage))
    case Available(rows) => Response(200, Many(FindMany(rows, BuildQuery(search, style))))
  }

  /** Without parameters GET lists every stored row newest first when there
      are at most 50 of them. */
  lemma UnfilteredListIsAllRowsNewestFirst(rows: seq<Summary>)
    requires |rows| <= MaxListed
    ensures var r := HandleGet(None, None, Available(rows));
      && r.status == 200 && r.payload.Many?
      && multiset(r.payload.summaries) == multiset(rows)
      && NewestFirst(r.payload.summaries)
  {
    FilterAllKept(rows, Matcher(None));
    var sorted := Ranked(rows, BuildQuery(None, None));
    assert FindMany(rows, BuildQuery(None, None)) == sorted;
  }

  /** Every successful GET returns at most 50 rows. */
  lemma GetListsAtMostFifty(search: Option<string>, style: Option<string>, store: StoreState)
    ensures var r := HandleGet(search, style, store);
      (r.status == 200 <==> store.Available?)
      && (r.status == 200 ==> r.payload.Many? && |r.payload.summaries| <= MaxListed)
  {
  }
}
