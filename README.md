# AI text summarizer — a Dafny model of its request rules and list logic

The application lets a user paste text, have a summary generated in one of
three styles (`concise`, `detailed`, `bullet-points`), and browse, search and
delete past summaries. This project models the parts of it that hold logic:

- the `/api/summaries` route (`src/app/api/summaries/route.ts`): the
  fixed-window rate limiter (a table from client key to `{count, resetTime}`,
  15-minute window, 10 admissions), the choice of client key from the
  forwarded-for and real-ip headers, the ordered POST input checks, the POST
  handler's flow from limiter to generator to store, and the GET handler's
  where-clause, ordering and 50-row cap (modules `RateLimit`,
  `SummariesRoute`);
- the list component (`src/components/SummariesList.tsx`): the query
  parameters it sends, its client-side search and style filters, deletion from
  the list, and the heading it shows (module `SummariesList`);
- the card component (`src/components/SummaryCard.tsx`): text truncation, the
  style badge colour and label, and the delete button's flow (module
  `SummaryCard`);
- the form component (`src/components/SummaryForm.tsx`): the submit checks,
  the loading/error/text transitions of a submission, and when the submit
  button is enabled (module `SummaryForm`).

Support modules: `Wrappers` (Option, Outcome), `Text` (JavaScript's `trim`
with its exact whitespace set, lower-casing, substring search), `Sequences`
(`filter` and the order it preserves), `Types` (the style enumeration and the
`Summary` record).

State that the source keeps in place is a class: `RateLimit.RateLimiter` (the
module-level map), `SummariesList.ListState`, `SummaryCard.Card` and
`SummaryForm.Form` (the components' `useState` fields). Each asynchronous
handler is split at its `await` into a method for the part before the request
and one for the part after the reply. Each method's postcondition ties the new
state to a function of the old one (`Admit`, `ApplyFilters`, `RemoveById`,
`CheckText`, ...), and the properties are proved about those functions.

The clock, the text generator and the database are parameters: `now` is an
argument of the limiter, generation is a function
`(text, style) -> Outcome<string>`, and the store's answer to `create` is an
`Outcome<Stamp>` (the id and timestamp it assigns). The meaning of a GET query
over the stored rows is given by a reference definition (`FindMany`: filter by
the where-clause, newest first, first 50).

A window resets only when `now > resetTime`
(src/app/api/summaries/route.ts:22), so a request at exactly `resetTime` still
counts against the old window (`AdmitAtResetTime`, `TenThenReject`).

## Model

| member | source | states |
|---|---|---|
| `RateLimit.FirstField` | src/app/api/summaries/route.ts:11 | `split(',')[0]`: the result is a comma-free prefix of the header, ending at its first comma or at its end |
| `RateLimit.RateLimitKeyChoice` | src/app/api/summaries/route.ts:9-13 | the key is `FirstField` of a non-empty forwarded-for header (all of its text before the first comma), else a non-empty real-ip header, else `"unknown"` |
| `RateLimit.RateLimitKey` | src/app/api/summaries/route.ts:9-13 | computes `getRateLimitKey`; its three cases are stated by `RateLimitKeyChoice` |
| `RateLimit.Admit` | src/app/api/summaries/route.ts:15-33 | computes `checkRateLimit` on an explicit table and time; its behaviour is stated by the `Admit...` lemmas below and `ReplayWithinWindow` |
| `RateLimit.AdmitStartsWindow` | src/app/api/summaries/route.ts:15-25 | a key with no entry or an expired one is admitted and gets `{count: 1, resetTime: now + 900000}` |
| `RateLimit.AdmitAtResetTime` | src/app/api/summaries/route.ts:22 | at `now == resetTime` the window is still live: the reset time is kept and the count decides |
| `RateLimit.AdmitRejectsExhausted` | src/app/api/summaries/route.ts:27-29 | a live key with `count >= 10` is rejected and the table is left unchanged |
| `RateLimit.AdmitCountsWithinWindow` | src/app/api/summaries/route.ts:27-32 | a live key under quota is admitted, its count rises by one, its reset time and every other key are unchanged |
| `RateLimit.AdmitDecision` | src/app/api/summaries/route.ts:15-33 | rejection happens exactly for a live exhausted key and changes nothing; a check only ever touches its own key |
| `RateLimit.AdmitPreservesWellFormed` | src/app/api/summaries/route.ts:15-33 | every check keeps `1 <= count <= 10` for every key |
| `RateLimit.ReplayWithinWindow` | src/app/api/summaries/route.ts:27-32 | inside a live window with `count` admissions, the i-th further check is admitted iff `count + i < 10` |
| `RateLimit.TenThenReject` | src/app/api/summaries/route.ts:17-32 | after a check opens a window, checks up to and including `first + 900000` admit the first 10 and reject all later ones |
| `RateLimit.RateLimiter.constructor` | src/app/api/summaries/route.ts:7 | the table starts empty and well formed |
| `RateLimit.RateLimiter.Check` | src/app/api/summaries/route.ts:15-33 | the in-place update leaves exactly the table and decision that `Admit` specifies, and keeps the count bound |
| `Types.ParseStyle` | src/app/api/summaries/route.ts:71-72 | a string is accepted as a style exactly when it spells one of the three |
| `Text.Trim` | src/app/api/summaries/route.ts:57 | `trim()` is empty exactly when every character is JavaScript whitespace; otherwise both ends are non-whitespace |
| `SummariesRoute.Validate` | src/app/api/summaries/route.ts:47-77 | computes the POST body checks, yielding the validated style or the first failing message; stated by `ValidationOrder` and `ValidationBoundaries` |
| `SummariesRoute.ValidationOrder` | src/app/api/summaries/route.ts:47-77 | the four messages come in order: missing, empty string or non-string → required; blank → empty; over 10,000 → too long; bad style → invalid; an omitted style means concise |
| `SummariesRoute.ValidationBoundaries` | src/app/api/summaries/route.ts:47-69 | 10,000 characters pass and 10,001 fail; whitespace-only text is "empty"; `""` is "required"; a null style is invalid |
| `SummariesRoute.HandlePost` | src/app/api/summaries/route.ts:35-105 | computes the POST response after the limiter's decision, with generation and storage as parameters; stated by `PostRateLimited`, `PostCreatesOnlyAfterGeneration`, `PostStatus` and `ValidRequestYieldsRecordOrServerError` |
| `SummariesRoute.PostRateLimited` | src/app/api/summaries/route.ts:37-44 | a request the limiter rejects gets 429 whatever its body, and nothing is stored |
| `SummariesRoute.PostCreatesOnlyAfterGeneration` | src/app/api/summaries/route.ts:79-89 | the store is called iff the request was admitted, validated and generation succeeded, with the request's text, the validated style and the generated text |
| `SummariesRoute.PostStatus` | src/app/api/summaries/route.ts:35-105 | 429 iff rejected by the limiter, 400 iff validation failed (with that message), 200 iff the store accepted a record, 500 otherwise |
| `SummariesRoute.ValidRequestYieldsRecordOrServerError` | src/app/api/summaries/route.ts:79-104 | a valid admitted request yields the saved record matching the request, or a 500 carrying the failing collaborator's message |
| `SummariesRoute.Post` | src/app/api/summaries/route.ts:35-50 | the limiter is charged from the headers and time alone, before and regardless of the body; the response is that of `HandlePost` on the decision |
| `SummariesRoute.BuildQuery` | src/app/api/summaries/route.ts:109-131 | computes the `findMany` arguments from the `search` and `style` parameters; stated by `BuildQueryShape` and `BuildQueryIgnoresInvalidInput` |
| `SummariesRoute.BuildQueryShape` | src/app/api/summaries/route.ts:113-131 | text condition iff `search` is non-empty, style condition iff `style` is valid, no clause iff neither, take 50 |
| `SummariesRoute.BuildQueryIgnoresInvalidInput` | src/app/api/summaries/route.ts:116-126 | an invalid style is dropped silently and an empty search means no search |
| `SummariesRoute.InsertNewest` | src/app/api/summaries/route.ts:130 | inserting into a newest-first list keeps it newest first and adds exactly the one row |
| `SummariesRoute.SortNewestFirst` | src/app/api/summaries/route.ts:130 | `orderBy createdAt desc` yields a newest-first permutation of its input |
| `SummariesRoute.FindMany` | src/app/api/summaries/route.ts:128-132 | the reference meaning of `findMany`: matching rows, newest first, the first `take`; stated by `FindManySound` and `FindManyKeepsNewest` |
| `SummariesRoute.FindManySound` | src/app/api/summaries/route.ts:128-132 | a query returns at most `take` rows, all stored and matching, newest first |
| `SummariesRoute.FindManyKeepsNewest` | src/app/api/summaries/route.ts:128-132 | returned plus left-out rows are all matching rows; rows are left out only at the cap, and none left out is newer than one returned |
| `SummariesRoute.UnfilteredListIsAllRowsNewestFirst` | src/app/api/summaries/route.ts:128-137 | a GET without parameters over at most 50 rows returns all of them, newest first |
| `SummariesRoute.HandleGet` | src/app/api/summaries/route.ts:107-145 | computes the GET response from the query parameters and the store; stated by `GetListsAtMostFifty` and `UnfilteredListIsAllRowsNewestFirst` |
| `SummariesRoute.GetListsAtMostFifty` | src/app/api/summaries/route.ts:107-145 | GET succeeds iff the store answers, and then lists at most 50 rows |
| `Sequences.Filter` | src/components/SummariesList.tsx:55 | `filter` never lengthens, keeps only accepted elements, and keeps every accepted one |
| `Sequences.FilterPreservesOrder` | src/components/SummariesList.tsx:51-66 | `filter` keeps exactly the accepted positions, in increasing order |
| `Sequences.FilterConjunction` | src/components/SummariesList.tsx:62-64 | filtering by one condition and then another equals filtering once by their AND |
| `Text.ExactOccurrenceFoundIgnoringCase` | src/components/SummariesList.tsx:54-58 | a term that occurs verbatim is found by the case-insensitive search |
| `Text.IgnoringCaseIgnoresTermCase` | src/components/SummariesList.tsx:54 | lower-casing the term first does not change what the search finds |
| `SummariesList.GetParam` | src/app/api/summaries/route.ts:109-111 | `searchParams.get` finds a value iff a parameter of that name exists, and returns the value of the first such parameter |
| `SummariesList.QueryParams` | src/components/SummariesList.tsx:25-27 | computes the parameters `fetchSummaries` appends; stated by `QueryParamsSent` and `ServerConditionIsClientCondition` |
| `SummariesList.QueryParamsSent` | src/components/SummariesList.tsx:25-27 | `search` is sent iff the term is non-empty, `style` iff the filter is not `all`, each with the selected value |
| `SummariesList.ServerConditionIsClientCondition` | src/components/SummariesList.tsx:25-29 | the where-clause the server builds from the sent parameters accepts exactly the summaries the client filter keeps |
| `SummariesList.ClientFilterOfServerResultIsIdentity` | src/components/SummariesList.tsx:36-66 | re-filtering the server's answer on the client with the same term and style changes nothing |
| `SummariesList.ApplyFilters` | src/components/SummariesList.tsx:49-67 | computes the filtering effect's two passes; stated by `ApplyFiltersIsOnePass` and `FilteredIsOrderedSubsequence` |
| `SummariesList.ApplyFiltersIsOnePass` | src/components/SummariesList.tsx:49-67 | the text pass then the style pass keep the same summaries, in order, as one pass with their AND (`all` and an empty term impose nothing) |
| `SummariesList.FilteredIsOrderedSubsequence` | src/components/SummariesList.tsx:51-66 | the filtered list is an order-preserving subsequence holding exactly the kept summaries, never longer than the list |
| `SummariesList.RemoveById` | src/components/SummariesList.tsx:69-71 | computes `handleDelete`'s new list; stated by `RemoveByIdKeepsOthersInOrder` and `FilteredAfterRemoveLacksId` |
| `SummariesList.RemoveByIdKeepsOthersInOrder` | src/components/SummariesList.tsx:69-71 | deletion removes every summary with the id and keeps all others in their original order |
| `SummariesList.FilteredAfterRemoveLacksId` | src/components/SummariesList.tsx:49-71 | after a deletion the shown list holds no summary with that id |
| `SummariesList.HeadingOf` | src/components/SummariesList.tsx:141-157 | computes the heading shown above the cards; stated by `HeadingOfFilteredList` |
| `SummariesList.HeadingOfFilteredList` | src/components/SummariesList.tsx:141-157 | "No summaries yet" iff the list is empty, "No summaries match" iff it is not but nothing passes, else "Showing n of m" with 0 < n <= m |
| `SummariesList.ListState.Render` | src/components/SummariesList.tsx:78-105 | computes what is on screen: the spinner while loading, else the error panel for a non-empty error, else the heading and the shown cards |
| `SummariesList.ListState.constructor` | src/components/SummariesList.tsx:13-18 | the initial state: empty lists, loading, no error, empty term, `all` |
| `SummariesList.ListState.BeginFetch` | src/components/SummariesList.tsx:20-27 | a fetch starts loading, clears the error and sends the query parameters of the current term and filter |
| `SummariesList.ListState.FinishFetch` | src/components/SummariesList.tsx:29-42 | success replaces the list (missing data is empty) and re-filters; failure keeps the list and shows the reply's error or the fallback message, a thrown `Error` its message, and any other thrown value "An error occurred"; loading ends |
| `SummariesList.ListState.RunFilterEffect` | src/components/SummariesList.tsx:49-67 | the effect makes the shown list the filtered list and changes nothing else |
| `SummariesList.ListState.SetSearchTerm` | src/components/SummariesList.tsx:120 | a new term re-filters the list |
| `SummariesList.ListState.SetStyleFilter` | src/components/SummariesList.tsx:130 | a new style filter re-filters the list |
| `SummariesList.ListState.Delete` | src/components/SummariesList.tsx:69-71 | the list loses the id's summaries, and the shown list is re-filtered and lacks them |
| `SummaryCard.TruncateText` | src/components/SummaryCard.tsx:66-69 | short text is unchanged; longer text becomes its first `max` characters plus `...` (length `max + 3`); the result always starts with the first `min(length, max)` characters |
| `SummaryCard.Card.Preview` | src/components/SummaryCard.tsx:122-131 | expanded cards show the whole text; collapsed ones show `TruncateText` of it at 150 characters (so at most 153) |
| `SummaryCard.BadgeColor` | src/components/SummaryCard.tsx:53-64 | the grey default is chosen exactly for strings that are not a style |
| `SummaryCard.BadgeColorsDistinct` | src/components/SummaryCard.tsx:53-64 | the three styles get three different colours |
| `SummaryCard.ReplaceFirst` | src/components/SummaryCard.tsx:76 | `replace('-', ' ')` changes only the first hyphen, keeps the length, and leaves hyphen-free strings unchanged |
| `SummaryCard.StyleLabel` | src/components/SummaryCard.tsx:76 | computes the badge label `style.replace('-', ' ')`; stated by `StyleLabelOf`, `LabelOfHyphenated` and `LabelWithoutHyphen` |
| `SummaryCard.StyleLabelOf` | src/components/SummaryCard.tsx:76 | `bullet-points` is labelled `bullet points`; the other styles are labelled by their name |
| `SummaryCard.LabelOfHyphenated` | src/components/SummaryCard.tsx:76 | in a hyphen-joined pair whose first part has no hyphen, the hyphen becomes a space |
| `SummaryCard.LabelWithoutHyphen` | src/components/SummaryCard.tsx:76 | a label without a hyphen is unchanged |
| `SummaryCard.Card.constructor` | src/components/SummaryCard.tsx:12-14 | a card starts collapsed and not deleting |
| `SummaryCard.Card.ToggleExpanded` | src/components/SummaryCard.tsx:106 | the toggle flips `isExpanded` only |
| `SummaryCard.Card.BeginDelete` | src/components/SummaryCard.tsx:16-21 | without confirmation nothing happens; with it the card is marked deleting and requests deletion of its own id |
| `SummaryCard.Card.FinishDelete` | src/components/SummaryCard.tsx:22-39 | `onDelete(id)` fires only for a reply with `success` true, every other outcome alerts; deleting ends either way |
| `SummaryForm.CheckText` | src/components/SummaryForm.tsx:20-28 | computes `handleSubmit`'s two text checks; stated by `CheckTextOrder` and `FormChecksMatchServer` |
| `SummaryForm.SubmitDisabled` | src/components/SummaryForm.tsx:117 | computes the button's `disabled` predicate; stated by `EnabledExactlyWhenChecksPass` |
| `SummaryForm.CheckTextOrder` | src/components/SummaryForm.tsx:20-28 | blank text gets the "enter some text" message even when too long; non-blank text fails iff over 10,000 characters |
| `SummaryForm.EnabledExactlyWhenChecksPass` | src/components/SummaryForm.tsx:117 | the button is enabled iff nothing is loading and the text passes the submit checks |
| `SummaryForm.FormChecksMatchServer` | src/components/SummaryForm.tsx:20-43 | the server accepts the body the form sends, with the chosen style, iff the form's checks pass |
| `SummaryForm.Form.constructor` | src/components/SummaryForm.tsx:12-15 | the form starts empty, concise, not loading, without error |
| `SummaryForm.Form.Submit` | src/components/SummaryForm.tsx:17-44 | a failing check sets its message and sends nothing, leaving loading as it was; otherwise loading starts, the error clears and the text is sent with the style |
| `SummaryForm.Form.Settle` | src/components/SummaryForm.tsx:45-57 | success clears the text and reports creation; failure keeps the text and shows the message; loading ends either way |
| `SummaryForm.Form.HandleSubmit` | src/components/SummaryForm.tsx:17-58 | the whole submission: either no request and the check's message, or the request followed by the success or failure state |

## Left out

- Text generation (`src/lib/openai.ts`) is an oracle: the model does not capture its prompt templates, its own repeated input checks, its trimming of the reply or its "Summary generation failed: " message prefix.
- The database is left out; `create` is represented by the id and timestamp it would assign or its error, and `findMany` by the reference definition `FindMany`. The model does not say which of several rows with equal `createdAt` comes first, because the query does not either.
- `src/app/api/summaries/[id]/route.ts` (GET and DELETE by id) and `src/app/page.tsx` are not part of this model; the card models only the client side of DELETE.
- `SummariesRoute.HandlePost`: a thrown value that is not an `Error` would produce "Internal server error"; the model's failures always carry a message, because the generator and the store throw `Error` objects.
- Lower-casing is ASCII only, on both the client and the server; JavaScript's `toLowerCase` and the database's insensitive match cover all of Unicode.
- Lengths count Unicode scalar values, not UTF-16 code units as JavaScript's `length` does, so text with characters outside the Basic Multilingual Plane is measured differently.
- JSON parsing, the percent-encoding of query parameters (the model assumes the server reads back what the client appends), `fetch`, `confirm`, `alert`, `console.error`, `formatDate` and JSX rendering are left out.
- Concurrency: each request and each handler half runs as one sequential step; concurrent checks on the same limiter key are not modelled.
- The form's and list's input bindings (`setText`, `setSummaryStyle` on change) are plain field assignments and have no methods of their own except the list's filter setters, which also run the filtering effect.
