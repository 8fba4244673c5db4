/** The summaries list component: the query parameters it sends, the
    client-side search and style filters, deletion from the list, and the
    heading it shows. */
module SummariesList {
  import opened Wrappers
  import opened Text
  import opened Types
  import opened Sequences
  import SummariesRoute

  const FetchFailedMessage: string := "Failed to fetch summaries"
  const GenericErrorMessage: string := "An error occurred"

  /** The style selector: every style, or exactly one. */
  datatype StyleFilter = All | Only(style: Style)

  /** One `name=value` pair of a URL query string. */
  datatype Param = Param(name: string, value: string)

  /** The parameters `fetchSummaries` appends: `search` for a non-empty
      term, then `style` for a selected style. */
  function QueryParams(searchTerm: string, filter: StyleFilter): seq<Param> {
    (if searchTerm != "" then [Param("search", searchTerm)] else [])
    + (if filter.Only? then [Param("style", StyleName(filter.style))] else [])
  }

  /** URLSearchParams.get: the value of the first parameter called `name`. */
  function GetParam(params: seq<Param>, name: string): (r: Option<string>)
    ensures r.Some? <==> exists i :: 0 <= i < |params| && params[i].name == name
    ensures r.Some? ==> exists i :: 0 <= i < |params| && params[i] == Param(name, r.value)
                                     && forall j :: 0 <= j < i ==> params[j].name != name
  {
    if params == [] then None
    else if params[0].name == name then Some(params[0].value)
    else GetParam(params[1..], name)
  }

  /** `search` is sent exactly for a non-empty term and `style` exactly when
      the filter is not `all`, each carrying the selected value. */
  lemma QueryParamsSent(searchTerm: string, filter: StyleFilter)
    ensures GetParam(QueryParams(searchTerm, filter), "search") ==
      if searchTerm != "" then Some(searchTerm) else None
    ensures GetParam(QueryParams(searchTerm, filter), "style") ==
      if filter.Only? then Some(StyleName(filter.style)) else None
  {
  }

  /** The client's search condition: either text contains the term,
      ignoring case. */
  predicate MatchesSearch(term: string, s: Summary) {
    ContainsIgnoringCase(s.originalText, term) || ContainsIgnoringCase(s.summaryText, term)
  }

  /** Whether a summary survives both client-side filters. */
  predicate Keep(searchTerm: string, filter: StyleFilter, s: Summary) {
    && (searchTerm == "" || MatchesSearch(searchTerm, s))
    && (filter.All? || s.summaryStyle == filter.style)
  }

  function SearchMatcher(term: string): Summary -> bool {
    (s: Summary) => MatchesSearch(term, s)
  }

  function StyleMatcher(style: Style): Summary -> bool {
    (s: Summary) => s.summaryStyle == style
  }

  function Keeper(searchTerm: string, filter: StyleFilter): Summary -> bool {
    (s: Summary) => Keep(searchTerm, filter, s)
  }

  /** The filtering effect: a text pass when the term is non-empty, then a
      style pass unless the filter is `all`. */
  function ApplyFilters(summaries: seq<Summary>, searchTerm: string, filter: StyleFilter): seq<Summary> {
    var bySearch := if searchTerm != "" then Filter(summaries, SearchMatcher(searchTerm)) else summaries;
    if filter.Only? then Filter(bySearch, StyleMatcher(filter.style)) else bySearch
  }

  /** The two passes AND their conditions: they keep the same summaries, in
      the same order, as one pass with `Keep`. */
  lemma ApplyFiltersIsOnePass(summaries: seq<Summary>, searchTerm: string, filter: StyleFilter)
    ensures ApplyFilters(summaries, searchTerm, filter) == Filter(summaries, Keeper(searchTerm, filter))
  {
    var keep := Keeper(searchTerm, filter);
    if searchTerm != "" {
      if filter.Only? {
        FilterConjunction(summaries, SearchMatcher(searchTerm), StyleMatcher(filter.style), keep);
      } else {
        FilterCongruence(summaries, SearchMatcher(searchTerm), keep);
      }
    } else if filter.Only? {
      FilterCongruence(summaries, StyleMatcher(filter.style), keep);
    } else {
      FilterAllKept(summaries, keep);
    }
  }

  /** The filtered list is an order-preserving subsequence of the list: it
      holds exactly the summaries `Keep` accepts, at increasing positions,
      and is never longer. With an empty term and `all` it is the list. */
  lemma FilteredIsOrderedSubsequence(summaries: seq<Summary>, searchTerm: string, filter: StyleFilter)
    ensures var r := ApplyFilters(summaries, searchTerm, filter);
      var idx := KeptIndices(summaries, Keeper(searchTerm, filter));
      && |r| <= |summaries|
      && OrderedEmbedding(r, summaries, idx)
      && (forall k :: 0 <= k < |summaries| ==> (k in idx <==> Keep(searchTerm, filter, summaries[k])))
    ensures searchTerm == "" && filter.All? ==> ApplyFilters(summaries, searchTerm, filter) == summaries
  {
    ApplyFiltersIsOnePass(summaries, searchTerm, filter);
    FilterPreservesOrder(summaries, Keeper(searchTerm, filter));
  }

  /** The server answers the parameters this component sends with exactly
      the condition the component filters by. */
  lemma ServerConditionIsClientCondition(searchTerm: string, filter: StyleFilter, s: Summary)
    ensures var params := QueryParams(searchTerm, filter);
      var q := SummariesRoute.BuildQuery(GetParam(params, "search"), GetParam(params, "style"));
      SummariesRoute.Matches(q.where, s) == Keep(searchTerm, filter, s)
  {
    QueryParamsSent(searchTerm, filter);
    if filter.Only? {
      ParseStyleName(filter.style);
    }
  }

  /** Re-filtering the server's answer on the client, with the same term and
      style, changes nothing. */
  lemma ClientFilterOfServerResultIsIdentity(rows: seq<Summary>, searchTerm: string, filter: StyleFilter)
    ensures var params := QueryParams(searchTerm, filter);
      var q := SummariesRoute.BuildQuery(GetParam(params, "search"), GetParam(params, "style"));
      var r := SummariesRoute.FindMany(rows, q);
      ApplyFilters(r, searchTerm, filter) == r
  {
    var params := QueryParams(searchTerm, filter);
    var q := SummariesRoute.BuildQuery(GetParam(params, "search"), GetParam(params, "style"));
    var r := SummariesRoute.FindMany(rows, q);
    SummariesRoute.FindManySound(rows, q);
    forall i | 0 <= i < |r|
      ensures Keeper(searchTerm, filter)(r[i])
    {
      ServerConditionIsClientCondition(searchTerm, filter, r[i]);
    }
    ApplyFiltersIsOnePass(r, searchTerm, filter);
    FilterAllKept(r, Keeper(searchTerm, filter));
  }

  function IdIsNot(id: string): Summary -> bool {
    (s: Summary) => s.id != id
  }

  /** `handleDelete`: drops the summaries with the given id. */
  function RemoveById(summaries: seq<Summary>, id: string): seq<Summary> {
    Filter(summaries, IdIsNot(id))
  }

  /** Deleting removes every summary with the id and keeps every other one,
      in its original relative order. */
  lemma RemoveByIdKeepsOthersInOrder(summaries: seq<Summary>, id: string)
    ensures var r := RemoveById(summaries, id);
      var idx := KeptIndices(summaries, IdIsNot(id));
      && (forall i :: 0 <= i < |r| ==> r[i].id != id)
      && OrderedEmbedding(r, summaries, idx)
      && (forall k :: 0 <= k < |summaries| ==> (k in idx <==> summaries[k].id != id))
  {
    FilterPreservesOrder(summaries, IdIsNot(id));
  }

  /** After a deletion the filtered list holds no summary with that id. */
  lemma FilteredAfterRemoveLacksId(summaries: seq<Summary>, id: string, searchTerm: string, filter: StyleFilter)
    ensures var r := ApplyFilters(RemoveById(summaries, id), searchTerm, filter);
      forall i :: 0 <= i < |r| ==> r[i].id != id
  {
    var remaining := RemoveById(summaries, id);
    var r := ApplyFilters(remaining, searchTerm, filter);
    FilteredIsOrderedSubsequence(remaining, searchTerm, filter);
    RemoveByIdKeepsOthersInOrder(summaries, id);
    var idx := KeptIndices(remaining, Keeper(searchTerm, filter));
    forall i | 0 <= i < |r|
      ensures r[i].id != id
    {
      assert r[i] == remaining[idx[i]];
    }
  }

  /** The heading above the cards. */
  datatype Heading = NoSummariesYet | NoMatches | Showing(shown: nat, total: nat)

  function HeadingOf(summaries: seq<Summary>, filtered: seq<Summary>): Heading {
    if |filtered| == 0 then (if |summaries| == 0 then NoSummariesYet else NoMatches)
    else Showing(|filtered|, |summaries|)
  }

  /** On a settled list: "No summaries yet" exactly for an empty list, "No
      summaries match" exactly when summaries exist but none passes, and
      otherwise "Showing n of m" with 0 < n <= m. */
  lemma HeadingOfFilteredList(summaries: seq<Summary>, searchTerm: string, filter: StyleFilter)
    ensures var filtered := ApplyFilters(summaries, searchTerm, filter);
      var h := HeadingOf(summaries, filtered);
      && (h == NoSummariesYet <==> summaries == [])
      && (h == NoMatches <==> summaries != [] && filtered == [])
      && (h.Showing? ==> 0 < h.shown <= h.total && h.total == |summaries| && h.shown == |filtered|)
  {
    FilteredIsOrderedSubsequence(summaries, searchTerm, filter);
  }

  /** What the component renders. */
  datatype View = Loading | ErrorPanel(message: string) | List(heading: Heading, cards: seq<Summary>)

  /** The answer to the list request: the JSON envelope, the message of
      the `Error` that fetching or parsing threw, or a thrown value that is
      not an `Error`. */
  datatype ListReply =
    | Received(success: bool, data: Option<seq<Summary>>, error: Option<string>)
    | Thrown(message: string)
    | ThrownNonError

  /** The component's state, observed once its filtering effect has run. */
  class ListState {
    var summaries: seq<Summary>
    var filtered: seq<Summary>
    var isLoading: bool
    var error: Option<string>
    var searchTerm: string
    var styleFilter: StyleFilter

    /** The filtering effect has caught up with its inputs. */
    ghost predicate Settled()
      reads this
    {
      filtered == ApplyFilters(summaries, searchTerm, styleFilter)
    }

    constructor ()
      ensures Settled()
      ensures summaries == [] && filtered == [] && isLoading && error == None
      ensures searchTerm == "" && styleFilter == All
    {
      summaries, filtered := [], [];
      isLoading, error := true, None;
      searchTerm, styleFilter := "", All;
    }

    /** What is on screen: the spinner, the error panel, or the list. */
    function Render(): View
      reads this
    {
      if isLoading then Loading
      else if error.Some? && error.value != "" then ErrorPanel(error.value)
      else List(HeadingOf(summaries, filtered), filtered)
    }

    /** The first half of `fetchSummaries`: show the spinner, clear the
        error and build the request's query parameters. */
    method BeginFetch() returns (params: seq<Param>)
      requires Settled()
      modifies this
      ensures Settled()
      ensures params == QueryParams(searchTerm, styleFilter)
      ensures isLoading && error == None
      ensures summaries == old(summaries) && filtered == old(filtered)
      ensures searchTerm == old(searchTerm) && styleFilter == old(styleFilter)
    {
      isLoading := true;
      error := None;
      params := [];
      if searchTerm != "" {
        params := params + [Param("search", searchTerm)];
      }
      if styleFilter != All {
        params := params + [Param("style", StyleName(styleFilter.style))];
      }
    }

    /** The second half of `fetchSummaries`, once the reply is in: a
        successful reply replaces the list (a missing array counts as
        empty), which the effect then re-filters; a failed one keeps the
        list and records the message. The spinner goes away either way. */
    method FinishFetch(reply: ListReply)
      requires Settled()
      modifies this
      ensures Settled()
      ensures !isLoading
      ensures searchTerm == old(searchTerm) && styleFilter == old(styleFilter)
      ensures reply.Received? && reply.success ==>
        && summaries == (if reply.data.Some? then reply.data.value else [])
        && error == old(error)
      ensures reply.Received? && !reply.success ==>
        summaries == old(summaries) && error == Some(OrElse(reply.error, FetchFailedMessage))
      ensures reply.Thrown? ==> summaries == old(summaries) && error == Some(reply.message)
      ensures reply.ThrownNonError? ==> summaries == old(summaries) && error == Some(GenericErrorMessage)
    {
      match reply {
        case Received(success, data, message) =>
          if success {
            var rows := if data.Some? then data.value else [];
            summaries := rows;
            filtered := rows;
            RunFilterEffect();
          } else {
            error := Some(OrElse(message, FetchFailedMessage));
          }
        case Thrown(message) =>
          error := Some(message);
        case ThrownNonError =>
          error := Some(GenericErrorMessage);
      }
      isLoading := false;
    }

    /** The filtering effect, run whenever the list, term or filter changes. */
    method RunFilterEffect()
      modifies this
      ensures Settled()
      ensures summaries == old(summaries) && isLoading == old(isLoading) && error == old(error)
      ensures searchTerm == old(searchTerm) && styleFilter == old(styleFilter)
    {
      filtered := ApplyFilters(summaries, searchTerm, styleFilter);
    }

    method SetSearchTerm(term: string)
      modifies this
      ensures Settled()
      ensures searchTerm == term && styleFilter == old(styleFilter)
      ensures summaries == old(summaries) && isLoading == old(isLoading) && error == old(error)
    {
      searchTerm := term;
      RunFilterEffect();
    }

    method SetStyleFilter(filter: StyleFilter)
      modifies this
      ensures Settled()
      ensures styleFilter == filter && searchTerm == old(searchTerm)
      ensures summaries == old(summaries) && isLoading == old(isLoading) && error == old(error)
    {
      styleFilter := filter;
      RunFilterEffect();
    }

    /** `handleDelete`, called by a card after the server deleted its
        summary: the summary leaves the list and the shown list. */
    method Delete(id: string)
      modifies this
      ensures Settled()
      ensures summaries == RemoveById(old(summaries), id)
      ensures forall i :: 0 <= i < |filtered| ==> filtered[i].id != id
      ensures searchTerm == old(searchTerm) && styleFilter == old(styleFilter)
      ensures isLoading == old(isLoading) && error == old(error)
    {
      summaries := RemoveById(summaries, id);
      RunFilterEffect();
      FilteredAfterRemoveLacksId(old(summaries), id, searchTerm, styleFilter);
    }
  }
}
