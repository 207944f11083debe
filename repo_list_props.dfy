/**
 * Properties of the list screen's view model: what each event and each
 * result does, and what a whole load leaves on screen.
 */
module ListScreenProperties {
  import opened Wrappers
  import opened Models
  import opened Remote
  import opened Mappers
  import opened Repository
  import opened ListScreen

  // ---------------------------------------------------------------------------
  // Events

  /** The next page is requested exactly when more can be loaded and nothing is loading; otherwise nothing happens. */
  lemma NextPageGuarded(m: Screen)
    ensures var h := Handle(m, LoadNextPage);
      (h.next.currentPage == m.currentPage + 1 <==> m.canLoadMore && !m.state.isLoading)
      && (h.launched.Some? <==> m.canLoadMore && !m.state.isLoading)
      && (h.launched.Some? ==>
            h.launched.value == ListLoad(DefaultOrg, m.currentPage + 1) && h.next == m.(currentPage := m.currentPage + 1))
      && (h.launched.None? ==> h.next == m)
  {
  }

  /** A refresh restarts paging at page 1 with more allowed, keeping what is on screen until results arrive. */
  lemma RefreshRestartsPaging(m: Screen)
    ensures var h := Handle(m, Refresh);
      h.next.currentPage == 1 && h.next.canLoadMore
      && h.next.state == m.state && h.next.searchQuery == m.searchQuery
      && h.launched == Some(ListLoad(DefaultOrg, 1))
  {
  }

  /** Typing changes only the query and launches nothing directly. */
  lemma QueryChangeOnlySetsQuery(m: Screen, query: string)
    ensures var h := Handle(m, OnSearchQueryChange(query));
      h.next == m.(searchQuery := query) && h.launched.None?
      && Dispatch(h.next).SearchLoad? == (|query| > 0)
  {
  }

  /** A retry repeats the list load of the current page and changes nothing. */
  lemma RetryRepeatsCurrentPage(m: Screen)
    ensures Handle(m, OnRetry) == Handled(m, Some(ListLoad(DefaultOrg, m.currentPage)))
  {
  }

  /**
   * On creation the view model launches the list's first page twice: once
   * directly and once from the observer's first (empty) query.
   */
  lemma CreationLoadsFirstPageTwice()
    ensures Dispatch(Initial) == ListLoad(DefaultOrg, 1)
    ensures Initial.currentPage == 1 && Initial.state.repos == [] && Initial.state.error.None?
  {
  }

  // ---------------------------------------------------------------------------
  // Single results

  /** `Loading(b)` only sets the loading flag and clears the error. */
  lemma LoadingOnlyTogglesFlag(m: Screen, flow: Flow, b: bool)
    ensures var r := Apply(m, flow, Loading(b));
      r.state.isLoading == b && r.state.error.None? && r.state.repos == m.state.repos
      && r.currentPage == m.currentPage && r.canLoadMore == m.canLoadMore && r.searchQuery == m.searchQuery
  {
  }

  /** A list page replaces the list on page 1 and is appended after it on later pages; an empty page stops paging. */
  lemma ListPagePlacement(m: Screen, data: seq<Repo>)
    ensures var r := Apply(m, ListFlow, Success(data));
      && (m.currentPage == 1 ==> r.state.repos == data)
      && (m.currentPage != 1 ==>
            |r.state.repos| == |m.state.repos| + |data|
            && r.state.repos[..|m.state.repos|] == m.state.repos
            && r.state.repos[|m.state.repos|..] == data)
      && (r.canLoadMore <==> |data| > 0)
      && !r.state.isLoading && r.state.error.None?
      && r.currentPage == m.currentPage
  {
    var r := Apply(m, ListFlow, Success(data));
    if m.currentPage != 1 {
      assert r.state.repos == m.state.repos + data;
    }
  }

  /** Search results replace the list outright and leave paging alone. */
  lemma SearchResultsReplace(m: Screen, data: seq<Repo>)
    ensures var r := Apply(m, SearchFlow, Success(data));
      r.state.repos == data && !r.state.isLoading && r.state.error.None?
      && r.currentPage == m.currentPage && r.canLoadMore == m.canLoadMore
  {
  }

  /** An error shows its message, stops loading and keeps the list. */
  lemma ErrorKeepsList(m: Screen, flow: Flow, message: string)
    ensures var r := Apply(m, flow, Error(message));
      r.state.error == Some(message) && !r.state.isLoading && r.state.repos == m.state.repos
      && r.currentPage == m.currentPage && r.canLoadMore == m.canLoadMore
  {
  }

  // ---------------------------------------------------------------------------
  // Runs of results

  /** Collecting results in two parts is collecting them all. */
  lemma {:induction false} RunConcat(m: Screen, flow: Flow, a: seq<NetworkResult<seq<Repo>>>, b: seq<NetworkResult<seq<Repo>>>)
    ensures Run(m, flow, a + b) == Run(Run(m, flow, a), flow, b)
    decreases |a|
  {
    if a != [] {
      assert (a + b)[0] == a[0];
      assert (a + b)[1..] == a[1..] + b;
      RunConcat(Apply(m, flow, a[0]), flow, a[1..], b);
    } else {
      assert a + b == b;
    }
  }

  /** Results never move the paging position or the query; search results never touch `canLoadMore`. */
  lemma {:induction false} RunKeepsPosition(m: Screen, flow: Flow, results: seq<NetworkResult<seq<Repo>>>)
    ensures Run(m, flow, results).currentPage == m.currentPage
    ensures Run(m, flow, results).searchQuery == m.searchQuery
    ensures flow == SearchFlow ==> Run(m, flow, results).canLoadMore == m.canLoadMore
    decreases |results|
  {
    if results != [] {
      RunKeepsPosition(Apply(m, flow, results[0]), flow, results[1..]);
    }
  }

  /** A run that ends in `Loading(false)` leaves the screen idle and without an error. */
  lemma {:induction false} RunEndingIdle(m: Screen, flow: Flow, results: seq<NetworkResult<seq<Repo>>>)
    requires |results| > 0 && results[|results| - 1] == Loading(false)
    ensures !Run(m, flow, results).state.isLoading && Run(m, flow, results).state.error.None?
  {
    var front := results[..|results| - 1];
    assert results == front + [Loading(false)];
    RunConcat(m, flow, front, [Loading(false)]);
    assert Run(Run(m, flow, front), flow, [Loading(false)])
      == Run(Apply(Run(m, flow, front), flow, Loading(false)), flow, []);
  }

  /**
   * Every load and every search leaves the screen idle with no error, even
   * when it failed: the closing `Loading(false)` clears the message the
   * error set.
   */
  lemma FlowsEndIdleWithoutError(m: Screen, page: int, cached: seq<Repo>, call: Call<seq<RemoteRepo>>, searchCall: Call<SearchResponse>)
    ensures var r := Run(m, ListFlow, ListEvents(page, cached, call));
      !r.state.isLoading && r.state.error.None?
    ensures var r := Run(m, SearchFlow, SearchEvents(searchCall));
      !r.state.isLoading && r.state.error.None?
  {
    RunEndingIdle(m, ListFlow, ListEvents(page, cached, call));
    RunEndingIdle(m, SearchFlow, SearchEvents(searchCall));
  }

  /** Collecting the list flow's events through their network part. */
  lemma {:induction false} ListRunSplit(m: Screen, page: int, cached: seq<Repo>, call: Call<seq<RemoteRepo>>)
    ensures var front := if |cached| > 0 && page == 1 then [Success(cached)] else [];
      Run(m, ListFlow, ListEvents(page, cached, call))
        == Apply(Run(Apply(m, ListFlow, Loading(true)), ListFlow, front + ListNetworkEvents(page, cached, call)), ListFlow, Loading(false))
  {
    var front := if |cached| > 0 && page == 1 then [Success(cached)] else [];
    var middle := front + ListNetworkEvents(page, cached, call);
    assert ListEvents(page, cached, call) == [Loading(true)] + (middle + [Loading(false)]);
    RunConcat(m, ListFlow, [Loading(true)], middle + [Loading(false)]);
    RunConcat(Apply(m, ListFlow, Loading(true)), ListFlow, middle, [Loading(false)]);
  }

  /** Page 1 fetched successfully: the screen shows exactly the fetched list, whatever the cache held. */
  lemma {:induction false} FirstPageShowsFetched(m: Screen, cached: seq<Repo>, code: int, remote: seq<RemoteRepo>)
    requires m.currentPage == 1 && IsSuccessful(code)
    ensures var r := Run(m, ListFlow, ListEvents(1, cached, Responded(code, Some(remote))));
      r.state.repos == ReposToDomain(remote) && (r.canLoadMore <==> |remote| > 0) && r.currentPage == 1
  {
    var call := Responded(code, Some(remote));
    var front := if |cached| > 0 then [Success(cached)] else [];
    var m1 := Apply(m, ListFlow, Loading(true));
    ListRunSplit(m, 1, cached, call);
    RunConcat(m1, ListFlow, front, [Success(ReposToDomain(remote))]);
    var m2 := Run(m1, ListFlow, front);
    RunKeepsPosition(m1, ListFlow, front);
    assert Run(m2, ListFlow, [Success(ReposToDomain(remote))])
      == Run(Apply(m2, ListFlow, Success(ReposToDomain(remote))), ListFlow, []);
  }

  /** A later page fetched successfully is appended after what the screen showed. */
  lemma {:induction false} LaterPageAppends(m: Screen, page: int, cached: seq<Repo>, code: int, remote: seq<RemoteRepo>)
    requires page != 1 && m.currentPage == page && IsSuccessful(code)
    ensures var r := Run(m, ListFlow, ListEvents(page, cached, Responded(code, Some(remote))));
      r.state.repos == m.state.repos + ReposToDomain(remote) && (r.canLoadMore <==> |remote| > 0)
  {
    var call := Responded(code, Some(remote));
    var m1 := Apply(m, ListFlow, Loading(true));
    ListRunSplit(m, page, cached, call);
    assert Run(m1, ListFlow, [Success(ReposToDomain(remote))])
      == Run(Apply(m1, ListFlow, Success(ReposToDomain(remote))), ListFlow, []);
  }

  /** A failed load that has no cache to show leaves the list and paging as they were. */
  lemma {:induction false} FailedLoadKeepsList(m: Screen, page: int, cached: seq<Repo>, call: Call<seq<RemoteRepo>>)
    requires !(call.Responded? && IsSuccessful(call.code))
    requires !(page == 1 && |cached| > 0)
    ensures var r := Run(m, ListFlow, ListEvents(page, cached, call));
      r.state.repos == m.state.repos && r.canLoadMore == m.canLoadMore && r.currentPage == m.currentPage
  {
    var m1 := Apply(m, ListFlow, Loading(true));
    ListRunSplit(m, page, cached, call);
    var e := ListNetworkEvents(page, cached, call)[0];
    assert ListNetworkEvents(page, cached, call) == [e] && e.Error?;
    assert Run(m1, ListFlow, [e]) == Run(Apply(m1, ListFlow, e), ListFlow, []);
  }

  /** Page 1 fails but the cache was non-empty: the screen shows the cached list and paging stays open. */
  lemma {:induction false} FailedFirstPageShowsCache(m: Screen, cached: seq<Repo>, call: Call<seq<RemoteRepo>>)
    requires m.currentPage == 1 && |cached| > 0
    requires !(call.Responded? && IsSuccessful(call.code))
    ensures var r := Run(m, ListFlow, ListEvents(1, cached, call));
      r.state.repos == cached && r.canLoadMore && r.currentPage == 1
  {
    var m1 := Apply(m, ListFlow, Loading(true));
    var network := ListNetworkEvents(1, cached, call);
    ListRunSplit(m, 1, cached, call);
    RunConcat(m1, ListFlow, [Success(cached)], network);
    var m2 := Run(m1, ListFlow, [Success(cached)]);
    assert m2 == Run(Apply(m1, ListFlow, Success(cached)), ListFlow, []);
    if call.IoFailure? {
      assert network == [network[0], Success(cached)];
      RunConcat(m2, ListFlow, [network[0]], [Success(cached)]);
      var m3 := Run(m2, ListFlow, [network[0]]);
      assert m3 == Run(Apply(m2, ListFlow, network[0]), ListFlow, []);
      assert Run(m3, ListFlow, [Success(cached)]) == Run(Apply(m3, ListFlow, Success(cached)), ListFlow, []);
    } else {
      assert network == [network[0]];
      assert Run(m2, ListFlow, network) == Run(Apply(m2, ListFlow, network[0]), ListFlow, []);
    }
  }

  /** A successful search shows exactly its mapped results; a failed one keeps the list. Paging is untouched. */
  lemma {:induction false} SearchFlowOutcome(m: Screen, call: Call<SearchResponse>)
    ensures var r := Run(m, SearchFlow, SearchEvents(call));
      && (call.Responded? && IsSuccessful(call.code) ==>
            r.state.repos == (if call.body.Some? then ReposToDomain(call.body.value.items) else []))
      && (!(call.Responded? && IsSuccessful(call.code)) ==> r.state.repos == m.state.repos)
      && r.currentPage == m.currentPage && r.canLoadMore == m.canLoadMore
  {
    var e := SearchNetworkEvent(call);
    var m1 := Apply(m, SearchFlow, Loading(true));
    var m2 := Apply(m1, SearchFlow, e);
    assert SearchEvents(call)[1..] == [e, Loading(false)];
    assert [e, Loading(false)][1..] == [Loading(false)];
    assert Run(m, SearchFlow, SearchEvents(call)) == Run(m1, SearchFlow, [e, Loading(false)]);
    assert Run(m1, SearchFlow, [e, Loading(false)]) == Run(m2, SearchFlow, [Loading(false)]);
    assert Run(m2, SearchFlow, [Loading(false)]) == Run(Apply(m2, SearchFlow, Loading(false)), SearchFlow, []);
  }
}
